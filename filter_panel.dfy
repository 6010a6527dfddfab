/** The filter side panel of `src/components/molecules/FilterPanel.jsx`:
    how its controls turn user input into a new criteria object for
    `getAll`, and which of its collapsible sections are open. */
module FilterPanel {
  import opened Wrappers
  import opened JsText
  import opened JsArray
  import opened PropertyService

  // ----- `handleFilterChange(key, value)`: `{...filters, [key]: value}` -----

  /** The criteria keys the panel and the browse page write. */
  datatype FilterKey =
    | PriceMinKey | PriceMaxKey | PropertyTypesKey | BedroomsMinKey
    | BathroomsMinKey | SquareFeetMinKey | AmenitiesKey | SortByKey

  /** A key together with the value written under it. */
  datatype FilterChange =
    | SetPriceMin(priceMin: Option<int>)
    | SetPriceMax(priceMax: Option<int>)
    | SetPropertyTypes(propertyTypes: Option<seq<string>>)
    | SetBedroomsMin(bedroomsMin: Option<int>)
    | SetBathroomsMin(bathroomsMin: Option<real>)
    | SetSquareFeetMin(squareFeetMin: Option<int>)
    | SetAmenities(amenities: Option<seq<string>>)
    | SetSortBy(sortBy: Option<string>)

  function KeyOf(change: FilterChange): FilterKey {
    match change
    case SetPriceMin(_) => PriceMinKey
    case SetPriceMax(_) => PriceMaxKey
    case SetPropertyTypes(_) => PropertyTypesKey
    case SetBedroomsMin(_) => BedroomsMinKey
    case SetBathroomsMin(_) => BathroomsMinKey
    case SetSquareFeetMin(_) => SquareFeetMinKey
    case SetAmenities(_) => AmenitiesKey
    case SetSortBy(_) => SortByKey
  }

  /** `filters[key]`, paired with its key. */
  function Get(c: Criteria, key: FilterKey): (v: FilterChange)
    ensures KeyOf(v) == key
  {
    match key
    case PriceMinKey => SetPriceMin(c.priceMin)
    case PriceMaxKey => SetPriceMax(c.priceMax)
    case PropertyTypesKey => SetPropertyTypes(c.propertyTypes)
    case BedroomsMinKey => SetBedroomsMin(c.bedroomsMin)
    case BathroomsMinKey => SetBathroomsMin(c.bathroomsMin)
    case SquareFeetMinKey => SetSquareFeetMin(c.squareFeetMin)
    case AmenitiesKey => SetAmenities(c.amenities)
    case SortByKey => SetSortBy(c.sortBy)
  }

  /** Criteria are fully described by what they hold under each key. */
  lemma GetDeterminesCriteria(a: Criteria, b: Criteria)
    requires forall key :: Get(a, key) == Get(b, key)
    ensures a == b
  {
    assert Get(a, PriceMinKey) == Get(b, PriceMinKey);
    assert Get(a, PriceMaxKey) == Get(b, PriceMaxKey);
    assert Get(a, PropertyTypesKey) == Get(b, PropertyTypesKey);
    assert Get(a, BedroomsMinKey) == Get(b, BedroomsMinKey);
    assert Get(a, BathroomsMinKey) == Get(b, BathroomsMinKey);
    assert Get(a, SquareFeetMinKey) == Get(b, SquareFeetMinKey);
    assert Get(a, AmenitiesKey) == Get(b, AmenitiesKey);
    assert Get(a, SortByKey) == Get(b, SortByKey);
  }

  /** The object passed to `onFiltersChange`: the written key holds the new
      value and every other key keeps its old one. */
  function HandleFilterChange(c: Criteria, change: FilterChange): (r: Criteria)
    ensures Get(r, KeyOf(change)) == change
    ensures forall key :: key != KeyOf(change) ==> Get(r, key) == Get(c, key)
  {
    match change
    case SetPriceMin(v) => c.(priceMin := v)
    case SetPriceMax(v) => c.(priceMax := v)
    case SetPropertyTypes(v) => c.(propertyTypes := v)
    case SetBedroomsMin(v) => c.(bedroomsMin := v)
    case SetBathroomsMin(v) => c.(bathroomsMin := v)
    case SetSquareFeetMin(v) => c.(squareFeetMin := v)
    case SetAmenities(v) => c.(amenities := v)
    case SetSortBy(v) => c.(sortBy := v)
  }

  // ----- the checkbox lists -----

  /** `filters.propertyTypes || []` (an empty array is truthy, so a present list is used as is). */
  function CurrentList(list: Option<seq<string>>): seq<string> {
    if list.Some? then list.value else []
  }

  /** The `checked` attribute of the checkbox for `x`. */
  predicate IsChecked(list: Option<seq<string>>, x: string) {
    x in CurrentList(list)
  }

  /** The test `t => t !== x`. */
  function Other(x: string): string -> bool {
    t => t != x
  }

  /** `xs.includes(x) ? xs.filter(t => t !== x) : [...xs, x]`. */
  function Toggle(xs: seq<string>, x: string): seq<string> {
    if x in xs then Filter(xs, Other(x)) else xs + [x]
  }

  /** Toggling flips whether `x` is in the list and leaves every other entry's membership alone. */
  lemma ToggleFlips(xs: seq<string>, x: string)
    ensures x in Toggle(xs, x) <==> x !in xs
    ensures forall y :: y != x ==> (y in Toggle(xs, x) <==> y in xs)
  {
    FilterMembers(xs, Other(x));
  }

  /** Unchecking removes every copy of `x` and keeps the rest in order;
      checking appends `x` at the end. */
  lemma ToggleShape(xs: seq<string>, x: string)
    ensures x in xs ==> IsSubsequence(Toggle(xs, x), xs) && |Toggle(xs, x)| < |xs|
    ensures x in xs ==> multiset(Toggle(xs, x)) == multiset(xs)[x := 0]
    ensures x !in xs ==> Toggle(xs, x) == xs + [x]
  {
    if x in xs {
      FilterIsSubsequence(xs, Other(x));
      FilterShorter(xs, x);
      FilterOtherCounts(xs, x);
    }
  }

  /** Filtering out `x` keeps every other element as often as it occurred. */
  lemma {:induction false} FilterOtherCounts(xs: seq<string>, x: string)
    ensures multiset(Filter(xs, Other(x))) == multiset(xs)[x := 0]
  {
    if xs != [] {
      FilterOtherCounts(xs[1..], x);
      assert xs == [xs[0]] + xs[1..];
      var head := if xs[0] != x then [xs[0]] else [];
      assert Filter(xs, Other(x)) == head + Filter(xs[1..], Other(x));
      assert multiset(xs) == multiset{xs[0]} + multiset(xs[1..]);
      assert multiset(head) == multiset{xs[0]}[x := 0];
      forall y ensures multiset(Filter(xs, Other(x)))[y] == multiset(xs)[x := 0][y] {
      }
    }
  }

  lemma {:induction false} FilterShorter(xs: seq<string>, x: string)
    requires x in xs
    ensures |Filter(xs, Other(x))| < |xs|
  {
    FilterNoLonger(xs[1..], Other(x));
    if xs[0] != x {
      assert x in xs[1..];
      FilterShorter(xs[1..], x);
    }
  }

  lemma {:induction false} FilterNoLonger(xs: seq<string>, keep: string -> bool)
    ensures |Filter(xs, keep)| <= |xs|
  {
    if xs != [] {
      FilterNoLonger(xs[1..], keep);
    }
  }

  /** Checking a box and unchecking it again restores the list. */
  lemma ToggleTwiceRestores(xs: seq<string>, x: string)
    requires x !in xs
    ensures Toggle(Toggle(xs, x), x) == xs
  {
    assert x in xs + [x];
    FilterDropsAppended(xs, x, Other(x));
  }

  /** `handlePropertyTypeToggle(type)`. */
  function HandlePropertyTypeToggle(c: Criteria, propertyType: string): (r: Criteria)
    ensures r.propertyTypes == Some(Toggle(CurrentList(c.propertyTypes), propertyType))
    ensures IsChecked(r.propertyTypes, propertyType) <==> !IsChecked(c.propertyTypes, propertyType)
    ensures forall t :: t != propertyType ==> (IsChecked(r.propertyTypes, t) <==> IsChecked(c.propertyTypes, t))
    ensures forall key :: key != PropertyTypesKey ==> Get(r, key) == Get(c, key)
  {
    var xs := CurrentList(c.propertyTypes);
    ToggleFlips(xs, propertyType);
    HandleFilterChange(c, SetPropertyTypes(Some(Toggle(xs, propertyType))))
  }

  /** `handleAmenityToggle(amenity)`. */
  function HandleAmenityToggle(c: Criteria, amenity: string): (r: Criteria)
    ensures r.amenities == Some(Toggle(CurrentList(c.amenities), amenity))
    ensures IsChecked(r.amenities, amenity) <==> !IsChecked(c.amenities, amenity)
    ensures forall a :: a != amenity ==> (IsChecked(r.amenities, a) <==> IsChecked(c.amenities, a))
    ensures forall key :: key != AmenitiesKey ==> Get(r, key) == Get(c, key)
  {
    var xs := CurrentList(c.amenities);
    ToggleFlips(xs, amenity);
    HandleFilterChange(c, SetAmenities(Some(Toggle(xs, amenity))))
  }

  /** Unchecking the only checked type leaves `[]`, which `getAll` treats as no
      type criterion at all. */
  lemma UncheckingLastTypeClearsCriterion(c: Criteria, propertyType: string, p: Property)
    requires c.propertyTypes == Some([propertyType])
    ensures Matches(HandlePropertyTypeToggle(c, propertyType), p) <==> Matches(c.(propertyTypes := None), p)
  {
    var r := HandlePropertyTypeToggle(c, propertyType);
    assert [propertyType][1..] == [];
    assert Filter([propertyType], Other(propertyType)) == [];
    assert r.propertyTypes == Some([]);
    assert !IsNonEmpty(r.propertyTypes);
  }

  // ----- the numeric inputs -----

  /** `e.target.value ? parseInt(e.target.value) : null`; JavaScript's `NaN`
      (no digits) is falsy like `null` and is modelled as `None` too. */
  function NumericInput(value: string): Option<int> {
    if value == "" then None else ParseInt(value)
  }

  /** `e.target.value ? parseFloat(e.target.value) : null`. */
  function DecimalInput(value: string): Option<real> {
    if value == "" then None else ParseFloat(value)
  }

  /** `value={filters.priceMin || ''}`: what the input shows for a bound. */
  function ShownNumber(bound: Option<int>): string {
    if IsSet(bound) then IntToString(bound.value) else ""
  }

  /** Reading back what an input shows keeps an active bound and keeps an
      inactive one inactive. */
  lemma NumericInputRoundTrip(bound: Option<int>)
    ensures IsSet(NumericInput(ShownNumber(bound))) == IsSet(bound)
    ensures IsSet(bound) ==> NumericInput(ShownNumber(bound)) == bound
  {
    if IsSet(bound) {
      ParseIntToString(bound.value);
      assert ShownNumber(bound) != "" by {
        if bound.value < 0 {
          assert |IntToString(bound.value)| > 1;
        }
      }
    }
  }

  /** The bedroom choices `1`..`6` are read back as the same numbers. */
  lemma BedroomChoiceReadBack(n: nat)
    ensures NumericInput(NatToString(n)) == Some(n)
  {
    ParseIntToString(n);
  }

  /** The bathroom choices `1`, `1.5`, ..., `5` are read back as the same numbers. */
  lemma BathroomChoiceReadBack(n: nat)
    ensures DecimalInput(NatToString(n)) == Some(n as real)
    ensures DecimalInput(NatToString(n) + ".5") == Some(n as real + 0.5)
  {
    ParseFloatWhole(n);
    ParseFloatHalf(n);
  }

  // ----- collapsible sections -----

  datatype Section = PriceSection | PropertyTypeSection | BedsBathsSection | SizeSection | AmenitiesSection

  /** The `expandedSections` state object. */
  datatype ExpandedSections = ExpandedSections(price: bool, propertyType: bool, bedsBaths: bool, size: bool, amenities: bool)

  function IsExpanded(e: ExpandedSections, section: Section): bool {
    match section
    case PriceSection => e.price
    case PropertyTypeSection => e.propertyType
    case BedsBathsSection => e.bedsBaths
    case SizeSection => e.size
    case AmenitiesSection => e.amenities
  }

  /** Price, type and beds/baths start open; size and amenities start closed. */
  function InitialSections(): (e: ExpandedSections)
    ensures IsExpanded(e, PriceSection) && IsExpanded(e, PropertyTypeSection) && IsExpanded(e, BedsBathsSection)
    ensures !IsExpanded(e, SizeSection) && !IsExpanded(e, AmenitiesSection)
  {
    ExpandedSections(true, true, true, false, false)
  }

  /** `toggleSection(section)`: `{...prev, [section]: !prev[section]}`. */
  function ToggleSection(e: ExpandedSections, section: Section): (r: ExpandedSections)
    ensures IsExpanded(r, section) == !IsExpanded(e, section)
    ensures forall other :: other != section ==> IsExpanded(r, other) == IsExpanded(e, other)
  {
    match section
    case PriceSection => e.(price := !e.price)
    case PropertyTypeSection => e.(propertyType := !e.propertyType)
    case BedsBathsSection => e.(bedsBaths := !e.bedsBaths)
    case SizeSection => e.(size := !e.size)
    case AmenitiesSection => e.(amenities := !e.amenities)
  }

  /** Two clicks on a section header restore the panel. */
  lemma ToggleSectionTwice(e: ExpandedSections, section: Section)
    ensures ToggleSection(ToggleSection(e, section), section) == e
  {
  }
}
