/** The property query engine of `src/services/api/propertyService.js`:
    `getAll` (filters, then an optional stable sort), `search` and `getById`
    over the read-only list of listings. The module-level list is never
    reassigned in the source, so every operation takes it as a parameter. */
module PropertyService {
  import opened Wrappers
  import opened JsText
  import opened JsArray
  import StableSort

  datatype Address = Address(street: string, city: string, state: string, zipCode: string, fullAddress: string)

  /** One listing; `bathrooms` is a decimal (half baths are `x.5`), `listingDate`
      a timestamp. */
  datatype Property = Property(
    id: int,
    title: string,
    description: string,
    price: int,
    propertyType: string,
    bedrooms: int,
    bathrooms: real,
    squareFeet: int,
    amenities: seq<string>,
    address: Address,
    images: seq<string>,
    status: string,
    listingDate: int)

  /** The criteria object `getAll` reads. `None` is an absent key, `null`
      or `NaN`. */
  datatype Criteria = Criteria(
    priceMin: Option<int>,
    priceMax: Option<int>,
    propertyTypes: Option<seq<string>>,
    bedroomsMin: Option<int>,
    bathroomsMin: Option<real>,
    squareFeetMin: Option<int>,
    amenities: Option<seq<string>>,
    sortBy: Option<string>)

  // ----- JavaScript truthiness of the criteria -----

  predicate IsSet(bound: Option<int>) {
    bound.Some? && bound.value != 0
  }

  predicate IsSetReal(bound: Option<real>) {
    bound.Some? && bound.value != 0.0
  }

  predicate IsNonEmpty(list: Option<seq<string>>) {
    list.Some? && |list.value| > 0
  }

  /** `wanted.some(a => p.amenities.includes(a))`. */
  predicate HasSomeAmenity(wanted: seq<string>, p: Property) {
    exists a :: a in wanted && a in p.amenities
  }

  /** The record satisfies every active criterion (the reference definition
      of the filter stage). */
  predicate Matches(c: Criteria, p: Property) {
    && (IsSet(c.priceMin) ==> p.price >= c.priceMin.value)
    && (IsSet(c.priceMax) ==> p.price <= c.priceMax.value)
    && (IsNonEmpty(c.propertyTypes) ==> p.propertyType in c.propertyTypes.value)
    && (IsSet(c.bedroomsMin) ==> p.bedrooms >= c.bedroomsMin.value)
    && (IsSetReal(c.bathroomsMin) ==> p.bathrooms >= c.bathroomsMin.value)
    && (IsSet(c.squareFeetMin) ==> p.squareFeet >= c.squareFeetMin.value)
    && (IsNonEmpty(c.amenities) ==> HasSomeAmenity(c.amenities.value, p))
  }

  /** The records of `properties` that match `c`, in their original order. */
  function Select(properties: seq<Property>, c: Criteria): seq<Property> {
    Filter(properties, p => Matches(c, p))
  }

  // ----- the seven successive filter steps of getAll -----

  /** The guard of the `n`-th `if` block of `getAll`. */
  predicate Active(c: Criteria, n: nat) {
    match n
    case 1 => IsSet(c.priceMin)
    case 2 => IsSet(c.priceMax)
    case 3 => IsNonEmpty(c.propertyTypes)
    case 4 => IsSet(c.bedroomsMin)
    case 5 => IsSetReal(c.bathroomsMin)
    case 6 => IsSet(c.squareFeetMin)
    case 7 => IsNonEmpty(c.amenities)
    case _ => false
  }

  /** The callback the `n`-th block passes to `filter`. */
  function Test(c: Criteria, n: nat): Property -> bool
    requires Active(c, n)
  {
    match n
    case 1 => (p: Property) => p.price >= c.priceMin.value
    case 2 => (p: Property) => p.price <= c.priceMax.value
    case 3 => (p: Property) => p.propertyType in c.propertyTypes.value
    case 4 => (p: Property) => p.bedrooms >= c.bedroomsMin.value
    case 5 => (p: Property) => p.bathrooms >= c.bathroomsMin.value
    case 6 => (p: Property) => p.squareFeet >= c.squareFeetMin.value
    case 7 => (p: Property) => HasSomeAmenity(c.amenities.value, p)
  }

  /** What the `n`-th block demands of one record. */
  predicate Check(c: Criteria, n: nat, p: Property) {
    Active(c, n) ==> Test(c, n)(p)
  }

  predicate PassesFirst(c: Criteria, n: nat, p: Property) {
    n == 0 || (PassesFirst(c, n - 1, p) && Check(c, n, p))
  }

  function Stage(c: Criteria, n: nat): Property -> bool {
    p => PassesFirst(c, n, p)
  }

  /** An active block narrows the list built by the earlier blocks. */
  lemma NarrowStep(properties: seq<Property>, c: Criteria, n: nat)
    requires 1 <= n <= 7 && Active(c, n)
    ensures Filter(Filter(properties, Stage(c, n - 1)), Test(c, n)) == Filter(properties, Stage(c, n))
  {
    FilterFilter(properties, Stage(c, n - 1), Test(c, n), Stage(c, n));
  }

  /** An inactive block changes nothing. */
  lemma SkipStep(properties: seq<Property>, c: Criteria, n: nat)
    requires 1 <= n <= 7 && !Active(c, n)
    ensures Filter(properties, Stage(c, n - 1)) == Filter(properties, Stage(c, n))
  {
    var always := (p: Property) => true;
    FilterFilter(properties, Stage(c, n - 1), always, Stage(c, n));
    FilterAll(Filter(properties, Stage(c, n - 1)), always);
  }

  /** After all seven steps the list is exactly the matching records. */
  lemma AllStagesAreSelect(properties: seq<Property>, c: Criteria)
    ensures Filter(properties, Stage(c, 7)) == Select(properties, c)
  {
    forall p ensures PassesFirst(c, 7, p) == Matches(c, p) {
      assert PassesFirst(c, 1, p) == Check(c, 1, p);
      assert PassesFirst(c, 2, p) == (PassesFirst(c, 1, p) && Check(c, 2, p));
      assert PassesFirst(c, 3, p) == (PassesFirst(c, 2, p) && Check(c, 3, p));
      assert PassesFirst(c, 4, p) == (PassesFirst(c, 3, p) && Check(c, 4, p));
      assert PassesFirst(c, 5, p) == (PassesFirst(c, 4, p) && Check(c, 5, p));
      assert PassesFirst(c, 6, p) == (PassesFirst(c, 5, p) && Check(c, 6, p));
      assert PassesFirst(c, 7, p) == (PassesFirst(c, 6, p) && Check(c, 7, p));
    }
    var always := (p: Property) => true;
    FilterFilter(properties, Stage(c, 7), always, p => Matches(c, p));
    FilterAll(Filter(properties, Stage(c, 7)), always);
  }

  // ----- sorting -----

  datatype SortKey = PriceLow | PriceHigh | Newest | Oldest | SizeLarge | SizeSmall

  /** The `switch (filters.sortBy)`: `None` for an absent, empty or unknown key. */
  function SortKeyOf(sortBy: Option<string>): Option<SortKey> {
    match sortBy
    case None => None
    case Some(s) =>
      if s == "price-low" then Some(PriceLow)
      else if s == "price-high" then Some(PriceHigh)
      else if s == "newest" then Some(Newest)
      else if s == "oldest" then Some(Oldest)
      else if s == "size-large" then Some(SizeLarge)
      else if s == "size-small" then Some(SizeSmall)
      else None
  }

  /** The comparator of each case, `(a, b) => Rank(a) - Rank(b)`; a descending
      order ranks by the negated field. */
  function Rank(key: SortKey): Property -> int {
    match key
    case PriceLow => (p: Property) => p.price
    case PriceHigh => (p: Property) => -p.price
    case Newest => (p: Property) => -p.listingDate
    case Oldest => (p: Property) => p.listingDate
    case SizeLarge => (p: Property) => -p.squareFeet
    case SizeSmall => (p: Property) => p.squareFeet
  }

  /** The order each sort key promises, in terms of the record fields. */
  predicate Precedes(key: SortKey, a: Property, b: Property) {
    match key
    case PriceLow => a.price <= b.price
    case PriceHigh => a.price >= b.price
    case Newest => a.listingDate >= b.listingDate
    case Oldest => a.listingDate <= b.listingDate
    case SizeLarge => a.squareFeet >= b.squareFeet
    case SizeSmall => a.squareFeet <= b.squareFeet
  }

  ghost predicate InOrder(key: SortKey, s: seq<Property>) {
    forall i, j :: 0 <= i < j < |s| ==> Precedes(key, s[i], s[j])
  }

  lemma RankOrderIsInOrder(key: SortKey, s: seq<Property>)
    requires StableSort.SortedBy(s, Rank(key))
    ensures InOrder(key, s)
  {
    forall i, j | 0 <= i < j < |s| ensures Rank(key)(s[i]) <= Rank(key)(s[j]) {
    }
  }

  // ----- the operations -----

  /** Lines 11-36 of `getAll`: copy the list, then apply each active filter
      in turn. */
  method FilterStage(properties: seq<Property>, filters: Criteria) returns (filtered: seq<Property>)
    ensures filtered == Select(properties, filters)
  {
    var c := filters;
    filtered := properties;
    FilterAll(properties, Stage(c, 0));
    if IsSet(c.priceMin) {
      NarrowStep(properties, c, 1);
      filtered := Filter(filtered, Test(c, 1));
    } else {
      SkipStep(properties, c, 1);
    }
    assert filtered == Filter(properties, Stage(c, 1));
    if IsSet(c.priceMax) {
      NarrowStep(properties, c, 2);
      filtered := Filter(filtered, Test(c, 2));
    } else {
      SkipStep(properties, c, 2);
    }
    assert filtered == Filter(properties, Stage(c, 2));
    if IsNonEmpty(c.propertyTypes) {
      NarrowStep(properties, c, 3);
      filtered := Filter(filtered, Test(c, 3));
    } else {
      SkipStep(properties, c, 3);
    }
    assert filtered == Filter(properties, Stage(c, 3));
    if IsSet(c.bedroomsMin) {
      NarrowStep(properties, c, 4);
      filtered := Filter(filtered, Test(c, 4));
    } else {
      SkipStep(properties, c, 4);
    }
    assert filtered == Filter(properties, Stage(c, 4));
    if IsSetReal(c.bathroomsMin) {
      NarrowStep(properties, c, 5);
      filtered := Filter(filtered, Test(c, 5));
    } else {
      SkipStep(properties, c, 5);
    }
    assert filtered == Filter(properties, Stage(c, 5));
    if IsSet(c.squareFeetMin) {
      NarrowStep(properties, c, 6);
      filtered := Filter(filtered, Test(c, 6));
    } else {
      SkipStep(properties, c, 6);
    }
    assert filtered == Filter(properties, Stage(c, 6));
    if IsNonEmpty(c.amenities) {
      NarrowStep(properties, c, 7);
      filtered := Filter(filtered, Test(c, 7));
    } else {
      SkipStep(properties, c, 7);
    }
    assert filtered == Filter(properties, Stage(c, 7));

    AllStagesAreSelect(properties, c);

  }

  /** `getAll(filters)`: the filter stage, then a stable sort when `sortBy`
      names a known key. */
  method GetAll(properties: seq<Property>, filters: Criteria) returns (result: seq<Property>)
    ensures forall p :: p in result <==> p in properties && Matches(filters, p)
    ensures multiset(result) == multiset(Select(properties, filters))
    ensures SortKeyOf(filters.sortBy).None? ==> result == Select(properties, filters)
    ensures SortKeyOf(filters.sortBy).Some? ==>
      var key := SortKeyOf(filters.sortBy).value;
      && InOrder(key, result)
      && forall k :: StableSort.WithRank(result, Rank(key), k)
                  == StableSort.WithRank(Select(properties, filters), Rank(key), k)
  {
    var c := filters;
    var filtered := FilterStage(properties, c);
    SelectSoundComplete(properties, c);

    var key := SortKeyOf(c.sortBy);
    if key.Some? {
      var selected := filtered;
      filtered := StableSort.Sort(selected, Rank(key.value));
      StableSort.SortPermutes(selected, Rank(key.value));
      StableSort.SortSorted(selected, Rank(key.value));
      RankOrderIsInOrder(key.value, filtered);
      forall k ensures StableSort.WithRank(filtered, Rank(key.value), k)
                    == StableSort.WithRank(selected, Rank(key.value), k) {
        StableSort.SortStable(selected, Rank(key.value), k);
      }
      forall p ensures p in filtered <==> p in selected {
        assert p in filtered <==> p in multiset(filtered);
        assert p in selected <==> p in multiset(selected);
      }
    }
    result := filtered;
  }

  /** Soundness and completeness of the filter stage. */
  lemma SelectSoundComplete(properties: seq<Property>, c: Criteria)
    ensures forall p :: p in Select(properties, c) <==> p in properties && Matches(c, p)
  {
    FilterMembers(properties, p => Matches(c, p));
  }

  /** The filtered list is an order-preserving subsequence of the listings. */
  lemma SelectKeepsOrder(properties: seq<Property>, c: Criteria)
    ensures IsSubsequence(Select(properties, c), properties)
  {
    FilterIsSubsequence(properties, p => Matches(c, p));
  }

  /** A falsy criterion restricts nothing: with every bound absent or zero and
      every list absent or empty, `getAll` keeps every listing. */
  lemma FalsyCriteriaSelectAll(properties: seq<Property>, c: Criteria)
    requires !IsSet(c.priceMin) && !IsSet(c.priceMax) && !IsSet(c.bedroomsMin)
    requires !IsSetReal(c.bathroomsMin) && !IsSet(c.squareFeetMin)
    requires !IsNonEmpty(c.propertyTypes) && !IsNonEmpty(c.amenities)
    ensures Select(properties, c) == properties
  {
    FilterAll(properties, p => Matches(c, p));
  }

  /** The amenities filter is a disjunction: once some amenity is requested,
      asking for one more never drops a record (a conjunction would). */
  lemma AmenitiesAreOr(c: Criteria, extra: string, p: Property)
    requires IsNonEmpty(c.amenities)
    requires Matches(c, p)
    ensures Matches(c.(amenities := Some(c.amenities.value + [extra])), p)
  {
    var wanted := c.amenities.value;
    var a :| a in wanted && a in p.amenities;
    assert a in wanted + [extra];
  }

  /** `search(query)`'s test: the lowercased query occurs in one of five
      lowercased text fields. */
  predicate TextMatches(p: Property, term: string) {
    || Includes(Lower(p.title), term)
    || Includes(Lower(p.address.street), term)
    || Includes(Lower(p.address.city), term)
    || Includes(Lower(p.address.state), term)
    || Includes(Lower(p.description), term)
  }

  function SearchTest(term: string): Property -> bool {
    p => TextMatches(p, term)
  }

  /** `search(query)`: nothing for an absent or empty query, otherwise every
      listing whose text fields contain the query, ignoring case. */
  function Search(properties: seq<Property>, query: Option<string>): seq<Property> {
    if query.None? || query.value == "" then []
    else Filter(properties, SearchTest(Lower(query.value)))
  }

  lemma SearchSpec(properties: seq<Property>, query: Option<string>)
    ensures query.None? || query.value == "" ==> Search(properties, query) == []
    ensures forall p :: p in Search(properties, query) <==>
      query.Some? && query.value != "" && p in properties && TextMatches(p, Lower(query.value))
    ensures IsSubsequence(Search(properties, query), properties)
  {
    if query.Some? && query.value != "" {
      var test := SearchTest(Lower(query.value));
      FilterIsSubsequence(properties, test);
      FilterMembers(properties, test);
    }
  }

  /** Search ignores the case of the query. */
  lemma SearchIgnoresCase(properties: seq<Property>, q: string)
    requires q != ""
    ensures Search(properties, Some(q)) == Search(properties, Some(Lower(q)))
  {
    LowerIdempotent(q);
  }

  /** `getById(id)`: the first listing whose id equals `parseInt(id, 10)`,
      or "Property not found". */
  function GetById(properties: seq<Property>, id: JsValue): (r: Result<Property>)
    ensures r.Failure? <==> forall i :: 0 <= i < |properties| ==> ParseInt(ToString(id)) != Some(properties[i].id)
    ensures r.Failure? ==> r.error == "Property not found"
    ensures r.Success? ==> ParseInt(ToString(id)) == Some(r.value.id)
    ensures r.Success? ==> exists i :: 0 <= i < |properties| && properties[i] == r.value
                                   && forall j :: 0 <= j < i ==> properties[j].id != r.value.id
  {
    var key := ParseInt(ToString(id));
    match FindFirst(properties, (p: Property) => key == Some(p.id))
    case None => Failure("Property not found")
    case Some(i) => Success(properties[i])
  }

  /** A listing is found by its numeric id and by the decimal text of that id. */
  lemma GetByIdFindsListing(properties: seq<Property>, i: nat)
    requires i < |properties|
    ensures GetById(properties, Num(properties[i].id)).Success?
    ensures GetById(properties, Num(properties[i].id)).value.id == properties[i].id
    ensures GetById(properties, Str(IntToString(properties[i].id))) == GetById(properties, Num(properties[i].id))
  {
    ParseIntOfNumber(properties[i].id);
  }
}
