# Real-estate browser: verified model of its query, store and form logic

This project is a Dafny model of the logic inside a React real-estate browser.
Everything else in that app is rendering. The model covers five parts:

- **Property query engine** (`src/services/api/propertyService.js`, module `PropertyService`).
  - `getAll` copies the listings, applies up to seven filters in turn, then optionally sorts by one of six keys.
  - `search` is a case-insensitive substring search over five text fields.
  - `getById` looks a listing up by `parseInt(id, 10)`.
- **Saved-property store** (`src/services/api/savedPropertyService.js`, module `SavedPropertyService`).
  - It is a class over a sequence of records, with `getAll`, `getById`, `create`, `update`, `delete` and `isPropertySaved`.
  - The model shows that these operations keep ids unique; `create` does so only when its input has no `Id`.
- **Contact form** (`src/components/molecules/ContactForm.jsx`, module `ContactForm`).
  - The e-mail check is proved equal to its regular expression.
  - The per-field error map is a function.
  - The input and submit handlers are methods on a state class.
- **Image gallery** (`src/components/molecules/ImageGallery.jsx`, module `ImageGallery`).
  - A state class holds the selected index and the fullscreen flag.
  - The model uses wrap-around next/previous and JavaScript's truncating `%`.
- **Filter panel** (`src/components/molecules/FilterPanel.jsx`, module `FilterPanel`).
  - Single-key criteria updates.
  - Checkbox membership toggles.
  - Collapsible sections.
  - Conversion of text inputs to numeric criteria.

Supporting modules model the JavaScript built-ins these files rely on:
- `Wrappers` holds `Option` and `Result`.
- `JsText` covers white space and `trim`, ASCII `toLowerCase`, `includes`, `parseInt`, `parseFloat`, `toString`, the UTF-16 `length` (`Utf16Length`), and a truncating `%`.
- `JsArray` covers `filter`, `find`/`findIndex`, and the subsequence relation.
- `StableSort` models `Array.prototype.sort`, which ECMAScript requires to be stable.

### Modelling choices

- JavaScript "falsy" criteria:
  - A numeric bound is active when it is present and non-zero. `None` stands for an absent key, for `null` and for `NaN`.
  - A list criterion is active when it is present and non-empty.
- An id handed to `parseInt`/`toString` is a `JsValue`: either a number or a string.
- Sorting with comparators:
  - Each `(a, b) => a.f - b.f` comparator becomes an integer rank.
  - A descending key ranks by the negated field.
  - `Sort` is a stable insertion sort. `StableSort.StableSortUnique` proves that any stable sort gives the same result, so the choice of algorithm cannot be observed.
- `listingDate` is an integer timestamp. `bathrooms` is a `real`.
- `propertyService.js` never reassigns its listing array, so the listings are a parameter of every operation there, not a field.
- The saved store is a class whose `records` field is reassigned by `Create`, `Update` and `Delete`. Its initial contents are a constructor parameter.
- A new saved id is one more than the largest id still in the store, so ids are not monotonic across deletes. For example, when the store holds ids 1..n, deleting the record with id n makes the next `create` hand out n again (`DeletingLargestIdReusesIt`). In general the next id equals the deleted one only in two cases: the largest remaining id is one less than it, or the deleted record was the only one and its id was 1 (an empty store hands out 1).
- In `create`, the input object is spread after `Id: newId`. An input that carries its own `Id` therefore keeps it. `Create` proves id uniqueness only for inputs without an `Id`.

## Model

| member | source | states |
|---|---|---|
| JsText.Trim | src/components/molecules/ContactForm.jsx:27 | definition of `trim()`: drop ECMAScript white space and line terminators at both ends; its properties are the three Trim lemmas below |
| JsText.TrimEmptyIffBlank | src/components/molecules/ContactForm.jsx:27-45 | `trim()` is empty exactly when every character is white space |
| JsText.TrimHasNoBorderSpace | src/components/molecules/ContactForm.jsx:27-45 | a non-empty trimmed string starts and ends with a non-space character |
| JsText.TrimNoBorderSpace | src/components/molecules/ContactForm.jsx:34-38 | a string with no white space at either end is its own `trim()` |
| JsText.Utf16Length | src/components/molecules/ContactForm.jsx:29 | `length` counts UTF-16 code units: at least one and at most two per character, and zero only for the empty string |
| JsText.Utf16LengthInBmp | src/components/molecules/ContactForm.jsx:43 | on text within the Basic Multilingual Plane, `length` is the number of characters |
| JsText.Lower | src/services/api/propertyService.js:80-86 | `toLowerCase` keeps the length and lowercases each character |
| JsText.LowerIdempotent | src/services/api/propertyService.js:80 | lowercasing twice is lowercasing once |
| JsText.Includes | src/services/api/propertyService.js:82-86 | `hay.includes(needle)` holds iff the needle occurs at some position |
| JsText.ParseInt | src/services/api/propertyService.js:69 | `parseInt(s, 10)` is `NaN` (None) exactly when no digit follows the optional white space and sign |
| JsText.Rem | src/components/molecules/ImageGallery.jsx:10-14 | JavaScript `%` agrees with the Euclidean remainder for non-negative operands and takes the dividend's sign otherwise |
| JsText.NatToString | src/services/api/savedPropertyService.js:59 | a number's decimal text is non-empty, all digits, and denotes that number |
| JsText.ParseIntToString | src/services/api/propertyService.js:69 | `parseInt` reads back every integer's `toString` |
| JsText.ParseIntOfNumber | src/services/api/savedPropertyService.js:15 | an id given as a number or as its decimal text parses to that number |
| JsText.ToString | src/services/api/savedPropertyService.js:59 | definition of `toString()` on an id: a number's decimal text, a string unchanged; the conversion `parseInt` applies first; read back by ParseIntToString and ParseIntOfNumber |
| JsText.ParseFloat | src/components/molecules/FilterPanel.jsx:180 | definition of `parseFloat` on decimal text: white space, sign, digits and an optional fraction; read back by ParseFloatWhole and ParseFloatHalf |
| JsText.IntToString | src/services/api/savedPropertyService.js:59 | definition of `toString` on an integer: a minus sign for negatives, then the decimal digits; inverted by ParseIntToString |
| JsText.ParseFloatWhole | src/components/molecules/FilterPanel.jsx:180 | `parseFloat` reads back a whole number's text |
| JsText.ParseFloatHalf | src/components/molecules/FilterPanel.jsx:180 | `parseFloat("n.5")` is n + 0.5 |
| JsArray.Filter | src/services/api/propertyService.js:15 | definition of `filter`: the passing elements, in order; see FilterMembers and FilterIsSubsequence |
| JsArray.FilterMembers | src/services/api/propertyService.js:15 | `filter` keeps exactly the elements that pass the test |
| JsArray.FindFirst | src/services/api/propertyService.js:69 | `find`/`findIndex` return nothing iff no element passes, else the first one that passes |
| JsArray.FilterIsSubsequence | src/services/api/propertyService.js:81-87 | `filter` keeps the original order |
| JsArray.FilterFilter | src/services/api/propertyService.js:14-36 | two filters in a row are one filter by the conjunction |
| JsArray.FilterAll | src/services/api/propertyService.js:14-36 | a filter every element passes changes nothing |
| JsArray.FilterDropsAppended | src/components/molecules/FilterPanel.jsx:39-41 | filtering out an appended rejected element gives the list back |
| StableSort.Sort | src/services/api/propertyService.js:40-58 | definition of the stable sort by a rank (insertion from the end); its properties are the four lemmas below |
| StableSort.SortPermutes | src/services/api/propertyService.js:40-58 | the sort is a permutation |
| StableSort.SortSorted | src/services/api/propertyService.js:40-58 | the sort is nondecreasing by the comparator's rank |
| StableSort.SortStable | src/services/api/propertyService.js:40-58 | elements with equal keys keep their relative order |
| StableSort.StableSortUnique | src/services/api/propertyService.js:40-58 | two sorted sequences that agree on each rank's elements in order are equal |
| StableSort.SortIsTheStableSort | src/services/api/propertyService.js:40-58 | any sorted sequence with each rank's elements in input order is exactly `Sort`'s result |
| PropertyService.Matches | src/services/api/propertyService.js:14-36 | reference definition of the filters: every active criterion (truthy bound, non-empty list) holds, amenities as an OR |
| PropertyService.Select | src/services/api/propertyService.js:14-36 | the listings that match, in their original order |
| PropertyService.Test | src/services/api/propertyService.js:14-36 | the callback each of the seven `if` blocks passes to `filter` |
| PropertyService.SortKeyOf | src/services/api/propertyService.js:39-61 | the `switch`: the six known `sortBy` strings, and none for an absent, empty or unknown one |
| PropertyService.Rank | src/services/api/propertyService.js:40-58 | each case's comparator as a rank, negated for the descending keys; turned into field order by RankOrderIsInOrder |
| PropertyService.NarrowStep | src/services/api/propertyService.js:14-36 | an active `if` block narrows the list to the records passing the first n criteria |
| PropertyService.SkipStep | src/services/api/propertyService.js:14-36 | a falsy criterion's `if` block leaves the list as it was |
| PropertyService.AllStagesAreSelect | src/services/api/propertyService.js:14-36 | the seven steps together select exactly the records matching every active criterion |
| PropertyService.RankOrderIsInOrder | src/services/api/propertyService.js:40-58 | ascending by rank is the promised order: price up/down, date newest/oldest, size large/small |
| PropertyService.FilterStage | src/services/api/propertyService.js:11-36 | the copy-and-filter steps yield exactly the matching records in their original order |
| PropertyService.GetAll | src/services/api/propertyService.js:8-64 | a record is returned iff it matches every active criterion; the result is a permutation of the matches; with no known `sortBy` it is the matches in order; with one it is in that key's order and stable |
| PropertyService.SelectSoundComplete | src/services/api/propertyService.js:14-36 | soundness and completeness of the filters |
| PropertyService.SelectKeepsOrder | src/services/api/propertyService.js:11-36 | the filtered list is an order-preserving subsequence of the listings |
| PropertyService.FalsyCriteriaSelectAll | src/services/api/propertyService.js:14-36 | with every criterion falsy (absent, null, 0, empty list) every listing is kept |
| PropertyService.AmenitiesAreOr | src/services/api/propertyService.js:32-36 | amenities are OR-ed: asking for one more amenity never drops a record |
| PropertyService.Search | src/services/api/propertyService.js:76-88 | definition of `search`: empty for a falsy query, otherwise the listings whose five lowercased text fields include the lowercased query; see SearchSpec |
| PropertyService.SearchSpec | src/services/api/propertyService.js:76-88 | a falsy query gives `[]`; otherwise a listing is returned iff one of its five lowercased fields contains the lowercased query; order is kept |
| PropertyService.SearchIgnoresCase | src/services/api/propertyService.js:80 | `search(q)` equals `search(q.toLowerCase())` for a non-empty q |
| PropertyService.GetById | src/services/api/propertyService.js:67-74 | "Property not found" iff no listing has id `parseInt(id, 10)`; otherwise that listing, the first with the id |
| PropertyService.GetByIdFindsListing | src/services/api/propertyService.js:69 | every listing is found by its numeric id, and its decimal text finds the same one |
| SavedPropertyService.MaxId | src/services/api/savedPropertyService.js:24 | `Math.max` of the ids is an upper bound that some record attains |
| SavedPropertyService.NextId | src/services/api/savedPropertyService.js:24 | the next id exceeds every existing id |
| SavedPropertyService.NewRecord | src/services/api/savedPropertyService.js:25-29 | the new record takes the input's keys, its own `Id` only if the input has none, and `savedDate` always the current time |
| SavedPropertyService.Merge | src/services/api/savedPropertyService.js:41-42 | definition of `{ ...record, ...updateData }` with `Id` removed from the update; see MergeSpec |
| SavedPropertyService.MergeSpec | src/services/api/savedPropertyService.js:41-42 | an update keeps the id, takes every given key from `data` and keeps the others; merging twice is merging once |
| SavedPropertyService.IndexOf | src/services/api/savedPropertyService.js:36 | `findIndex` finds the first record whose id is `parseInt(id, 10)`, or none iff there is none |
| SavedPropertyService.HasPropertyId | src/services/api/savedPropertyService.js:59 | `some` holds iff a record carries the property id |
| SavedPropertyService.RemoveKeepsUniqueIds | src/services/api/savedPropertyService.js:53 | `splice(index, 1)` shortens by one and keeps ids distinct |
| SavedPropertyService.IndexOfUnique | src/services/api/savedPropertyService.js:36 | with unique ids, a record's id finds that record |
| SavedPropertyService.SavedPropertyStore.constructor | src/services/api/savedPropertyService.js:5 | the store starts with the given records |
| SavedPropertyService.SavedPropertyStore.GetAll | src/services/api/savedPropertyService.js:8-11 | returns the records in insertion order and changes nothing |
| SavedPropertyService.SavedPropertyStore.GetById | src/services/api/savedPropertyService.js:13-20 | "Saved property not found" iff no record has the parsed id; otherwise the first stored record with that id (ids may repeat after a `create` whose input has an `Id`) |
| SavedPropertyService.SavedPropertyStore.Create | src/services/api/savedPropertyService.js:22-32 | appends exactly one record, with the next id unless the input carries its own `Id`, earlier records unchanged; without an input `Id` the new id exceeds all others and uniqueness is kept |
| SavedPropertyService.SavedPropertyStore.Update | src/services/api/savedPropertyService.js:34-44 | not found leaves the store unchanged; otherwise only the matching record changes, in place, merged with `data` minus `Id`; ids are kept |
| SavedPropertyService.SavedPropertyStore.Delete | src/services/api/savedPropertyService.js:46-55 | not found leaves the store unchanged; otherwise exactly the matching record is removed, the rest keep their order, and the result is `true` |
| SavedPropertyService.SavedPropertyStore.IsPropertySaved | src/services/api/savedPropertyService.js:57-60 | holds iff some record's `propertyId` equals `propertyId.toString()` |
| SavedPropertyService.SavedAfterCreate | src/services/api/savedPropertyService.js:22-60 | right after creating a record for p, `isPropertySaved(p)` holds |
| SavedPropertyService.UnsavedAfterDelete | src/services/api/savedPropertyService.js:53-59 | deleting the only record for a property makes it unsaved |
| SavedPropertyService.DeletingLargestIdReusesIt | src/services/api/savedPropertyService.js:24 | with ids 1..n, deleting the last record makes the next `create` reuse n |
| SavedPropertyService.NextIdOfEmptyStore | src/services/api/savedPropertyService.js:24 | an emptied store hands out id 1 again |
| SavedPropertyService.CreateDeleteScenario | src/services/api/savedPropertyService.js:22-59 | on an empty store, three creates give ids 1, 2, 3; deleting id 2 succeeds; the next create gives 4, and `isPropertySaved` then sees its property |
| ContactForm.WithField | src/components/molecules/ContactForm.jsx:52 | `{...prev, [field]: value}` sets that field and keeps the others |
| ContactForm.ValidateEmail | src/components/molecules/ContactForm.jsx:18-21 | the e-mail test as a decision procedure: the first `@`, a plain non-empty local part, a plain domain with an inner `.`; equal to the pattern by ValidateEmailIsPattern |
| ContactForm.EmailPattern | src/components/molecules/ContactForm.jsx:19 | the language of `/^[^\s@]+@[^\s@]+\.[^\s@]+$/`: local `@` domain `.` tld, each part non-empty and free of white space and `@`; the reference for ValidateEmailIsPattern |
| ContactForm.ValidateEmailIsPattern | src/components/molecules/ContactForm.jsx:18-21 | `validateEmail` holds iff the string is local `@` domain `.` tld, with each part non-empty and free of white space and `@` |
| ContactForm.ValidEmailHasNoBorderSpace | src/components/molecules/ContactForm.jsx:34-38 | an accepted e-mail has no white space at either end and is its own trim |
| ContactForm.NameError | src/components/molecules/ContactForm.jsx:27-31 | the name check and its two messages |
| ContactForm.EmailError | src/components/molecules/ContactForm.jsx:34-38 | the e-mail check and its two messages |
| ContactForm.MessageError | src/components/molecules/ContactForm.jsx:41-45 | the message check and its two messages |
| ContactForm.ValidateForm | src/components/molecules/ContactForm.jsx:23-49 | `newErrors`: the three checks recorded in turn; characterized by ValidateFormSpec |
| ContactForm.ValidateFormSpec | src/components/molecules/ContactForm.jsx:23-49 | each field's error, and its exact message, in terms of the trimmed `length` in UTF-16 units (name < 2, message < 10) and the e-mail pattern |
| ContactForm.IsValid | src/components/molecules/ContactForm.jsx:48 | `Object.keys(newErrors).length === 0`: no field has an error; characterized by IsValidIff |
| ContactForm.IsValidIff | src/components/molecules/ContactForm.jsx:48 | the form is valid iff the trimmed name has a `length` of 2+, the e-mail matches and the trimmed message has a `length` of 10+ |
| ContactForm.AstralNameIsLongEnough | src/components/molecules/ContactForm.jsx:29 | a name of one character above U+FFFF has `length` 2 and passes the length check |
| ContactForm.PaddedEmailRejected | src/components/molecules/ContactForm.jsx:34-38 | white space at either end of the e-mail is an error, because the pattern sees the untrimmed text |
| ContactForm.ContactFormState.constructor | src/components/molecules/ContactForm.jsx:10-16 | the form starts empty, with no errors and not submitting |
| ContactForm.ContactFormState.HandleInputChange | src/components/molecules/ContactForm.jsx:51-58 | only the edited field changes; its error is blanked if it had one, and the other errors stay |
| ContactForm.ContactFormState.HandleSubmit | src/components/molecules/ContactForm.jsx:60-83 | errors become the validation result; the form is sent iff it is valid; an invalid form is left as it was; a sent form is reset to three empty strings |
| ImageGallery.Next | src/components/molecules/ImageGallery.jsx:9-11 | the next index stays in [0, n) and wraps from the last to the first |
| ImageGallery.Prev | src/components/molecules/ImageGallery.jsx:13-15 | the previous index stays in [0, n) and wraps from the first to the last |
| ImageGallery.PrevUndoesNext | src/components/molecules/ImageGallery.jsx:9-15 | previous after next, and next after previous, restore the index |
| ImageGallery.NextTimesIsShift | src/components/molecules/ImageGallery.jsx:10 | k <= n presses of next move k places, wrapping once |
| ImageGallery.NextCycles | src/components/molecules/ImageGallery.jsx:10 | n presses of next return to the start |
| ImageGallery.HiddenArrowsAreIdle | src/components/molecules/ImageGallery.jsx:41 | whenever the arrows are hidden (`images.length > 1` fails on a non-empty gallery), next and previous could not move the index anyway |
| ImageGallery.GalleryState.constructor | src/components/molecules/ImageGallery.jsx:6-7 | the gallery starts at index 0 with fullscreen off |
| ImageGallery.GalleryState.NextImage | src/components/molecules/ImageGallery.jsx:9-11 | the index advances with wrap-around and stays valid; fullscreen is unchanged |
| ImageGallery.GalleryState.PrevImage | src/components/molecules/ImageGallery.jsx:13-15 | the index steps back with wrap-around and stays valid; fullscreen is unchanged |
| ImageGallery.GalleryState.SelectThumbnail | src/components/molecules/ImageGallery.jsx:75-77 | clicking thumbnail k selects k, and exactly that thumbnail is highlighted |
| ImageGallery.GalleryState.OpenFullscreen | src/components/molecules/ImageGallery.jsx:17-19 | sets the flag and leaves the index alone |
| ImageGallery.GalleryState.CloseFullscreen | src/components/molecules/ImageGallery.jsx:21-23 | clears the flag and leaves the index alone |
| ImageGallery.GalleryState.IsHighlighted | src/components/molecules/ImageGallery.jsx:77 | `selectedImage === index`, the thumbnail's highlight; see SelectThumbnail |
| ImageGallery.GalleryState.ShowsNavigation | src/components/molecules/ImageGallery.jsx:41 | `images.length > 1`, which guards the arrows and the thumbnails; see HiddenArrowsAreIdle |
| ImageGallery.GalleryState.Counter | src/components/molecules/ImageGallery.jsx:60 | the counter's number is in 1..n |
| FilterPanel.Get | src/components/molecules/FilterPanel.jsx:30-35 | reading a key gives a value of that key |
| FilterPanel.GetDeterminesCriteria | src/components/molecules/FilterPanel.jsx:30-35 | criteria that agree on every key are equal |
| FilterPanel.HandleFilterChange | src/components/molecules/FilterPanel.jsx:30-35 | the emitted criteria hold the new value under the key and the old value under every other key |
| FilterPanel.CurrentList | src/components/molecules/FilterPanel.jsx:38-47 | the list `filters.propertyTypes` (or `filters.amenities`), with `[]` in its place when it is absent |
| FilterPanel.IsChecked | src/components/molecules/FilterPanel.jsx:142 | a checkbox's `checked` attribute: the value is in the current list; flipped by the two toggle handlers |
| FilterPanel.Toggle | src/components/molecules/FilterPanel.jsx:39-41 | definition of the toggle: filter x out when present, otherwise append it; see ToggleFlips, ToggleShape and ToggleTwiceRestores |
| FilterPanel.ToggleFlips | src/components/molecules/FilterPanel.jsx:39-41 | a toggle flips x's membership and leaves every other element's membership unchanged |
| FilterPanel.ToggleShape | src/components/molecules/FilterPanel.jsx:39-41 | unchecking removes every copy of x and keeps every other element, as often as it occurred and in order; checking appends x |
| FilterPanel.FilterOtherCounts | src/components/molecules/FilterPanel.jsx:40 | `filter(t => t !== x)` keeps each other element exactly as often as it occurred and drops every x |
| FilterPanel.ToggleTwiceRestores | src/components/molecules/FilterPanel.jsx:39-41 | toggling an absent x twice gives the original list |
| FilterPanel.HandlePropertyTypeToggle | src/components/molecules/FilterPanel.jsx:37-44 | the new type list is `Toggle` of the current one; the type's checkbox flips, the other types' checkboxes and all other keys are unchanged; an absent list counts as `[]` |
| FilterPanel.HandleAmenityToggle | src/components/molecules/FilterPanel.jsx:46-53 | the new amenity list is `Toggle` of the current one; the amenity's checkbox flips, the other amenities and all other keys are unchanged; an absent list counts as `[]` |
| FilterPanel.UncheckingLastTypeClearsCriterion | src/components/molecules/FilterPanel.jsx:37-44 | unchecking the only checked type filters exactly as if no type were chosen |
| FilterPanel.NumericInput | src/components/molecules/FilterPanel.jsx:113 | `e.target.value ? parseInt(e.target.value) : null`, with `NaN` as none |
| FilterPanel.DecimalInput | src/components/molecules/FilterPanel.jsx:180 | `e.target.value ? parseFloat(e.target.value) : null` |
| FilterPanel.ShownNumber | src/components/molecules/FilterPanel.jsx:112 | the `value` an input shows for a bound: its decimal text when the bound is truthy, otherwise the empty string |
| FilterPanel.NumericInputRoundTrip | src/components/molecules/FilterPanel.jsx:112-113 | reading back what a numeric input shows keeps an active bound, and an inactive one stays inactive |
| FilterPanel.BedroomChoiceReadBack | src/components/molecules/FilterPanel.jsx:165-170 | each bedroom option's value is parsed back to its number |
| FilterPanel.BathroomChoiceReadBack | src/components/molecules/FilterPanel.jsx:180-184 | each bathroom option's value, whole or half, is parsed back to its number |
| FilterPanel.InitialSections | src/components/molecules/FilterPanel.jsx:9-15 | price, type and beds/baths start open; size and amenities start closed |
| FilterPanel.ToggleSection | src/components/molecules/FilterPanel.jsx:23-28 | only the clicked section flips |
| FilterPanel.ToggleSectionTwice | src/components/molecules/FilterPanel.jsx:23-28 | two clicks restore the panel |

## Left out

- The artificial latency is not modelled. This covers `delay`, `setTimeout` and `async`/`await` in both services, and the one-second wait in `handleSubmit`. Every operation is synchronous.
- The mock JSON fixtures are not part of this model. The listings are a parameter, and the saved store takes its initial records in its constructor.
- The batch delete through `Promise.all` on the saved-properties page is left out. Its point is concurrency, and each of its steps is the modelled `Delete`.
- Rendering is left out: JSX, animation, toasts, `window.confirm`, routing and styling. `ContactFormState.HandleSubmit` returns whether the inquiry is sent, in place of the toast and the `onClose` call.
- The `isSubmitting` flag's `true` interval during the wait is not observable in a synchronous model. `HandleSubmit` states only its final value.
- `ContactForm.ContactFormState.HandleSubmit`: the `catch` branch is left out. The model assumes that `toast.success` and `onClose()` in the `try` block do not throw.
- `toLowerCase` and `trim`:
  - `toLowerCase` lowercases ASCII letters only, with no Unicode case mapping.
  - `trim` uses the ECMAScript white-space and line-terminator set, written out.
- `parseInt` and `parseFloat` cover decimal text only, after white space and an optional sign.
  - Hexadecimal prefixes, exponents and `Infinity` are not modelled.
  - `NaN` is `None`, and everywhere the core uses it `NaN` is falsy like `null`.
- Numbers are unbounded integers, and `bathrooms` is a `real`. Floating-point rounding is not modelled.
- `new Date(listingDate)` is not modelled: `listingDate` is already an integer timestamp.
- Records have a fixed set of fields. Extra keys in a saved record or in an update's `data`, and keys explicitly set to `undefined`, are not modelled. An absent key is `None`.
- `PropertyService.GetAll`: the in-place `sort` of the fresh local copy is modelled on values. Records are values too, so sharing between the store and callers is not modelled. `propertyService.getAll` and `search` hand out the stored listing objects themselves, and so does `savedPropertyService.getAll`, whose `[...savedProperties]` copies only the array. `propertyService.getById` returns a shallow copy whose `address`, `amenities` and `images` are still shared with the store.
- `PropertyService.GetAll`: the engine's own sorting algorithm is not modelled. `StableSort.StableSortUnique` makes the result independent of it.
- `ImageGallery.GalleryState.NextImage` and `PrevImage` require at least one image. With none, JavaScript computes `NaN`, and the arrows are not rendered.
- `ImageGallery.GalleryState.Counter`: the "1 / 0" an empty gallery would display is outside its contract.
- `SavedPropertyService.DeletingLargestIdReusesIt` is stated for stores holding ids 1..n in order. Deleting the largest id does not always lead to its reuse: with ids 1 and 5, deleting 5 makes the next id 2.
- The save-toggle handlers of the cards and pages, the map's city grouping, and the class-string components only call or render the modelled services. They are not part of this model.
