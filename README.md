# Vehicle search by ZIP code — a Dafny model

This project models the logic of a small vehicle-search front end. A user types a
US ZIP code, the controller validates it and looks it up in a static inventory, and
the resulting list is filtered (make, color, price bucket) and sorted (price high to
low, price low to high, newest year first). There are four modules:

- `VehicleTypes` (`types.dfy`): the records `Vehicle`, `VehicleFilters` (four string
  criteria, `""` meaning "no constraint"), `FilterUpdate` (the keys a caller supplies,
  as `Option`s) and `SortOption`.
- `Constants` (`constants.dfy`): the three user-facing error messages.
- `Validation` (`validation.dfy`): `isValidZipCode`, i.e. ECMAScript `trim` followed
  by the pattern `^\d{5}(-\d{4})?$`. It also models the digit grouping that
  `formatMileage` and `formatCurrency` produce for natural numbers.
- `Inventory` (`vehicles.dfy`): the constant ZIP-to-vehicles table and the
  exact-key lookup. `getAllMakes`/`getAllColors` are imperative: nested loops over
  the table in `Object.values` order fill an insertion-ordered set, which is then
  sorted by UTF-16 code units.
- `VehicleSearch` (`search.dfy`): the controller.
  - `SearchController` is a class whose fields are the hook's `SearchState`.
    Its methods are the state-changing operations, and a search is split into
    `BeginSearch` and `ResolveSearch`.
  - `FilteredAndSortedVehicles` is the pure derived list: three filter passes,
    then a stable sort with the hook's own comparator.
  - `DerivedVehicles` is what the hook hands out as `filteredVehicles`
    (src/hooks/useVehicleSearch.ts:158). It is always recomputed from `vehicles`,
    `filters` and `sortBy`, never from the stored `filteredVehicles` field. That
    stored field always equals `vehicles`, which `SearchController.Valid` keeps
    as an invariant.

Behaviour carried over from the code as written:

- The filters are single strings compared with exact equality.
- `bodyType` is tested for being set but filters nothing.
- A `priceRange` that names none of the three buckets keeps every vehicle.
- Validation trims, but the lookup uses the input as typed, so `" 10001 "` passes
  validation and then ends in the no-vehicles error.
- Only the no-vehicles and success outcomes store the input as `zipCode`.
- The declared `VehicleFilters` interface lists only `make` and `color`, while the
  hook stores and reads four keys, so the model has four.
- `Array.prototype.sort` is stable, and a stable sort's result is determined by its
  comparator. The model therefore uses an insertion sort driven by the same
  comparator, and proves it sorted, a permutation and stable.
- The inventory keys are integer-like, so `Object.values` visits them in ascending
  numeric order. The model scans in that order (`Inventory.KeyOrder`).

## Model

| member | source | states |
|---|---|---|
| Validation.TrimStartSpec | src/utils/validation.ts:7 | dropping leading whitespace leaves a suffix of the input, removes only whitespace, and leaves no whitespace at the front |
| Validation.TrimEndSpec | src/utils/validation.ts:7 | dropping trailing whitespace leaves a prefix of the input, removes only whitespace, and leaves no whitespace at the end |
| Validation.TrimIsMiddle | src/utils/validation.ts:7 | `trim` returns a middle slice of the input with only whitespace outside it, and neither end of that slice is whitespace |
| Validation.TrimPadded | src/utils/validation.ts:7 | `trim` of whitespace + unpadded text + whitespace is exactly that text |
| Validation.TrimEmptyIffBlank | src/utils/validation.ts:7 | `trim` gives "" exactly when every character is ECMAScript whitespace |
| Validation.TrimIgnoresPadding | src/utils/validation.ts:7 | surrounding any string with whitespace does not change its trimmed form |
| Validation.ValidZipIffPaddedPattern | src/utils/validation.ts:5-8 | a string is accepted exactly when it is whitespace, then five ASCII digits optionally followed by `-` and four digits, then whitespace |
| Validation.PatternIsUnpadded | src/utils/validation.ts:6 | a string matching the pattern has no whitespace at either end |
| Validation.SurroundingWhitespaceIgnored | src/utils/validation.ts:7 | padding with whitespace never changes the verdict |
| Validation.AcceptedLength | src/utils/validation.ts:6-7 | an accepted input trims to length 5 or 10 and is not blank, so blank inputs and other lengths are rejected |
| Validation.AnyFiveDigitsAccepted | src/utils/validation.ts:6 | any five ASCII digits are accepted, padded or not; there is no numeric range check |
| Validation.AnyPlusFourAccepted | src/utils/validation.ts:6 | any five digits, a hyphen and four digits are accepted, padded or not |
| Validation.AcceptedFiveDigitExamples | src/utils/validation.ts:5-8 | "12345", "90210" and "00001" are accepted |
| Validation.AcceptedPlusFourExamples | src/utils/validation.ts:5-8 | ZIP+4 inputs such as "12345-6789" are accepted |
| Validation.AcceptedPaddedExamples | src/utils/validation.ts:7 | " 12345 " and "  12345-6789  " are accepted |
| Validation.RejectedExamples | src/utils/validation.ts:6-7 | "123", "123456", "abcde", "12345-67890", "12345-abc", "" and "12-345" are rejected |
| Validation.DecimalDigitsSpec | src/utils/validation.ts:25-27 | the decimal rendering of n is non-empty, all digits, has no leading zero when longer than one digit, and reads back as n |
| Validation.GroupThousandsLayout | src/utils/validation.ts:25-27 | grouping inserts (len-1)/3 commas, exactly at every fourth position counted from the right, and every other character is a digit |
| Validation.GroupThousandsRoundTrip | src/utils/validation.ts:25-27 | removing the commas from a grouped digit string gives back the digits |
| Validation.FormatMileageSpec | src/utils/validation.ts:25-27 | `formatMileage(n)` has the grouped layout and, without commas, is the decimal rendering of n |
| Validation.FormatCurrencySpec | src/utils/validation.ts:13-20 | `formatCurrency(n)` is "$" followed by `formatMileage(n)` and reads back as n |
| Validation.FormatMileageExamples | src/utils/validation.ts:25-27 | 15000, 1000, 999 and 0 render as "15,000", "1,000", "999" and "0" |
| Validation.FormatMileageMillion | src/utils/validation.ts:25-27 | 1000000 renders as "1,000,000" |
| Validation.FormatCurrencyExamples | src/utils/validation.ts:13-20 | 45000, 1000, 999 and 0 render as "$45,000", "$1,000", "$999" and "$0" |
| Validation.FormatCurrencyMillion | src/utils/validation.ts:13-20 | 1000000 renders as "$1,000,000" |
| Inventory.KeyOrderCoversTable | src/data/vehicles.ts:198 | the scan order lists every key of the table exactly once and nothing else |
| Inventory.TableKeysAreValidZips | src/data/vehicles.ts:4-193 | every key is a valid five-digit ZIP code mapped to a non-empty list |
| Inventory.LookupSpec | src/hooks/useVehicleSearch.ts:60 | the exact-key lookup finds vehicles exactly for the keys of the table, returning that key's list, and every such key passes validation |
| Inventory.LookupExamples | src/hooks/useVehicleSearch.ts:60 | "10001" finds five vehicles; "99999" and the padded " 10001 " find nothing |
| Inventory.IdsUnique | src/data/vehicles.ts:6-191 | no two vehicle positions in the table share an id |
| Inventory.BelowIrreflexive | src/data/vehicles.ts:201 | the code-unit order never puts a string before itself |
| Inventory.BelowTransitive | src/data/vehicles.ts:201 | the code-unit order is transitive |
| Inventory.BelowTotal | src/data/vehicles.ts:201 | any two different strings are ordered one way or the other |
| Inventory.SortStringsSpec | src/data/vehicles.ts:201 | sorting a duplicate-free list gives a strictly increasing list with the same elements |
| Inventory.SortedSetsAreEqual | src/data/vehicles.ts:201 | two strictly increasing lists with the same elements are equal |
| Inventory.AddAttributes | src/data/vehicles.ts:199 | the inner loop extends the set with exactly the new values of one list, keeps its earlier order and adds no duplicate |
| Inventory.CollectDistinct | src/data/vehicles.ts:197-201 | the nested scan then sort returns a strictly increasing list holding exactly the values that occur in the table |
| Inventory.GetAllMakes | src/data/vehicles.ts:196-202 | strictly increasing, and a string is in it exactly when it is the make of some vehicle under some key |
| Inventory.GetAllColors | src/data/vehicles.ts:205-211 | strictly increasing, and a string is in it exactly when it is the color of some vehicle under some key |
| Inventory.AccessorResultIsUnique | src/data/vehicles.ts:196-211 | the accessors' contract determines their result, so repeated calls return equal lists |
| Inventory.SharedColorListedOnce | src/data/vehicles.ts:205-211 | "Pearl White", used under both 10001 and 60601, appears in the colors exactly once |
| VehicleSearch.KeepSpec | src/hooks/useVehicleSearch.ts:91-93 | `filter` keeps exactly the elements that satisfy the test, each as often as it occurs, and never lengthens the list |
| VehicleSearch.ApplyFiltersIsSelection | src/hooks/useVehicleSearch.ts:86-114 | the three passes select, in original order, exactly the vehicles that meet every criterion that is set |
| VehicleSearch.PriceBucketsPartition | src/hooks/useVehicleSearch.ts:108-111 | each price lies in exactly one bucket, and 30000 and 60000 lie in the middle one |
| VehicleSearch.InsertByPermutes | src/hooks/useVehicleSearch.ts:117-128 | inserting adds the element and loses none |
| VehicleSearch.InsertBySorted | src/hooks/useVehicleSearch.ts:117-128 | inserting into a list ordered by the comparator keeps it ordered |
| VehicleSearch.InsertByStable | src/hooks/useVehicleSearch.ts:117-128 | inserting puts the element before all elements with its key and leaves the others' order alone |
| VehicleSearch.StableSortSpec | src/hooks/useVehicleSearch.ts:117-128 | the sort returns a permutation ordered by the comparator's key, in which equal keys keep their input order |
| VehicleSearch.DerivedListSpec | src/hooks/useVehicleSearch.ts:86-131 | the derived list is a permutation of the selected vehicles: a vehicle is in it exactly when it is in `vehicles` and passes every set filter. It is no longer than `vehicles`, is ordered by the sort option, and keeps equal keys in raw order |
| VehicleSearch.DerivedListOrder | src/hooks/useVehicleSearch.ts:116-130 | "price-high" gives prices non-increasing, "price-low" gives prices non-decreasing, and "year" gives years non-increasing |
| VehicleSearch.BodyTypeIsInert | src/hooks/useVehicleSearch.ts:100-103 | the body-type criterion never changes the derived list |
| VehicleSearch.UnknownPriceRangeKeepsAll | src/hooks/useVehicleSearch.ts:105-113 | a price range naming no bucket gives the same list as no price range |
| VehicleSearch.ClearedFiltersKeepEveryVehicle | src/hooks/useVehicleSearch.ts:86-131 | with the initial filters the derived list is a reordering of the whole raw list |
| VehicleSearch.ResolveOutcomes | src/hooks/useVehicleSearch.ts:38-81 | the outcome is EMPTY_ZIP exactly for blank input, INVALID_ZIP exactly for non-blank invalid input, and NO_VEHICLES exactly for valid input that is not a key. Success happens exactly for a key, with that key's non-empty list |
| VehicleSearch.ResolveBlankExamples | src/hooks/useVehicleSearch.ts:38-47 | "" and "   " end in the empty-ZIP outcome |
| VehicleSearch.ResolveMalformedExamples | src/hooks/useVehicleSearch.ts:49-58 | "123" and "abcde" end in the invalid-ZIP outcome |
| VehicleSearch.ResolveLookupExamples | src/hooks/useVehicleSearch.ts:60-81 | "10001" finds its five vehicles; "99999" ends in the no-vehicles outcome |
| VehicleSearch.ResolvePaddedExample | src/hooks/useVehicleSearch.ts:60-71 | " 10001 " passes validation but ends in the no-vehicles outcome, while "10001" succeeds |
| VehicleSearch.SearchController.constructor | src/hooks/useVehicleSearch.ts:12-27 | the initial state: empty ZIP and lists, all filters "", sort "price-high", not loading, no error |
| VehicleSearch.SearchController.BeginSearch | src/hooks/useVehicleSearch.ts:34 | sets loading and clears the error; the frame allows no other field to change |
| VehicleSearch.SearchController.ResolveSearch | src/hooks/useVehicleSearch.ts:37-82 | stops loading. Blank or invalid input sets that error, empties both lists and keeps `zipCode`; no vehicles sets that error, empties the lists and stores the input; success clears the error, stores the table list in both fields and stores the input. `filters` and `sortBy` are outside the frame |
| VehicleSearch.SearchController.UpdateFilters | src/hooks/useVehicleSearch.ts:134-139 | each supplied key replaces that filter and every other key keeps its value; only `filters` may change |
| VehicleSearch.SearchController.UpdateSort | src/hooks/useVehicleSearch.ts:142-144 | sets the sort option; nothing else may change |
| VehicleSearch.SearchController.ClearFilters | src/hooks/useVehicleSearch.ts:147-149 | every filter becomes ""; nothing else may change; a call on cleared filters changes nothing (idempotence) |
| VehicleSearch.SearchController.ResetSearch | src/hooks/useVehicleSearch.ts:152-154 | from any state, the exact initial state |

## Left out

- The 500 ms `setTimeout` and overlapping searches. The code has no request token,
  so the last callback to fire wins. The model has one begin step followed by one
  resolve step.
- The React machinery (`useState`, `useCallback`, `useMemo`, re-rendering). The
  state is a plain object, and the memoised list is the function `DerivedVehicles`.
- `Intl.NumberFormat` itself, negative amounts, and rounding of fractional amounts.
  Grouping is modelled on natural numbers only.
- Validation.FormatCurrencySpec and Validation.FormatMileageSpec: stated for
  natural numbers only, because numbers that are not naturals go through
  `Intl.NumberFormat` behaviour outside this model.
- The presentational components, their CSS, the test files, and the unused
  `GENERIC_ERROR` message.
- An explicit `undefined` value in the partial update. `FilterUpdate` has only
  "supplied" (`Some`) and "absent" (`None`). A spread that copies an explicit
  `undefined` would make the filter falsy, which acts like `""`.
- The comparator's `default: return 0` branch. `SortOption` has three cases, so the
  branch cannot be reached.
- Strings outside the Basic Multilingual Plane. The model orders strings by
  character, which agrees with UTF-16 code-unit order on BMP text. All inventory
  strings are ASCII, which is why "BMW" sorts before "Bentley".
- Prototype-chain keys in the lookup, such as `"constructor"`. Such keys can only be
  reached by input that already failed validation.
- Vehicle prices, years and mileages are JavaScript numbers. They are `int` here
  because every one in the inventory is an integer.
