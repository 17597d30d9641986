/** The ZIP-code search controller (src/hooks/useVehicleSearch.ts): the held
    search state and the operations that replace it, and the filtered and
    sorted list derived from it. */
module VehicleSearch {
  import opened VehicleTypes
  import opened Constants
  import Validation
  import Inventory

  /** `initialFilters`: every criterion empty, i.e. unconstrained. */
  const InitialFilters: VehicleFilters := VehicleFilters("", "", "", "")

  // ---------------------------------------------------------------------------
  // Filtering
  // ---------------------------------------------------------------------------

  /** `Array.prototype.filter`: the vehicles for which `keep` holds, in order. */
  function Keep(vehicles: seq<Vehicle>, keep: Vehicle -> bool): seq<Vehicle> {
    if vehicles == [] then []
    else (if keep(vehicles[0]) then [vehicles[0]] else []) + Keep(vehicles[1..], keep)
  }

  /** The filter keeps exactly the elements satisfying `keep`, each as often as
      it occurs. */
  lemma {:induction false} KeepSpec(vehicles: seq<Vehicle>, keep: Vehicle -> bool)
    ensures var r := Keep(vehicles, keep);
      && |r| <= |vehicles|
      && (forall v :: v in r <==> v in vehicles && keep(v))
      && (forall v :: multiset(r)[v] == if keep(v) then multiset(vehicles)[v] else 0)
  {
    if vehicles != [] {
      var x, rest := vehicles[0], vehicles[1..];
      assert vehicles == [x] + rest;
      KeepSpec(rest, keep);
    }
  }

  lemma KeepSingle(x: Vehicle, keep: Vehicle -> bool)
    ensures Keep([x], keep) == if keep(x) then [x] else []
  {
    assert [x][1..] == [];
  }

  lemma {:induction false} KeepAppend(a: seq<Vehicle>, b: seq<Vehicle>, keep: Vehicle -> bool)
    ensures Keep(a + b, keep) == Keep(a, keep) + Keep(b, keep)
  {
    if a != [] {
      assert (a + b)[0] == a[0] && (a + b)[1..] == a[1..] + b;
      KeepAppend(a[1..], b, keep);
    } else {
      assert a + b == b;
    }
  }

  /** The price-range test; a value other than the three bucket names keeps
      every vehicle. */
  predicate InPriceRange(priceRange: string, price: int) {
    if priceRange == "under-30k" then price < 30000
    else if priceRange == "30k-60k" then 30000 <= price <= 60000
    else if priceRange == "over-60k" then price > 60000
    else true
  }

  /** The three filter passes in the order the hook applies them. Each is
      skipped when its criterion is "". The body-type criterion is tested for
      being set but filters nothing. */
  function ApplyFilters(vehicles: seq<Vehicle>, filters: VehicleFilters): seq<Vehicle> {
    var byMake :=
      if filters.make != "" then Keep(vehicles, (v: Vehicle) => v.make == filters.make) else vehicles;
    var byColor :=
      if filters.color != "" then Keep(byMake, (v: Vehicle) => v.color == filters.color) else byMake;
    if filters.priceRange != ""
    then Keep(byColor, (v: Vehicle) => InPriceRange(filters.priceRange, v.price))
    else byColor
  }

  /** A vehicle passes when it meets every criterion that is set. */
  predicate Passes(filters: VehicleFilters, v: Vehicle) {
    && (filters.make == "" || v.make == filters.make)
    && (filters.color == "" || v.color == filters.color)
    && (filters.priceRange == "" || InPriceRange(filters.priceRange, v.price))
  }

  /** The reference for the filter passes: one pass with the conjunction. */
  function Selection(vehicles: seq<Vehicle>, filters: VehicleFilters): seq<Vehicle> {
    Keep(vehicles, (v: Vehicle) => Passes(filters, v))
  }

  lemma ApplyFiltersSingle(x: Vehicle, filters: VehicleFilters)
    ensures ApplyFilters([x], filters) == if Passes(filters, x) then [x] else []
  {
    KeepSingle(x, (v: Vehicle) => v.make == filters.make);
    KeepSingle(x, (v: Vehicle) => v.color == filters.color);
    KeepSingle(x, (v: Vehicle) => InPriceRange(filters.priceRange, v.price));
  }

  lemma ApplyFiltersAppend(a: seq<Vehicle>, b: seq<Vehicle>, filters: VehicleFilters)
    ensures ApplyFilters(a + b, filters) == ApplyFilters(a, filters) + ApplyFilters(b, filters)
  {
    var byMakeA :=
      if filters.make != "" then Keep(a, (v: Vehicle) => v.make == filters.make) else a;
    var byMakeB :=
      if filters.make != "" then Keep(b, (v: Vehicle) => v.make == filters.make) else b;
    KeepAppend(a, b, (v: Vehicle) => v.make == filters.make);
    var byColorA :=
      if filters.color != "" then Keep(byMakeA, (v: Vehicle) => v.color == filters.color) else byMakeA;
    var byColorB :=
      if filters.color != "" then Keep(byMakeB, (v: Vehicle) => v.color == filters.color) else byMakeB;
    KeepAppend(byMakeA, byMakeB, (v: Vehicle) => v.color == filters.color);
    KeepAppend(byColorA, byColorB, (v: Vehicle) => InPriceRange(filters.priceRange, v.price));
  }

  /** Filtering pass by pass keeps exactly the vehicles that meet every set
      criterion, in their original order. */
  lemma {:induction false} ApplyFiltersIsSelection(vehicles: seq<Vehicle>, filters: VehicleFilters)
    ensures ApplyFilters(vehicles, filters) == Selection(vehicles, filters)
  {
    if vehicles != [] {
      var x, rest := vehicles[0], vehicles[1..];
      assert vehicles == [x] + rest;
      ApplyFiltersAppend([x], rest, filters);
      ApplyFiltersSingle(x, filters);
      ApplyFiltersIsSelection(rest, filters);
    }
  }

  // ---------------------------------------------------------------------------
  // Sorting
  // ---------------------------------------------------------------------------

  /** The comparator handed to `sort`: negative when `a` goes first. */
  function Compare(sortBy: SortOption, a: Vehicle, b: Vehicle): int {
    match sortBy
    case PriceHigh => b.price - a.price
    case PriceLow => a.price - b.price
    case Year => b.year - a.year
  }

  /** The quantity the comparator orders by, ascending. */
  function SortKey(sortBy: SortOption, v: Vehicle): int {
    match sortBy
    case PriceHigh => -v.price
    case PriceLow => v.price
    case Year => -v.year
  }

  ghost predicate SortedBy(sortBy: SortOption, s: seq<Vehicle>) {
    forall i, j :: 0 <= i < j < |s| ==> SortKey(sortBy, s[i]) <= SortKey(sortBy, s[j])
  }

  /** The vehicles whose sort key is `k`, in order: what a stable sort must not
      reorder. */
  function WithKey(sortBy: SortOption, s: seq<Vehicle>, k: int): seq<Vehicle> {
    if s == [] then []
    else (if SortKey(sortBy, s[0]) == k then [s[0]] else []) + WithKey(sortBy, s[1..], k)
  }

  lemma {:induction false} WithKeyCons(sortBy: SortOption, x: Vehicle, s: seq<Vehicle>, k: int)
    ensures WithKey(sortBy, [x] + s, k)
         == (if SortKey(sortBy, x) == k then [x] else []) + WithKey(sortBy, s, k)
  {
    assert ([x] + s)[0] == x && ([x] + s)[1..] == s;
  }

  /** Inserts `x` before the first element the comparator does not put before it. */
  function InsertBy(sortBy: SortOption, x: Vehicle, s: seq<Vehicle>): seq<Vehicle> {
    if s == [] then [x]
    else if Compare(sortBy, x, s[0]) <= 0 then [x] + s
    else [s[0]] + InsertBy(sortBy, x, s[1..])
  }

  /** `Array.prototype.sort` with the comparator. The language requires the sort
      to be stable, and a stable sort's result is fixed by the comparator, so
      insertion sort stands for the engine's algorithm. */
  function StableSort(sortBy: SortOption, s: seq<Vehicle>): seq<Vehicle> {
    if s == [] then [] else InsertBy(sortBy, s[0], StableSort(sortBy, s[1..]))
  }

  /** Insertion adds `x` and loses nothing. */
  lemma {:induction false} InsertByPermutes(sortBy: SortOption, x: Vehicle, s: seq<Vehicle>)
    ensures multiset(InsertBy(sortBy, x, s)) == multiset(s) + multiset{x}
  {
    if s != [] && Compare(sortBy, x, s[0]) > 0 {
      assert s == [s[0]] + s[1..];
      InsertByPermutes(sortBy, x, s[1..]);
    }
  }

  /** Insertion into an ordered list gives an ordered list. */
  lemma {:induction false} InsertBySorted(sortBy: SortOption, x: Vehicle, s: seq<Vehicle>)
    requires SortedBy(sortBy, s)
    ensures SortedBy(sortBy, InsertBy(sortBy, x, s))
  {
    var r := InsertBy(sortBy, x, s);
    if s == [] {
    } else if Compare(sortBy, x, s[0]) <= 0 {
      assert r == [x] + s;
      forall i, j | 0 <= i < j < |r| ensures SortKey(sortBy, r[i]) <= SortKey(sortBy, r[j]) {
        if i > 0 { assert r[i] == s[i - 1]; }
        assert r[j] == s[j - 1];
      }
    } else {
      var rest := s[1..];
      assert SortedBy(sortBy, rest) by {
        forall i, j | 0 <= i < j < |rest| ensures SortKey(sortBy, rest[i]) <= SortKey(sortBy, rest[j]) {
          assert rest[i] == s[i + 1] && rest[j] == s[j + 1];
        }
      }
      InsertBySorted(sortBy, x, rest);
      var tail := InsertBy(sortBy, x, rest);
      InsertByBound(sortBy, x, rest, SortKey(sortBy, s[0]));
      assert r == [s[0]] + tail;
      forall i, j | 0 <= i < j < |r| ensures SortKey(sortBy, r[i]) <= SortKey(sortBy, r[j]) {
        assert r[j] == tail[j - 1];
        if i > 0 {
          assert r[i] == tail[i - 1];
          assert SortKey(sortBy, tail[i - 1]) <= SortKey(sortBy, tail[j - 1]);
        } else {
          assert r[i] == s[0];
          assert SortKey(sortBy, s[0]) <= SortKey(sortBy, tail[j - 1]);
        }
      }
    }
  }

  /** A lower bound on the keys of `s` and of `x` bounds the keys after
      insertion. */
  lemma {:induction false} InsertByBound(sortBy: SortOption, x: Vehicle, s: seq<Vehicle>, bound: int)
    requires forall i :: 0 <= i < |s| ==> bound <= SortKey(sortBy, s[i])
    requires bound <= SortKey(sortBy, x)
    ensures forall i :: 0 <= i < |InsertBy(sortBy, x, s)| ==> bound <= SortKey(sortBy, InsertBy(sortBy, x, s)[i])
  {
    var r := InsertBy(sortBy, x, s);
    if s != [] && Compare(sortBy, x, s[0]) > 0 {
      InsertByBound(sortBy, x, s[1..], bound);
      assert forall i :: 0 < i < |r| ==> r[i] == InsertBy(sortBy, x, s[1..])[i - 1];
    } else if s != [] {
      assert forall i :: 0 < i < |r| ==> r[i] == s[i - 1];
    }
  }

  /** Insertion puts `x` before every element with its key and leaves the
      order among the others alone. */
  lemma {:induction false} InsertByStable(sortBy: SortOption, x: Vehicle, s: seq<Vehicle>, k: int)
    ensures WithKey(sortBy, InsertBy(sortBy, x, s), k)
         == if SortKey(sortBy, x) == k then [x] + WithKey(sortBy, s, k) else WithKey(sortBy, s, k)
  {
    if s == [] {
      WithKeyCons(sortBy, x, [], k);
      assert [x] + [] == [x];
    } else if Compare(sortBy, x, s[0]) <= 0 {
      WithKeyCons(sortBy, x, s, k);
    } else {
      var rest := s[1..];
      var tail := InsertBy(sortBy, x, rest);
      InsertByStable(sortBy, x, rest, k);
      assert s == [s[0]] + rest;
      WithKeyCons(sortBy, s[0], tail, k);
      WithKeyCons(sortBy, s[0], rest, k);
      if SortKey(sortBy, x) == k {
        assert SortKey(sortBy, s[0]) != k;
      }
    }
  }

  /** The sort returns a permutation of its input, ordered by the comparator,
      in which vehicles with equal keys keep their relative order. */
  lemma {:induction false} StableSortSpec(sortBy: SortOption, s: seq<Vehicle>)
    ensures var r := StableSort(sortBy, s);
      && SortedBy(sortBy, r)
      && multiset(r) == multiset(s)
      && forall k :: WithKey(sortBy, r, k) == WithKey(sortBy, s, k)
  {
    if s != [] {
      var rest := s[1..];
      var sorted := StableSort(sortBy, rest);
      StableSortSpec(sortBy, rest);
      InsertBySorted(sortBy, s[0], sorted);
      InsertByPermutes(sortBy, s[0], sorted);
      assert s == [s[0]] + rest;
      forall k ensures WithKey(sortBy, StableSort(sortBy, s), k) == WithKey(sortBy, s, k) {
        InsertByStable(sortBy, s[0], sorted, k);
        WithKeyCons(sortBy, s[0], rest, k);
      }
    }
  }

  // ---------------------------------------------------------------------------
  // The derived list
  // ---------------------------------------------------------------------------

  /** `filteredAndSortedVehicles`: filter a copy of the raw list, then sort it. */
  function FilteredAndSortedVehicles(vehicles: seq<Vehicle>, filters: VehicleFilters, sortBy: SortOption)
    : seq<Vehicle>
  {
    StableSort(sortBy, ApplyFilters(vehicles, filters))
  }

  /** The derived list holds exactly the raw vehicles that meet every set
      criterion (as many times as they occur), no more of them than the raw
      list, ordered by the sort option, and with equal keys in raw-list order. */
  lemma DerivedListSpec(vehicles: seq<Vehicle>, filters: VehicleFilters, sortBy: SortOption)
    ensures var r := FilteredAndSortedVehicles(vehicles, filters, sortBy);
      && multiset(r) == multiset(Selection(vehicles, filters))
      && (forall v :: v in r <==> v in vehicles && Passes(filters, v))
      && |r| <= |vehicles|
      && SortedBy(sortBy, r)
      && (forall k :: WithKey(sortBy, r, k) == WithKey(sortBy, Selection(vehicles, filters), k))
  {
    ApplyFiltersIsSelection(vehicles, filters);
    StableSortSpec(sortBy, ApplyFilters(vehicles, filters));
    KeepSpec(vehicles, (v: Vehicle) => Passes(filters, v));
    var r := FilteredAndSortedVehicles(vehicles, filters, sortBy);
    var sel := Selection(vehicles, filters);
    assert |r| == |multiset(r)| == |multiset(sel)| == |sel|;
    forall v ensures v in r <==> v in sel {
      assert v in r <==> v in multiset(r);
      assert v in sel <==> v in multiset(sel);
    }
  }

  /** What the three sort options mean for neighbouring entries of the derived
      list: prices non-increasing, prices non-decreasing, years non-increasing. */
  lemma DerivedListOrder(vehicles: seq<Vehicle>, filters: VehicleFilters, sortBy: SortOption)
    ensures var r := FilteredAndSortedVehicles(vehicles, filters, sortBy);
      && (sortBy == PriceHigh ==> forall i, j :: 0 <= i < j < |r| ==> r[i].price >= r[j].price)
      && (sortBy == PriceLow ==> forall i, j :: 0 <= i < j < |r| ==> r[i].price <= r[j].price)
      && (sortBy == Year ==> forall i, j :: 0 <= i < j < |r| ==> r[i].year >= r[j].year)
  {
    StableSortSpec(sortBy, ApplyFilters(vehicles, filters));
  }

  /** The body-type criterion never changes the derived list. */
  lemma BodyTypeIsInert(vehicles: seq<Vehicle>, filters: VehicleFilters, bodyType: string, sortBy: SortOption)
    ensures FilteredAndSortedVehicles(vehicles, filters.(bodyType := bodyType), sortBy)
         == FilteredAndSortedVehicles(vehicles, filters, sortBy)
  {
    ApplyFiltersIsSelection(vehicles, filters);
    ApplyFiltersIsSelection(vehicles, filters.(bodyType := bodyType));
    SelectionAgrees(vehicles, filters, filters.(bodyType := bodyType));
  }

  /** A price-range value that names none of the three buckets keeps every
      vehicle, as if no price range were set. */
  lemma UnknownPriceRangeKeepsAll(vehicles: seq<Vehicle>, filters: VehicleFilters, sortBy: SortOption)
    requires filters.priceRange != "under-30k" && filters.priceRange != "30k-60k"
    requires filters.priceRange != "over-60k"
    ensures FilteredAndSortedVehicles(vehicles, filters, sortBy)
         == FilteredAndSortedVehicles(vehicles, filters.(priceRange := ""), sortBy)
  {
    ApplyFiltersIsSelection(vehicles, filters);
    ApplyFiltersIsSelection(vehicles, filters.(priceRange := ""));
    SelectionAgrees(vehicles, filters, filters.(priceRange := ""));
  }

  /** Two filter settings that pass the same vehicles select the same list. */
  lemma {:induction false} SelectionAgrees(vehicles: seq<Vehicle>, f: VehicleFilters, g: VehicleFilters)
    requires forall v :: Passes(f, v) == Passes(g, v)
    ensures Selection(vehicles, f) == Selection(vehicles, g)
  {
    if vehicles != [] {
      SelectionAgrees(vehicles[1..], f, g);
    }
  }

  /** With every filter cleared the derived list is a reordering of the whole
      raw list. */
  lemma ClearedFiltersKeepEveryVehicle(vehicles: seq<Vehicle>, sortBy: SortOption)
    ensures multiset(FilteredAndSortedVehicles(vehicles, InitialFilters, sortBy)) == multiset(vehicles)
    ensures |FilteredAndSortedVehicles(vehicles, InitialFilters, sortBy)| == |vehicles|
  {
    StableSortSpec(sortBy, vehicles);
    var r := FilteredAndSortedVehicles(vehicles, InitialFilters, sortBy);
    assert |r| == |multiset(r)|;
  }

  /** The buckets split the prices: each price lies in exactly one, and both
      30000 and 60000 lie in the middle one. */
  lemma PriceBucketsPartition(price: int)
    ensures InPriceRange("under-30k", price) || InPriceRange("30k-60k", price)
         || InPriceRange("over-60k", price)
    ensures !(InPriceRange("under-30k", price) && InPriceRange("30k-60k", price))
    ensures !(InPriceRange("30k-60k", price) && InPriceRange("over-60k", price))
    ensures !(InPriceRange("under-30k", price) && InPriceRange("over-60k", price))
    ensures InPriceRange("30k-60k", 30000) && InPriceRange("30k-60k", 60000)
  {
  }

  // ---------------------------------------------------------------------------
  // Resolving a search
  // ---------------------------------------------------------------------------

  /** How the delayed part of `searchVehicles` ends. */
  datatype SearchOutcome = EmptyZip | InvalidZip | NoVehicles | Found(vehicles: seq<Vehicle>)

  /** The checks of the delayed callback, in order: blank input, then the ZIP
      format (which trims), then the lookup, which uses the input as given. */
  function Resolve(input: string): SearchOutcome {
    if Validation.Trim(input) == "" then EmptyZip
    else if !Validation.IsValidZipCode(input) then InvalidZip
    else
      var vehicles := Inventory.Lookup(input);
      if |vehicles| == 0 then NoVehicles else Found(vehicles)
  }

  /** Each outcome characterised by the input alone. */
  lemma ResolveOutcomes(input: string)
    ensures Resolve(input) == EmptyZip <==> Validation.AllWhitespace(input)
    ensures Resolve(input) == InvalidZip
        <==> !Validation.AllWhitespace(input) && !Validation.IsValidZipCode(input)
    ensures Resolve(input) == NoVehicles
        <==> Validation.IsValidZipCode(input) && input !in Inventory.VehicleDatabase
    ensures Resolve(input).Found? <==> input in Inventory.VehicleDatabase
    ensures Resolve(input).Found? ==>
      Resolve(input).vehicles == Inventory.VehicleDatabase[input] && Resolve(input).vehicles != []
  {
    Validation.TrimEmptyIffBlank(input);
    Inventory.LookupSpec(input);
    if Validation.IsValidZipCode(input) {
      Validation.AcceptedLength(input);
    }
  }

  /** Blank input fails before any format check. */
  lemma ResolveBlankExamples()
    ensures Resolve("") == EmptyZip
    ensures Resolve("   ") == EmptyZip
  {
    assert Validation.AllWhitespace("   ");
    ResolveOutcomes("");
    ResolveOutcomes("   ");
  }

  /** Input of the wrong shape fails before any lookup. */
  lemma ResolveMalformedExamples()
    ensures Resolve("123") == InvalidZip
    ensures Resolve("abcde") == InvalidZip
  {
    Validation.RejectedExamples();
    ResolveOutcomes("123");
    ResolveOutcomes("abcde");
    assert !Validation.AllWhitespace("123") by { assert !Validation.IsWhitespace("123"[0]); }
    assert !Validation.AllWhitespace("abcde") by { assert !Validation.IsWhitespace("abcde"[0]); }
  }

  /** A stocked ZIP code finds its five vehicles; an unknown one finds none. */
  lemma ResolveLookupExamples()
    ensures Resolve("10001").Found? && |Resolve("10001").vehicles| == 5
    ensures Resolve("99999") == NoVehicles
  {
    Inventory.LookupExamples();
    ResolveOutcomes("10001");
    Validation.AnyFiveDigitsAccepted("99999", "", "");
    assert "" + "99999" + "" == "99999";
    ResolveOutcomes("99999");
  }

  /** The lookup uses the input as typed: a padded ZIP code passes the format
      check but finds no vehicles, although its trimmed form is stocked. */
  lemma ResolvePaddedExample()
    ensures Resolve(" 10001 ") == NoVehicles
    ensures Resolve("10001").Found?
  {
    Inventory.LookupExamples();
    Validation.AnyFiveDigitsAccepted("10001", " ", " ");
    assert " " + "10001" + " " == " 10001 ";
    ResolveOutcomes(" 10001 ");
    ResolveOutcomes("10001");
  }

  // ---------------------------------------------------------------------------
  // The held state and its operations
  // ---------------------------------------------------------------------------

  /** The `SearchState` the hook holds, with the hook's operations as methods.
      Each `setState` replaces the record; here the fields are updated in
      place. */
  class SearchController {
    var zipCode: string
    var vehicles: seq<Vehicle>
    var filteredVehicles: seq<Vehicle>
    var filters: VehicleFilters
    var sortBy: SortOption
    var isLoading: bool
    var error: Option<string>

    /** What every operation keeps: the stored `filteredVehicles` is always a
        copy of `vehicles`; a non-empty vehicle list is the table entry of the
        stored ZIP code; an error is one of the three messages and comes with
        no vehicles. */
    ghost predicate Valid()
      reads this
    {
      && filteredVehicles == vehicles
      && (vehicles != [] ==>
            zipCode in Inventory.VehicleDatabase && vehicles == Inventory.VehicleDatabase[zipCode])
      && (error.Some? ==>
            vehicles == [] && error.value in {EMPTY_ZIP, INVALID_ZIP, NO_VEHICLES})
    }

    /** `initialState`. */
    predicate IsInitial()
      reads this
    {
      && zipCode == ""
      && vehicles == []
      && filteredVehicles == []
      && filters == InitialFilters
      && sortBy == PriceHigh
      && !isLoading
      && error == None
    }

    /** The list the hook hands out as `filteredVehicles`: always recomputed
        from the raw list, the filters and the sort option. */
    function DerivedVehicles(): seq<Vehicle>
      reads this
    {
      FilteredAndSortedVehicles(vehicles, filters, sortBy)
    }

    constructor ()
      ensures Valid() && IsInitial()
    {
      zipCode := "";
      vehicles := [];
      filteredVehicles := [];
      filters := InitialFilters;
      sortBy := PriceHigh;
      isLoading := false;
      error := None;
    }

    /** The synchronous start of `searchVehicles`: loading, no error, nothing
        else touched. */
    method BeginSearch()
      requires Valid()
      modifies this`isLoading, this`error
      ensures Valid()
      ensures isLoading && error == None
    {
      isLoading := true;
      error := None;
    }

    /** The delayed end of `searchVehicles(input)`. */
    method ResolveSearch(input: string)
      requires Valid()
      modifies this`isLoading, this`error, this`vehicles, this`filteredVehicles, this`zipCode
      ensures Valid()
      ensures !isLoading
      ensures match Resolve(input)
        case EmptyZip =>
          error == Some(EMPTY_ZIP) && vehicles == [] && filteredVehicles == []
          && zipCode == old(zipCode)
        case InvalidZip =>
          error == Some(INVALID_ZIP) && vehicles == [] && filteredVehicles == []
          && zipCode == old(zipCode)
        case NoVehicles =>
          error == Some(NO_VEHICLES) && vehicles == [] && filteredVehicles == []
          && zipCode == input
        case Found(found) =>
          error == None && vehicles == found && filteredVehicles == found
          && zipCode == input
    {
      isLoading := false;
      match Resolve(input)
      case EmptyZip =>
        error, vehicles, filteredVehicles := Some(EMPTY_ZIP), [], [];
      case InvalidZip =>
        error, vehicles, filteredVehicles := Some(INVALID_ZIP), [], [];
      case NoVehicles =>
        error, vehicles, filteredVehicles, zipCode := Some(NO_VEHICLES), [], [], input;
      case Found(found) =>
        ResolveOutcomes(input);
        error, vehicles, filteredVehicles, zipCode := None, found, found, input;
    }

    /** `updateFilters`: each supplied key replaces that filter; the others
        keep their values. */
    method UpdateFilters(update: FilterUpdate)
      requires Valid()
      modifies this`filters
      ensures Valid()
      ensures filters.make == (if update.make.Some? then update.make.value else old(filters.make))
      ensures filters.color == (if update.color.Some? then update.color.value else old(filters.color))
      ensures filters.bodyType
           == (if update.bodyType.Some? then update.bodyType.value else old(filters.bodyType))
      ensures filters.priceRange
           == (if update.priceRange.Some? then update.priceRange.value else old(filters.priceRange))
    {
      var merged := filters;
      if update.make.Some? { merged := merged.(make := update.make.value); }
      if update.color.Some? { merged := merged.(color := update.color.value); }
      if update.bodyType.Some? { merged := merged.(bodyType := update.bodyType.value); }
      if update.priceRange.Some? { merged := merged.(priceRange := update.priceRange.value); }
      filters := merged;
    }

    /** `updateSort`: only the sort option changes. */
    method UpdateSort(option: SortOption)
      requires Valid()
      modifies this`sortBy
      ensures Valid()
      ensures sortBy == option
    {
      sortBy := option;
    }

    /** `clearFilters`: every filter back to "", nothing else changes; a second
        call finds the filters already cleared and changes nothing. */
    method ClearFilters()
      requires Valid()
      modifies this`filters
      ensures Valid()
      ensures filters == InitialFilters
      ensures old(filters) == InitialFilters ==> unchanged(this)
    {
      filters := InitialFilters;
    }

    /** `resetSearch`: back to the initial state, whatever the state was. */
    method ResetSearch()
      requires Valid()
      modifies this
      ensures Valid() && IsInitial()
    {
      zipCode := "";
      vehicles := [];
      filteredVehicles := [];
      filters := InitialFilters;
      sortBy := PriceHigh;
      isLoading := false;
      error := None;
    }
  }

  /** The flow the hook tests drive, as a client of the controller: a search
      ends with an error exactly when the table has no entry for the input,
      and a reset returns to the initial state. */
  method SearchSession(input: string)
  {
    var c := new SearchController();
    c.BeginSearch();
    assert c.isLoading && c.error == None;
    c.ResolveSearch(input);
    ResolveOutcomes(input);
    assert c.error == None <==> input in Inventory.VehicleDatabase;
    c.ResetSearch();
    assert c.IsInitial() && c.DerivedVehicles() == [];
  }

  /** Filtering by make and sorting by price, as a client: the derived list
      then holds only that make, cheapest first, and the raw list is kept. */
  method FilterSession(c: SearchController, make: string)
    requires c.Valid()
    modifies c
  {
    var raw := c.vehicles;
    c.UpdateFilters(FilterUpdate(Some(make), None, None, None));
    c.UpdateSort(PriceLow);
    assert c.filters.make == make && c.vehicles == raw;
    DerivedListSpec(c.vehicles, c.filters, c.sortBy);
    DerivedListOrder(c.vehicles, c.filters, c.sortBy);
    var shown := c.DerivedVehicles();
    assert make != "" ==> forall v :: v in shown ==> v.make == make;
    assert |shown| <= |raw|;
    assert forall i, j :: 0 <= i < j < |shown| ==> shown[i].price <= shown[j].price;
  }

  /** Clearing the filters twice, as a client: the derived list is then a
      reordering of the whole raw list. */
  method ClearSession(c: SearchController)
    requires c.Valid()
    modifies c
  {
    var raw := c.vehicles;
    c.ClearFilters();
    c.ClearFilters();
    assert c.filters == InitialFilters && c.vehicles == raw;
    ClearedFiltersKeepEveryVehicle(c.vehicles, c.sortBy);
    assert multiset(c.DerivedVehicles()) == multiset(raw);
  }
}
