/** The static inventory: a fixed table from ZIP code to vehicles, and the two
    accessors that list the distinct makes and colors in sorted order
    (src/data/vehicles.ts). */
module Inventory {
  import opened VehicleTypes
  import Validation

  const VehicleDatabase: map<string, seq<Vehicle>> := map[
    "10001" := [
      Vehicle("1", "Tesla", "Model 3", "Standard Range Plus", 2022, "Pearl White", 15000, 45000,
        "https://images.unsplash.com/photo-1560958089-b8a1929cea89?w=400&h=300&fit=crop"),
      Vehicle("2", "BMW", "X5", "xDrive40i", 2023, "Jet Black", 8000, 65000,
        "https://images.unsplash.com/photo-1555215695-3004980ad54e?w=400&h=300&fit=crop"),
      Vehicle("3", "Audi", "A4", "Premium Plus", 2021, "Glacier White", 25000, 38000,
        "https://images.unsplash.com/photo-1606664515524-ed2f786a0bd6?w=400&h=300&fit=crop"),
      Vehicle("4", "Mercedes-Benz", "C-Class", "C300", 2023, "Polar White", 5000, 52000,
        "https://images.unsplash.com/photo-1618843479313-40f8afb4b4d8?w=400&h=300&fit=crop"),
      Vehicle("5", "Toyota", "Camry", "XLE", 2022, "Midnight Black", 18000, 32000,
        "https://images.unsplash.com/photo-1621007947382-bb3c3994e3fb?w=400&h=300&fit=crop")
    ],
    "90210" := [
      Vehicle("6", "Porsche", "911", "Carrera", 2023, "Guards Red", 2000, 125000,
        "https://images.unsplash.com/photo-1544829099-b9a0c5303bea?w=400&h=300&fit=crop"),
      Vehicle("7", "Lamborghini", "Huracan", "EVO", 2022, "Arancio Borealis", 3500, 275000,
        "https://images.unsplash.com/photo-1544636331-e26879cd4d9b?w=400&h=300&fit=crop"),
      Vehicle("8", "Ferrari", "F8 Tributo", "Base", 2021, "Rosso Corsa", 4200, 295000,
        "https://images.unsplash.com/photo-1583121274602-3e2820c69888?w=400&h=300&fit=crop")
    ],
    "60601" := [
      Vehicle("9", "Ford", "F-150", "Lariat", 2022, "Oxford White", 22000, 48000,
        "https://images.unsplash.com/photo-1558618047-3c8c76ca7d13?w=400&h=300&fit=crop"),
      Vehicle("10", "Chevrolet", "Silverado", "LT", 2021, "Summit White", 35000, 42000,
        "https://images.unsplash.com/photo-1549317661-bd32c8ce0db2?w=400&h=300&fit=crop"),
      Vehicle("11", "Honda", "Civic", "Sport", 2023, "Sonic Gray", 8500, 28000,
        "https://images.unsplash.com/photo-1606664515524-ed2f786a0bd6?w=400&h=300&fit=crop"),
      Vehicle("12", "Nissan", "Altima", "SV", 2022, "Pearl White", 16000, 29000,
        "https://images.unsplash.com/photo-1621007947382-bb3c3994e3fb?w=400&h=300&fit=crop")
    ],
    "33101" := [
      Vehicle("13", "McLaren", "720S", "Performance", 2022, "Papaya Orange", 1800, 315000,
        "https://images.unsplash.com/photo-1544636331-e26879cd4d9b?w=400&h=300&fit=crop"),
      Vehicle("14", "Bentley", "Continental GT", "V8", 2023, "Beluga", 3200, 245000,
        "https://images.unsplash.com/photo-1555215695-3004980ad54e?w=400&h=300&fit=crop"),
      Vehicle("15", "Rolls-Royce", "Ghost", "Standard", 2021, "Arctic White", 5500, 385000,
        "https://images.unsplash.com/photo-1618843479313-40f8afb4b4d8?w=400&h=300&fit=crop")
    ]
  ]

  /** The order in which `Object.values` visits the table: all four keys are
      canonical array indices, which JavaScript enumerates in ascending numeric
      order whatever the order of the literal. */
  const KeyOrder: seq<string> := ["10001", "33101", "60601", "90210"]

  /** `vehicleDatabase[zipCode] || []`: the exact, untrimmed key, or nothing. */
  function Lookup(zipCode: string): seq<Vehicle> {
    if zipCode in VehicleDatabase then VehicleDatabase[zipCode] else []
  }

  // ---------------------------------------------------------------------------
  // Facts about the table
  // ---------------------------------------------------------------------------

  /** The scan order lists every key of the table exactly once. */
  lemma KeyOrderCoversTable()
    ensures forall k :: k in KeyOrder <==> k in VehicleDatabase
    ensures forall m, n :: 0 <= m < n < |KeyOrder| ==> KeyOrder[m] != KeyOrder[n]
  {
  }

  /** Every key is a well-formed five-digit ZIP code, and no key maps to an
      empty list. */
  lemma TableKeysAreValidZips()
    ensures forall k :: k in VehicleDatabase ==>
      |k| == 5 && Validation.IsValidZipCode(k) && VehicleDatabase[k] != []
  {
    forall k | k in VehicleDatabase
      ensures |k| == 5 && Validation.IsValidZipCode(k) && VehicleDatabase[k] != []
    {
      assert k == "10001" || k == "90210" || k == "60601" || k == "33101";
      assert Validation.AllDigits(k);
      Validation.AnyFiveDigitsAccepted(k, "", "");
      assert "" + k + "" == k;
    }
  }

  /** A lookup finds vehicles exactly for the keys of the table, and every key
      is a valid ZIP code. */
  lemma LookupSpec(zipCode: string)
    ensures Lookup(zipCode) != [] <==> zipCode in VehicleDatabase
    ensures zipCode in VehicleDatabase ==>
      Lookup(zipCode) == VehicleDatabase[zipCode] && Validation.IsValidZipCode(zipCode)
  {
    TableKeysAreValidZips();
  }

  /** A stocked ZIP code, an unknown one, and a stocked one with padding,
      which the exact-key lookup does not find. */
  lemma LookupExamples()
    ensures "10001" in VehicleDatabase && |Lookup("10001")| == 5
    ensures "99999" !in VehicleDatabase
    ensures " 10001 " !in VehicleDatabase
  {
    KeyOrderCoversTable();
  }

  /** Vehicle ids are unique across the whole table. */
  lemma IdsUnique()
    ensures forall k1, k2, i, j ::
      k1 in VehicleDatabase && k2 in VehicleDatabase
      && 0 <= i < |VehicleDatabase[k1]| && 0 <= j < |VehicleDatabase[k2]|
      && (k1 != k2 || i != j)
      ==> VehicleDatabase[k1][i].id != VehicleDatabase[k2][j].id
  {
  }

  // ---------------------------------------------------------------------------
  // The default order of Array.prototype.sort on strings
  // ---------------------------------------------------------------------------

  /** `a` sorts before `b`: at the first position where they differ `a` has the
      smaller code unit, or `a` is a proper prefix of `b`. */
  predicate Below(a: string, b: string) {
    if a == [] then b != []
    else b != [] && (a[0] < b[0] || (a[0] == b[0] && Below(a[1..], b[1..])))
  }

  lemma {:induction false} BelowIrreflexive(a: string)
    ensures !Below(a, a)
  {
    if a != [] {
      BelowIrreflexive(a[1..]);
    }
  }

  lemma {:induction false} BelowTransitive(a: string, b: string, c: string)
    requires Below(a, b) && Below(b, c)
    ensures Below(a, c)
  {
    if a != [] && a[0] == b[0] && b[0] == c[0] {
      BelowTransitive(a[1..], b[1..], c[1..]);
    }
  }

  /** Any two different strings are ordered one way or the other. */
  lemma {:induction false} BelowTotal(a: string, b: string)
    requires a != b
    ensures Below(a, b) || Below(b, a)
  {
    if a != [] && b != [] && a[0] == b[0] {
      assert a == [a[0]] + a[1..] && b == [b[0]] + b[1..];
      BelowTotal(a[1..], b[1..]);
    }
  }

  predicate StrictlyIncreasing(s: seq<string>) {
    forall i, j :: 0 <= i < j < |s| ==> Below(s[i], s[j])
  }

  predicate NoDuplicates(s: seq<string>) {
    forall i, j :: 0 <= i < j < |s| ==> s[i] != s[j]
  }

  /** Inserts `x` after every element that sorts before it. */
  function Insert(x: string, s: seq<string>): seq<string> {
    if s == [] then [x]
    else if Below(s[0], x) then [s[0]] + Insert(x, s[1..])
    else [x] + s
  }

  /** `Array.prototype.sort()` with no comparator, on strings. The result of a
      sort is fixed by the order alone (see SortedSetsAreEqual), so insertion
      sort stands for the engine's own algorithm. */
  function SortStrings(s: seq<string>): seq<string> {
    if s == [] then [] else Insert(s[0], SortStrings(s[1..]))
  }

  lemma {:induction false} InsertSpec(x: string, s: seq<string>)
    requires StrictlyIncreasing(s) && x !in s
    ensures StrictlyIncreasing(Insert(x, s))
    ensures forall y :: y in Insert(x, s) <==> y == x || y in s
  {
    if s != [] {
      if Below(s[0], x) {
        InsertSpec(x, s[1..]);
        var r := Insert(x, s[1..]);
        forall y | y in r ensures Below(s[0], y) {
          if y != x {
            var n :| 0 <= n < |s[1..]| && s[1..][n] == y;
            assert s[n + 1] == y;
          }
        }
      } else {
        BelowTotal(x, s[0]);
        forall n | 0 <= n < |s| ensures Below(x, s[n]) {
          if n > 0 { BelowTransitive(x, s[0], s[n]); }
        }
        var r := Insert(x, s);
        assert r == [x] + s;
        forall i, j | 0 <= i < j < |r| ensures Below(r[i], r[j]) {
          if i > 0 { assert r[i] == s[i - 1] && r[j] == s[j - 1]; }
        }
      }
    }
  }

  /** Sorting distinct strings gives a strictly increasing list of the same
      strings. */
  lemma {:induction false} SortStringsSpec(s: seq<string>)
    requires NoDuplicates(s)
    ensures StrictlyIncreasing(SortStrings(s))
    ensures forall y :: y in SortStrings(s) <==> y in s
  {
    if s != [] {
      assert NoDuplicates(s[1..]) by {
        forall i, j | 0 <= i < j < |s[1..]| ensures s[1..][i] != s[1..][j] {
          assert s[1..][i] == s[i + 1] && s[1..][j] == s[j + 1];
        }
      }
      SortStringsSpec(s[1..]);
      assert s[0] !in s[1..] by {
        forall n | 0 <= n < |s[1..]| ensures s[1..][n] != s[0] { assert s[1..][n] == s[n + 1]; }
      }
      InsertSpec(s[0], SortStrings(s[1..]));
      assert s == [s[0]] + s[1..];
    }
  }

  /** A strictly increasing list is determined by its elements: two of them
      with the same elements are equal. */
  lemma {:induction false} SortedSetsAreEqual(a: seq<string>, b: seq<string>)
    requires StrictlyIncreasing(a) && StrictlyIncreasing(b)
    requires forall y :: y in a <==> y in b
    ensures a == b
  {
    if a == [] {
      HeadIsMember(b);
    } else {
      assert a[0] in b;
      assert b[0] in a;
      if a[0] != b[0] {
        var m :| 0 <= m < |a| && a[m] == b[0];
        var n :| 0 <= n < |b| && b[n] == a[0];
        assert Below(a[0], a[m]) && Below(b[0], b[n]);
        BelowTransitive(a[0], b[0], a[0]);
        BelowIrreflexive(a[0]);
      }
      forall y ensures y in a[1..] <==> y in b[1..] {
        StrictTail(a, y);
        StrictTail(b, y);
      }
      SortedSetsAreEqual(a[1..], b[1..]);
      assert a == [a[0]] + a[1..] && b == [b[0]] + b[1..];
    }
  }

  lemma HeadIsMember(s: seq<string>)
    ensures s != [] ==> s[0] in s
  {
  }

  /** In a strictly increasing list, the tail holds every element but the head. */
  lemma StrictTail(s: seq<string>, y: string)
    requires s != [] && StrictlyIncreasing(s)
    ensures y in s[1..] <==> y in s && y != s[0]
  {
    if y in s[1..] {
      var n :| 0 <= n < |s[1..]| && s[1..][n] == y;
      assert Below(s[0], s[n + 1]);
      BelowIrreflexive(s[0]);
    }
    if y in s && y != s[0] {
      var n :| 0 <= n < |s| && s[n] == y;
      assert s[1..][n - 1] == y;
    }
  }

  // ---------------------------------------------------------------------------
  // getAllMakes / getAllColors
  // ---------------------------------------------------------------------------

  /** The vehicle attribute an accessor lists. */
  datatype Attribute = MakeAttr | ColorAttr

  function AttributeOf(v: Vehicle, a: Attribute): string {
    match a
    case MakeAttr => v.make
    case ColorAttr => v.color
  }

  /** The attribute of some vehicle under some key. */
  ghost predicate Occurs(x: string, a: Attribute) {
    exists k, v :: k in VehicleDatabase && v in VehicleDatabase[k] && AttributeOf(v, a) == x
  }

  /** The attribute values of the vehicles under the given keys. */
  ghost function ValuesUnder(keys: seq<string>, a: Attribute): set<string> {
    set k, v | k in keys && k in VehicleDatabase && v in VehicleDatabase[k] :: AttributeOf(v, a)
  }

  ghost function ValuesOf(vs: seq<Vehicle>, a: Attribute): set<string> {
    set v | v in vs :: AttributeOf(v, a)
  }

  ghost function Elems(s: seq<string>): set<string> {
    set x | x in s
  }

  /** The shared body of the two accessors: visit every vehicle of every key in
      `Object.values` order, add its attribute to a `Set` (kept here as a list
      without duplicates in first-insertion order, as a JavaScript `Set` is),
      then sort `Array.from` of it. The result lists every value that occurs,
      once, in increasing order. */
  method CollectDistinct(a: Attribute) returns (values: seq<string>)
    ensures StrictlyIncreasing(values)
    ensures forall x :: x in values <==> Occurs(x, a)
  {
    var seen: seq<string> := [];
    var i := 0;
    while i < |KeyOrder|
      invariant 0 <= i <= |KeyOrder|
      invariant NoDuplicates(seen)
      invariant Elems(seen) == ValuesUnder(KeyOrder[..i], a)
    {
      seen := AddAttributes(seen, VehicleDatabase[KeyOrder[i]], a);
      ValuesUnderSnoc(KeyOrder, i, a);
      i := i + 1;
    }
    assert KeyOrder[..i] == KeyOrder;
    SortStringsSpec(seen);
    values := SortStrings(seen);
    forall x ensures x in values <==> Occurs(x, a) {
      ValuesUnderAllKeys(x, a);
    }
  }

  /** The inner `forEach`: `Set.add` the attribute of each vehicle in turn. The
      list stays free of duplicates and gains exactly the new values. */
  method AddAttributes(seen: seq<string>, vehicles: seq<Vehicle>, a: Attribute)
    returns (seen': seq<string>)
    requires NoDuplicates(seen)
    ensures NoDuplicates(seen')
    ensures Elems(seen') == Elems(seen) + ValuesOf(vehicles, a)
    ensures |seen| <= |seen'| && seen'[..|seen|] == seen
  {
    seen' := seen;
    var j := 0;
    while j < |vehicles|
      invariant 0 <= j <= |vehicles|
      invariant NoDuplicates(seen') && |seen| <= |seen'| && seen'[..|seen|] == seen
      invariant Elems(seen') == Elems(seen) + ValuesOf(vehicles[..j], a)
    {
      var x := AttributeOf(vehicles[j], a);
      ValuesOfSnoc(vehicles, j, a);
      if x !in seen' {
        ElemsSnoc(seen', x);
        seen' := seen' + [x];
      }
      j := j + 1;
    }
    assert vehicles[..j] == vehicles;
  }

  lemma ElemsSnoc(s: seq<string>, x: string)
    ensures Elems(s + [x]) == Elems(s) + {x}
  {
  }

  lemma ValuesOfSnoc(vs: seq<Vehicle>, j: nat, a: Attribute)
    requires j < |vs|
    ensures ValuesOf(vs[..j + 1], a) == ValuesOf(vs[..j], a) + {AttributeOf(vs[j], a)}
  {
    assert vs[..j + 1] == vs[..j] + [vs[j]];
  }

  lemma ValuesUnderSnoc(keys: seq<string>, i: nat, a: Attribute)
    requires i < |keys| && keys[i] in VehicleDatabase
    ensures ValuesUnder(keys[..i + 1], a)
         == ValuesUnder(keys[..i], a) + ValuesOf(VehicleDatabase[keys[i]], a)
  {
    assert keys[..i + 1] == keys[..i] + [keys[i]];
  }

  lemma ValuesUnderAllKeys(x: string, a: Attribute)
    ensures x in ValuesUnder(KeyOrder, a) <==> Occurs(x, a)
  {
    KeyOrderCoversTable();
  }

  /** `getAllMakes()`: every make in the table, once, in increasing order. */
  method GetAllMakes() returns (makes: seq<string>)
    ensures StrictlyIncreasing(makes)
    ensures forall x :: x in makes <==> Occurs(x, MakeAttr)
  {
    makes := CollectDistinct(MakeAttr);
  }

  /** `getAllColors()`: every color in the table, once, in increasing order. */
  method GetAllColors() returns (colors: seq<string>)
    ensures StrictlyIncreasing(colors)
    ensures forall x :: x in colors <==> Occurs(x, ColorAttr)
  {
    colors := CollectDistinct(ColorAttr);
  }

  /** The accessors' contract fixes their result: any two lists that meet it
      are equal, so repeated calls agree and the scan order does not matter. */
  lemma AccessorResultIsUnique(r1: seq<string>, r2: seq<string>, a: Attribute)
    requires StrictlyIncreasing(r1) && (forall x :: x in r1 <==> Occurs(x, a))
    requires StrictlyIncreasing(r2) && (forall x :: x in r2 <==> Occurs(x, a))
    ensures r1 == r2
  {
    SortedSetsAreEqual(r1, r2);
  }

  /** "Pearl White", the color of a vehicle under 10001 and of one under 60601,
      appears exactly once among the colors. */
  lemma SharedColorListedOnce(colors: seq<string>)
    requires StrictlyIncreasing(colors) && (forall x :: x in colors <==> Occurs(x, ColorAttr))
    ensures VehicleDatabase["10001"][0].color == "Pearl White"
    ensures VehicleDatabase["60601"][3].color == "Pearl White"
    ensures exists n :: 0 <= n < |colors| && colors[n] == "Pearl White"
    ensures forall m, n :: 0 <= m < n < |colors| ==> colors[m] != colors[n]
  {
    var v := VehicleDatabase["10001"][0];
    assert AttributeOf(v, ColorAttr) == "Pearl White";
    assert Occurs("Pearl White", ColorAttr);
    forall m, n | 0 <= m < n < |colors| ensures colors[m] != colors[n] {
      if colors[m] == colors[n] {
        BelowIrreflexive(colors[m]);
      }
    }
  }
}
