/** Geo ranking (app/modules/orders/utils.py): the distance between two
    locations with its "infinite" sentinel for missing coordinates, and the
    radius filter followed by a stable ascending sort. */
module Geo {
  import opened Common

  /** A distance in kilometres, or `float('inf')`. */
  datatype Distance = Km(km: real) | Infinite

  /** `a <= b` on Python floats, where `inf <= inf` holds. */
  predicate AtMost(a: Distance, b: Distance)
  {
    match a
    case Infinite => b.Infinite?
    case Km(x) => b.Infinite? || x <= b.km
  }

  /** The haversine formula on (lat1, lon1, lat2, lon2) in degrees. It is
      floating-point trigonometry, so the model takes it as a parameter. */
  type Haversine = (real, real, real, real) -> real

  /** Truthiness of an optional float: `None` and `0.0` are falsy. */
  predicate Truthy(x: Option<real>)
  {
    x.Some? && x.value != 0.0
  }

  predicate HasCoordinates(l: Location)
  {
    Truthy(l.latitude) && Truthy(l.longitude)
  }

  /** `calculate_distance`: infinite unless all four coordinates are truthy
      (so a coordinate of exactly 0.0 also counts as missing). */
  function CalculateDistance(a: Location, b: Location, haversine: Haversine): (d: Distance)
    ensures d.Infinite? <==> !HasCoordinates(a) || !HasCoordinates(b)
    ensures d.Km? ==> d.km == haversine(a.latitude.value, a.longitude.value, b.latitude.value, b.longitude.value)
  {
    if HasCoordinates(a) && HasCoordinates(b)
    then Km(haversine(a.latitude.value, a.longitude.value, b.latitude.value, b.longitude.value))
    else Infinite
  }

  ghost predicate Symmetric(haversine: Haversine)
  {
    forall a, b, c, d :: haversine(a, b, c, d) == haversine(c, d, a, b)
  }

  /** The sentinel check treats both points alike, so the distance is
      symmetric whenever the formula is. */
  lemma DistanceSymmetric(a: Location, b: Location, haversine: Haversine)
    requires Symmetric(haversine)
    ensures CalculateDistance(a, b, haversine) == CalculateDistance(b, a, haversine)
  {
  }

  /** The `(vendor_id, distance)` pairs the loop collects, in input order:
      every vendor whose distance is at most `maxDistance`. */
  function Within(target: Location, vendors: seq<(nat, Location)>, maxDistance: Distance, haversine: Haversine)
    : (r: seq<(nat, Distance)>)
    ensures |r| <= |vendors|
    ensures forall p :: p in r ==> AtMost(p.1, maxDistance)
    ensures forall p :: p in r ==>
      exists k :: 0 <= k < |vendors| && vendors[k].0 == p.0 && p.1 == CalculateDistance(target, vendors[k].1, haversine)
  {
    if vendors == [] then []
    else
      var rest := Within(target, vendors[..|vendors| - 1], maxDistance, haversine);
      var last := vendors[|vendors| - 1];
      var d := CalculateDistance(target, last.1, haversine);
      assert forall p :: p in rest ==>
        exists k :: 0 <= k < |vendors| && vendors[k].0 == p.0 && p.1 == CalculateDistance(target, vendors[k].1, haversine);
      rest + if AtMost(d, maxDistance) then [(last.0, d)] else []
  }

  /** Every vendor within range is collected. */
  lemma {:induction false} WithinContains(target: Location, vendors: seq<(nat, Location)>, maxDistance: Distance,
                                          haversine: Haversine, k: nat)
    requires k < |vendors|
    requires AtMost(CalculateDistance(target, vendors[k].1, haversine), maxDistance)
    ensures (vendors[k].0, CalculateDistance(target, vendors[k].1, haversine)) in Within(target, vendors, maxDistance, haversine)
    decreases |vendors|
  {
    if k < |vendors| - 1 {
      var init := vendors[..|vendors| - 1];
      assert init[k] == vendors[k];
      WithinContains(target, init, maxDistance, haversine, k);
    }
  }

  /** With a finite radius, only vendors with all coordinates present can be
      collected: the infinite sentinel never passes a finite bound. */
  lemma FiniteRadiusExcludesMissing(target: Location, vendors: seq<(nat, Location)>, maxKm: real,
                                    haversine: Haversine, p: (nat, Distance))
    requires p in Within(target, vendors, Km(maxKm), haversine)
    ensures p.1.Km? && HasCoordinates(target)
    ensures exists k :: 0 <= k < |vendors| && vendors[k].0 == p.0 && HasCoordinates(vendors[k].1)
  {
  }

  predicate SortedByDistance(s: seq<(nat, Distance)>)
  {
    forall i, j :: 0 <= i < j < |s| ==> AtMost(s[i].1, s[j].1)
  }

  /** Inserts `x` before the first element at least as far away, so `x`
      stays ahead of later entries with an equal distance. */
  function Insert(x: (nat, Distance), s: seq<(nat, Distance)>): (r: seq<(nat, Distance)>)
    ensures multiset(r) == multiset(s) + multiset{x}
  {
    if s == [] || AtMost(x.1, s[0].1) then [x] + s
    else
      assert s == [s[0]] + s[1..];
      [s[0]] + Insert(x, s[1..])
  }

  lemma {:induction false} InsertSorted(x: (nat, Distance), s: seq<(nat, Distance)>)
    requires SortedByDistance(s)
    ensures SortedByDistance(Insert(x, s))
  {
    if s != [] && !AtMost(x.1, s[0].1) {
      InsertSorted(x, s[1..]);
      var t := Insert(x, s[1..]);
      forall p | p in t
        ensures AtMost(s[0].1, p.1)
      {
        assert p in multiset(s[1..]) + multiset{x};
      }
    }
  }

  /** `sorted(distances, key=lambda x: x[1])`, written as insertion sort. */
  function SortByDistance(s: seq<(nat, Distance)>): (r: seq<(nat, Distance)>)
    ensures multiset(r) == multiset(s)
    ensures SortedByDistance(r)
  {
    if s == [] then []
    else
      assert s == [s[0]] + s[1..];
      InsertSorted(s[0], SortByDistance(s[1..]));
      Insert(s[0], SortByDistance(s[1..]))
  }

  /** The entries of `s` at distance `d`, in order. */
  function WithDistance(s: seq<(nat, Distance)>, d: Distance): seq<(nat, Distance)>
  {
    if s == [] then []
    else (if s[0].1 == d then [s[0]] else []) + WithDistance(s[1..], d)
  }

  lemma {:induction false} InsertStable(x: (nat, Distance), s: seq<(nat, Distance)>, d: Distance)
    ensures WithDistance(Insert(x, s), d) == (if x.1 == d then [x] else []) + WithDistance(s, d)
  {
    if s == [] || AtMost(x.1, s[0].1) {
      assert ([x] + s)[1..] == s;
    } else {
      InsertStable(x, s[1..], d);
      var r := [s[0]] + Insert(x, s[1..]);
      assert r[1..] == Insert(x, s[1..]);
    }
  }

  /** Stability: entries with the same distance keep their input order. */
  lemma {:induction false} SortStable(s: seq<(nat, Distance)>, d: Distance)
    ensures WithDistance(SortByDistance(s), d) == WithDistance(s, d)
  {
    if s != [] {
      SortStable(s[1..], d);
      InsertStable(s[0], SortByDistance(s[1..]), d);
    }
  }

  /** No vendor id occurs twice. */
  predicate DistinctIds<T>(s: seq<(nat, T)>)
  {
    forall i, j :: 0 <= i < j < |s| ==> s[i].0 != s[j].0
  }

  /** The collected pairs inherit distinct ids from the vendor list. */
  lemma {:induction false} WithinDistinct(target: Location, vendors: seq<(nat, Location)>, maxDistance: Distance,
                                          haversine: Haversine)
    requires DistinctIds(vendors)
    ensures DistinctIds(Within(target, vendors, maxDistance, haversine))
    decreases |vendors|
  {
    if vendors != [] {
      var init := vendors[..|vendors| - 1];
      var last := vendors[|vendors| - 1];
      assert DistinctIds(init);
      WithinDistinct(target, init, maxDistance, haversine);
      var rest := Within(target, init, maxDistance, haversine);
      forall p | p in rest
        ensures p.0 != last.0
      {
        var k :| 0 <= k < |init| && init[k].0 == p.0 && p.1 == CalculateDistance(target, init[k].1, haversine);
        assert init[k] == vendors[k];
      }
    }
  }

  /** Inserting a pair whose id is new keeps the ids distinct. */
  lemma {:induction false} InsertDistinct(x: (nat, Distance), s: seq<(nat, Distance)>)
    requires DistinctIds(s) && forall p :: p in s ==> p.0 != x.0
    ensures DistinctIds(Insert(x, s))
  {
    if s != [] && !AtMost(x.1, s[0].1) {
      assert DistinctIds(s[1..]);
      InsertDistinct(x, s[1..]);
      var t := Insert(x, s[1..]);
      forall p | p in t
        ensures p.0 != s[0].0
      {
        assert p in multiset(s[1..]) + multiset{x};
        if p != x {
          assert p in s[1..];
        }
      }
    } else {
      forall j | 0 < j < |[x] + s|
        ensures ([x] + s)[j].0 != x.0
      {
        assert ([x] + s)[j] in s;
      }
    }
  }

  /** Sorting keeps the ids distinct. */
  lemma {:induction false} SortDistinct(s: seq<(nat, Distance)>)
    requires DistinctIds(s)
    ensures DistinctIds(SortByDistance(s))
  {
    if s != [] {
      assert DistinctIds(s[1..]);
      SortDistinct(s[1..]);
      var t := SortByDistance(s[1..]);
      forall p | p in t
        ensures p.0 != s[0].0
      {
        assert p in multiset(s[1..]);
      }
      InsertDistinct(s[0], t);
    }
  }

  /** `find_nearby_vendors`: the loop collects the vendors within range, then
      the collected pairs are sorted by distance. */
  method FindNearbyVendors(target: Location, vendorLocations: seq<(nat, Location)>, maxDistance: Distance,
                           haversine: Haversine)
    returns (r: seq<(nat, Distance)>)
    ensures r == SortByDistance(Within(target, vendorLocations, maxDistance, haversine))
    ensures forall p :: p in r ==> AtMost(p.1, maxDistance)
    ensures SortedByDistance(r)
    ensures multiset(r) == multiset(Within(target, vendorLocations, maxDistance, haversine))
    ensures forall d :: WithDistance(r, d) == WithDistance(Within(target, vendorLocations, maxDistance, haversine), d)
  {
    var distances: seq<(nat, Distance)> := [];
    for i := 0 to |vendorLocations|
      invariant distances == Within(target, vendorLocations[..i], maxDistance, haversine)
    {
      assert vendorLocations[..i + 1][..i] == vendorLocations[..i];
      var (vendorId, vendorLocation) := vendorLocations[i];
      var distance := CalculateDistance(target, vendorLocation, haversine);
      if AtMost(distance, maxDistance) {
        distances := distances + [(vendorId, distance)];
      }
    }
    assert vendorLocations[..|vendorLocations|] == vendorLocations;
    r := SortByDistance(distances);
    forall p | p in r
      ensures AtMost(p.1, maxDistance)
    {
      assert p in multiset(distances);
    }
    forall d | true
      ensures WithDistance(r, d) == WithDistance(distances, d)
    {
      SortStable(distances, d);
    }
  }
}
