/** Sequence and set utilities shared by the query functions: filtering in
    order, distinctness, and the ids of a key set in ascending order. */
module Seqs {
  import opened Common

  /** The elements of `s` that satisfy `p`, in their original order (a
      `WHERE` clause applied to an ordered result). */
  function Filter<T(!new)>(s: seq<T>, p: T -> bool): (r: seq<T>)
    ensures |r| <= |s|
    ensures forall x :: x in r <==> x in s && p(x)
    decreases |s|
  {
    if s == [] then []
    else (if p(s[0]) then [s[0]] else []) + Filter(s[1..], p)
  }

  /** Filtering a sequence extended by one element extends the filtered
      sequence by that element exactly when it passes. */
  lemma {:induction false} FilterSnoc<T(!new)>(s: seq<T>, x: T, p: T -> bool)
    ensures Filter(s + [x], p) == Filter(s, p) + (if p(x) then [x] else [])
    decreases |s|
  {
    if s == [] {
      assert [x][1..] == [];
      assert s + [x] == [x];
    } else {
      assert (s + [x])[0] == s[0];
      assert (s + [x])[1..] == s[1..] + [x];
      FilterSnoc(s[1..], x, p);
    }
  }

  /** Every earlier element stands `before` every later one. */
  predicate Ordered<T>(s: seq<T>, before: (T, T) -> bool)
  {
    forall i, j :: 0 <= i < j < |s| ==> before(s[i], s[j])
  }

  /** Filtering keeps any order the input was in. */
  lemma {:induction false} FilterOrdered<T(!new)>(s: seq<T>, p: T -> bool, before: (T, T) -> bool)
    requires Ordered(s, before)
    ensures Ordered(Filter(s, p), before)
    decreases |s|
  {
    if s != [] {
      var t := s[1..];
      assert Ordered(t, before) by {
        forall i, j | 0 <= i < j < |t|
          ensures before(t[i], t[j])
        {
          assert t[i] == s[i + 1] && t[j] == s[j + 1];
        }
      }
      FilterOrdered(t, p, before);
      var rest := Filter(t, p);
      if p(s[0]) {
        var r := [s[0]] + rest;
        assert Filter(s, p) == r;
        forall i, j | 0 <= i < j < |r|
          ensures before(r[i], r[j])
        {
          if i == 0 {
            assert r[j] == rest[j - 1];
            assert rest[j - 1] in t;
            var k :| 0 <= k < |t| && t[k] == rest[j - 1];
            assert r[0] == s[0] && s[k + 1] == t[k];
            assert before(s[0], s[k + 1]);
          } else {
            assert r[i] == rest[i - 1] && r[j] == rest[j - 1];
          }
        }
      } else {
        assert Filter(s, p) == [] + rest == rest;
      }
    }
  }

  /** Reversing turns an ascending order into a descending one. */
  lemma ReverseOrdered<T>(s: seq<T>, before: (T, T) -> bool, after: (T, T) -> bool)
    requires Ordered(s, before)
    requires forall x, y :: before(x, y) ==> after(y, x)
    ensures Ordered(Reverse(s), after)
  {
    var r := Reverse(s);
    forall i, j | 0 <= i < j < |r|
      ensures after(r[i], r[j])
    {
      assert r[j] == s[|s| - 1 - j] && r[i] == s[|s| - 1 - i];
      assert before(r[j], r[i]);
    }
  }

  /** A page of an ordered sequence is ordered the same way. */
  lemma PageOrdered<T>(s: seq<T>, skip: nat, limit: nat, before: (T, T) -> bool)
    requires Ordered(s, before)
    ensures Ordered(Page(s, skip, limit), before)
  {
    var r := Page(s, skip, limit);
    forall i, j | 0 <= i < j < |r|
      ensures before(r[i], r[j])
    {
      assert r[i] == s[skip + i] && r[j] == s[skip + j];
    }
  }

  predicate Distinct<T(==)>(s: seq<T>)
  {
    forall i, j :: 0 <= i < j < |s| ==> s[i] != s[j]
  }

  function Elements<T(!new)>(s: seq<T>): (r: set<T>)
    ensures forall x :: x in r <==> x in s
  {
    set x | x in s
  }

  /** A sequence has at least as many entries as distinct elements, and
      exactly as many when no element repeats. */
  lemma {:induction false} ElementsCard<T(!new)>(s: seq<T>)
    ensures |Elements(s)| <= |s|
    ensures |Elements(s)| == |s| <==> Distinct(s)
    decreases |s|
  {
    if s != [] {
      var t := s[1..];
      ElementsCard(t);
      assert Elements(s) == Elements(t) + {s[0]};
      if s[0] in t {
        assert Elements(s) == Elements(t);
        var k :| 0 <= k < |t| && t[k] == s[0];
        assert s[k + 1] == s[0];
        assert !Distinct(s);
      } else {
        assert |Elements(s)| == |Elements(t)| + 1;
        if Distinct(s) {
          forall i, j | 0 <= i < j < |t|
            ensures t[i] != t[j]
          {
            assert t[i] == s[i + 1] && t[j] == s[j + 1];
          }
        }
        if Distinct(t) {
          forall i, j | 0 <= i < j < |s|
            ensures s[i] != s[j]
          {
            if i == 0 {
              assert s[j] == t[j - 1];
            } else {
              assert s[i] == t[i - 1] && s[j] == t[j - 1];
            }
          }
        }
      }
    }
  }

  /** A subset as large as its superset is the whole superset. */
  lemma SubsetCard<T>(a: set<T>, b: set<T>)
    requires a <= b && |a| == |b|
    ensures a == b
  {
    assert |b - a| == |b| - |a|;
  }

  /** The members of `ids` below `n`, in ascending order. */
  function IdsBelow(ids: set<nat>, n: nat): (r: seq<nat>)
    ensures forall k :: k in r <==> k in ids && k < n
    ensures forall i, j :: 0 <= i < j < |r| ==> r[i] < r[j]
    decreases n
  {
    if n == 0 then []
    else
      var init := IdsBelow(ids, n - 1);
      var last := if n - 1 in ids then [n - 1] else [];
      assert forall i :: 0 <= i < |init| ==> init[i] in init;
      assert forall x :: x in init ==> x < n - 1;
      assert forall i, j :: 0 <= i < j < |init + last| ==> (init + last)[i] < (init + last)[j] by {
        var r := init + last;
        forall i, j | 0 <= i < j < |r|
          ensures r[i] < r[j]
        {
          if j < |init| {
            assert r[i] == init[i] && r[j] == init[j];
          } else {
            assert r[i] == init[i] && r[j] == n - 1;
          }
        }
      }
      init + last
  }
}
