/**
 * Finite price bands and the sort the calculator applies to them before the
 * band walk (`finite.sort()` on a list of `(threshold, price)` tuples).
 */
module Bands {

  /** A finite band: usage up to `thresh` is billed at `price` per unit. */
  datatype Band = Band(thresh: real, price: real)

  /** Python's ordering of `(thresh, price)` tuples: by threshold, ties by price. */
  predicate Le(a: Band, b: Band) {
    a.thresh < b.thresh || (a.thresh == b.thresh && a.price <= b.price)
  }

  predicate Sorted(s: seq<Band>) {
    forall i, j :: 0 <= i < j < |s| ==> Le(s[i], s[j])
  }

  /** Inserts `b` into a sorted sequence, before the first element it does not follow. */
  function Insert(b: Band, s: seq<Band>): (r: seq<Band>)
    requires Sorted(s)
    ensures Sorted(r)
    ensures multiset(r) == multiset(s) + multiset{b}
  {
    if |s| == 0 then [b]
    else if Le(b, s[0]) then [b] + s
    else
      var rest := Insert(b, s[1..]);
      assert s == [s[0]] + s[1..];
      forall k | 0 <= k < |rest|
        ensures Le(s[0], rest[k])
      {
        assert rest[k] in multiset(rest);
        if rest[k] != b {
          var j :| 0 <= j < |s[1..]| && s[1..][j] == rest[k];
          assert Le(s[0], s[j + 1]);
        }
      }
      ConsSorted(s[0], rest);
      [s[0]] + rest
  }

  lemma ConsSorted(h: Band, t: seq<Band>)
    requires Sorted(t)
    requires forall k :: 0 <= k < |t| ==> Le(h, t[k])
    ensures Sorted([h] + t)
  {
    var r := [h] + t;
    forall i, j | 0 <= i < j < |r|
      ensures Le(r[i], r[j])
    {
      if i > 0 {
        assert r[i] == t[i - 1] && r[j] == t[j - 1];
      } else {
        assert r[j] == t[j - 1];
      }
    }
  }

  /** Sorts the bands into the ascending tuple order (an insertion sort). */
  function Sort(s: seq<Band>): (r: seq<Band>)
    ensures Sorted(r)
    ensures multiset(r) == multiset(s)
  {
    if |s| == 0 then []
    else
      assert s == [s[0]] + s[1..];
      Insert(s[0], Sort(s[1..]))
  }

  /** The first element of a non-empty sorted sequence is below every element. */
  lemma HeadIsLeast(s: seq<Band>, x: Band)
    requires Sorted(s) && x in multiset(s)
    ensures Le(s[0], x)
  {
    var i :| 0 <= i < |s| && s[i] == x;
    if i > 0 {
      assert Le(s[0], s[i]);
    }
  }

  /** The tuple order is total and antisymmetric, so a sorted arrangement is unique. */
  lemma {:induction false} SortedUnique(a: seq<Band>, b: seq<Band>)
    requires Sorted(a) && Sorted(b)
    requires multiset(a) == multiset(b)
    ensures a == b
  {
    if |a| == 0 {
      assert |b| == |multiset(b)| == 0;
    } else {
      assert |b| == |multiset(b)| == |multiset(a)| == |a|;
      assert a[0] in multiset(a);
      assert b[0] in multiset(b);
      HeadIsLeast(a, b[0]);
      HeadIsLeast(b, a[0]);
      assert a[0] == b[0];
      assert a == [a[0]] + a[1..];
      assert b == [b[0]] + b[1..];
      assert multiset(a[1..]) == multiset(a) - multiset{a[0]};
      assert multiset(b[1..]) == multiset(b) - multiset{b[0]};
      SortedUnique(a[1..], b[1..]);
    }
  }

  /** Sorting forgets the order the bands were supplied in. */
  lemma SortIgnoresOrder(a: seq<Band>, b: seq<Band>)
    requires multiset(a) == multiset(b)
    ensures Sort(a) == Sort(b)
  {
    SortedUnique(Sort(a), Sort(b));
  }

  /** Sorted bands have ascending thresholds. */
  lemma SortedThresholds(s: seq<Band>, i: int, j: int)
    requires Sorted(s) && 0 <= i <= j < |s|
    ensures s[i].thresh <= s[j].thresh
  {
    if i < j {
      assert Le(s[i], s[j]);
    }
  }
}
