/**
 * The band walk (app_streamlit_full.py lines 91-100): the sorted finite bands
 * are visited in order, each taking `min(thresh - prev, remaining)` units of
 * the usage still to be billed, until nothing remains.
 */
module BandWalk {
  import opened Bands

  function Min(a: real, b: real): real {
    if a <= b then a else b
  }

  function Max(a: real, b: real): real {
    if a <= b then b else a
  }

  function Sum(s: seq<real>): real {
    if |s| == 0 then 0.0 else s[0] + Sum(s[1..])
  }

  /** What `units` units cost at `price` per unit. */
  function Charge(units: real, price: real): real {
    units * price
  }

  /** What the walked portions cost: each portion at the price of the band that took it. */
  function Dot(portions: seq<real>, bands: seq<Band>): real
    requires |portions| <= |bands|
  {
    if |portions| == 0 then 0.0
    else Charge(portions[0], bands[0].price) + Dot(portions[1..], bands[1..])
  }

  lemma DotCons(p: real, ps: seq<real>, bands: seq<Band>)
    requires |ps| < |bands|
    ensures Dot([p] + ps, bands) == Charge(p, bands[0].price) + Dot(ps, bands[1..])
  {
    assert ([p] + ps)[1..] == ps;
  }

  /** The lower end of band `i`: `prev` for the first band, the previous threshold after that. */
  function LowerBound(prev: real, bands: seq<Band>, i: int): real
    requires 0 <= i < |bands|
  {
    if i == 0 then prev else bands[i - 1].thresh
  }

  /** The highest threshold, or `prev` when there are no bands. */
  function Top(prev: real, bands: seq<Band>): real {
    if |bands| == 0 then prev else bands[|bands| - 1].thresh
  }

  /** The outcome of a walk: the units each visited band took, and the units left over. */
  datatype Walked = Walked(portions: seq<real>, left: real)

  /**
   * Walks `bands` starting from threshold `prev` with `remaining` units to
   * allocate. The walk stops before a band once nothing remains.
   */
  function Walk(bands: seq<Band>, prev: real, remaining: real): (w: Walked)
    ensures |w.portions| <= |bands|
    ensures |w.portions| < |bands| ==> w.left <= 0.0
    ensures w.portions == [] <==> remaining <= 0.0 || |bands| == 0
    ensures remaining <= 0.0 ==> w.left == remaining
  {
    if |bands| == 0 || remaining <= 0.0 then Walked([], remaining)
    else
      var portion := Min(bands[0].thresh - prev, remaining);
      var rest := Walk(bands[1..], bands[0].thresh, remaining - portion);
      Walked([portion] + rest.portions, rest.left)
  }

  /**
   * The walk allocates the usage exactly: the portions it hands out and what
   * it leaves over add up to what it started with, and no band takes more
   * than its width.
   */
  lemma {:induction false} WalkConserves(bands: seq<Band>, prev: real, remaining: real)
    ensures var w := Walk(bands, prev, remaining);
      && Sum(w.portions) + w.left == remaining
      && forall i :: 0 <= i < |w.portions| ==> w.portions[i] <= bands[i].thresh - LowerBound(prev, bands, i)
  {
    if |bands| > 0 && remaining > 0.0 {
      var portion := Min(bands[0].thresh - prev, remaining);
      var rest := Walk(bands[1..], bands[0].thresh, remaining - portion);
      WalkConserves(bands[1..], bands[0].thresh, remaining - portion);
      var portions := [portion] + rest.portions;
      assert portions[1..] == rest.portions;
      forall i | 1 <= i < |portions|
        ensures portions[i] <= bands[i].thresh - LowerBound(prev, bands, i)
      {
        assert portions[i] == rest.portions[i - 1];
        assert LowerBound(prev, bands, i) == LowerBound(bands[0].thresh, bands[1..], i - 1);
      }
    }
  }

  /** One step of the walk, taken on the suffix that starts at band `i`. */
  lemma WalkUnfold(bands: seq<Band>, i: int, prev: real, remaining: real)
    requires 0 <= i < |bands| && remaining > 0.0
    ensures var portion := Min(bands[i].thresh - prev, remaining);
      var next := Walk(bands[i + 1..], bands[i].thresh, remaining - portion);
      && Walk(bands[i..], prev, remaining) == Walked([portion] + next.portions, next.left)
      && Dot(Walk(bands[i..], prev, remaining).portions, bands[i..])
         == Charge(portion, bands[i].price) + Dot(next.portions, bands[i + 1..])
  {
    assert bands[i..][1..] == bands[i + 1..];
    var portion := Min(bands[i].thresh - prev, remaining);
    var next := Walk(bands[i + 1..], bands[i].thresh, remaining - portion);
    DotCons(portion, next.portions, bands[i..]);
  }

  /** The thresholds start at or above `prev` and never go down. */
  predicate AscendingFrom(prev: real, bands: seq<Band>) {
    && (forall i :: 0 <= i < |bands| ==> prev <= bands[i].thresh)
    && (forall i, j :: 0 <= i < j < |bands| ==> bands[i].thresh <= bands[j].thresh)
  }

  /** How much of the usage range `[0, u]` falls in the band `(lo, hi]`, for `lo <= hi`. */
  function Share(lo: real, hi: real, u: real): real {
    if u <= lo then 0.0 else Min(u, hi) - lo
  }

  /**
   * The cost of usage `u` over the finite bands alone, band by band: each band
   * charges its price for the part of the usage that falls inside it. Unlike
   * the walk, no band's share depends on what the others took.
   */
  function Accrued(bands: seq<Band>, prev: real, u: real): real {
    if |bands| == 0 then 0.0
    else Charge(Share(prev, bands[0].thresh, u), bands[0].price) + Accrued(bands[1..], bands[0].thresh, u)
  }

  lemma AscendingTail(prev: real, bands: seq<Band>)
    requires AscendingFrom(prev, bands) && |bands| > 0
    ensures AscendingFrom(bands[0].thresh, bands[1..])
  {
    assert forall i :: 0 <= i < |bands[1..]| ==> bands[1..][i] == bands[i + 1];
  }

  /** Usage at or below the lower end of the bands accrues nothing. */
  lemma {:induction false} AccruedBelow(bands: seq<Band>, prev: real, u: real)
    requires AscendingFrom(prev, bands) && u <= prev
    ensures Accrued(bands, prev, u) == 0.0
  {
    if |bands| > 0 {
      AscendingTail(prev, bands);
      AccruedBelow(bands[1..], bands[0].thresh, u);
    }
  }

  /**
   * One step of the walk on ascending bands with `u - prev > 0` units: the
   * first band takes its share of the usage, and the rest of the walk starts
   * from its threshold with `u - thresh` units (or with nothing, when the usage
   * ends inside the first band).
   */
  lemma WalkStep(bands: seq<Band>, prev: real, u: real)
    requires AscendingFrom(prev, bands) && |bands| > 0 && u > prev
    ensures var t0 := bands[0].thresh;
      var rest := if u >= t0 then Walk(bands[1..], t0, u - t0) else Walked([], 0.0);
      Walk(bands, prev, u - prev) == Walked([Share(prev, t0, u)] + rest.portions, rest.left)
  {
    var t0 := bands[0].thresh;
    var portion := Min(t0 - prev, u - prev);
    assert portion == Share(prev, t0, u);
    if u >= t0 {
      assert u - prev - portion == u - t0;
    } else {
      assert u - prev - portion == 0.0;
    }
  }

  lemma LowerBoundTail(prev: real, bands: seq<Band>, i: int)
    requires 1 <= i < |bands|
    ensures LowerBound(prev, bands, i) == LowerBound(bands[0].thresh, bands[1..], i - 1)
  {
  }

  /**
   * On ascending bands, the walk that starts with `u - prev` units gives each
   * band it visits exactly that band's share of the usage, and visits exactly
   * the bands whose lower end lies below `u`.
   */
  lemma {:induction false} WalkShares(bands: seq<Band>, prev: real, u: real)
    requires AscendingFrom(prev, bands)
    ensures var w := Walk(bands, prev, u - prev);
      && (forall i :: 0 <= i < |w.portions| ==> w.portions[i] == Share(LowerBound(prev, bands, i), bands[i].thresh, u))
      && (forall i :: 0 <= i < |bands| ==> (i < |w.portions| <==> LowerBound(prev, bands, i) < u))
  {
    if |bands| > 0 && u > prev {
      var t0 := bands[0].thresh;
      var w := Walk(bands, prev, u - prev);
      WalkStep(bands, prev, u);
      AscendingTail(prev, bands);
      if u >= t0 {
        WalkShares(bands[1..], t0, u);
        var rest := Walk(bands[1..], t0, u - t0);
        forall i | 1 <= i < |bands|
          ensures (i < |w.portions| <==> LowerBound(prev, bands, i) < u)
          ensures i < |w.portions| ==> w.portions[i] == Share(LowerBound(prev, bands, i), bands[i].thresh, u)
        {
          LowerBoundTail(prev, bands, i);
          if i < |w.portions| {
            assert w.portions[i] == rest.portions[i - 1];
          }
        }
      } else {
        forall i | 1 <= i < |bands|
          ensures u < LowerBound(prev, bands, i)
        {
          assert bands[0].thresh <= bands[i - 1].thresh;
        }
      }
    }
  }

  /**
   * On ascending bands, what the walk leaves over is exactly the usage beyond
   * the highest threshold.
   */
  lemma {:induction false} WalkLeftover(bands: seq<Band>, prev: real, u: real)
    requires AscendingFrom(prev, bands) && u > prev
    ensures Walk(bands, prev, u - prev).left == Max(0.0, u - Top(prev, bands))
  {
    if |bands| > 0 {
      var t0 := bands[0].thresh;
      WalkStep(bands, prev, u);
      AscendingTail(prev, bands);
      if u > t0 {
        WalkLeftover(bands[1..], t0, u);
        if |bands| == 1 {
        } else {
          assert Top(prev, bands) == Top(t0, bands[1..]);
        }
      } else {
        assert t0 <= Top(prev, bands);
      }
    }
  }

  /**
   * On ascending bands, the walked portions cost what the band-by-band
   * accrual says.
   */
  lemma {:induction false} WalkCost(bands: seq<Band>, prev: real, u: real)
    requires AscendingFrom(prev, bands)
    ensures Dot(Walk(bands, prev, u - prev).portions, bands) == Accrued(bands, prev, u)
  {
    if |bands| > 0 {
      if u <= prev {
        AccruedBelow(bands, prev, u);
      } else {
        var t0 := bands[0].thresh;
        var w := Walk(bands, prev, u - prev);
        WalkStep(bands, prev, u);
        AscendingTail(prev, bands);
        assert w.portions[1..] == (if u >= t0 then Walk(bands[1..], t0, u - t0) else Walked([], 0.0)).portions;
        if u >= t0 {
          WalkCost(bands[1..], t0, u);
        } else {
          AccruedBelow(bands[1..], t0, u);
        }
      }
    }
  }

  /**
   * On ascending bands the walk never takes a negative portion, and every
   * portion fits the width of its band.
   */
  lemma PortionsWithinBands(bands: seq<Band>, prev: real, u: real)
    requires AscendingFrom(prev, bands)
    ensures var w := Walk(bands, prev, u - prev);
      forall i :: 0 <= i < |w.portions| ==> 0.0 <= w.portions[i] <= bands[i].thresh - LowerBound(prev, bands, i)
  {
    WalkShares(bands, prev, u);
    var w := Walk(bands, prev, u - prev);
    forall i | 0 <= i < |w.portions|
      ensures 0.0 <= w.portions[i]
    {
      if i > 0 {
        assert bands[i - 1].thresh <= bands[i].thresh;
      }
    }
  }

  /** A band's share never shrinks as usage grows, and grows no faster than usage. */
  lemma ShareGrows(lo: real, hi: real, u1: real, u2: real)
    requires lo <= hi && u1 <= u2
    ensures 0.0 <= Share(lo, hi, u1)
    ensures 0.0 <= Share(lo, hi, u2) - Share(lo, hi, u1) <= u2 - u1
  {
  }

  /** Splitting a band at `mid` splits its share. */
  lemma ShareSplit(lo: real, mid: real, hi: real, u: real)
    requires lo <= mid <= hi
    ensures Share(lo, hi, u) == Share(lo, mid, u) + Share(mid, hi, u)
  {
  }

  /** Scaling a non-negative amount by a price in `[0, m]`. */
  lemma ChargeBounds(d: real, p: real, m: real)
    requires 0.0 <= d && 0.0 <= p <= m
    ensures 0.0 <= Charge(d, p) <= Charge(d, m)
  {
    assert d * p <= d * m by {
      assert d * (m - p) >= 0.0;
    }
  }

  lemma ChargeSum(a: real, b: real, p: real)
    ensures Charge(a, p) + Charge(b, p) == Charge(a + b, p)
  {
  }

  lemma ChargeDiff(a: real, b: real, p: real)
    ensures Charge(a, p) - Charge(b, p) == Charge(a - b, p)
  {
  }

  /** Every band price lies in `[0, m]`. */
  predicate PricesWithin(bands: seq<Band>, m: real) {
    forall i :: 0 <= i < |bands| ==> 0.0 <= bands[i].price <= m
  }

  /**
   * With prices in `[0, m]`, raising the usage from `u1` to `u2` raises the
   * accrued cost by at least nothing and at most `m` per unit of the extra
   * usage that falls below the top threshold.
   */
  lemma {:induction false} AccruedBetween(bands: seq<Band>, prev: real, u1: real, u2: real, m: real)
    requires AscendingFrom(prev, bands) && PricesWithin(bands, m) && u1 <= u2
    ensures var top := Top(prev, bands);
      0.0 <= Accrued(bands, prev, u2) - Accrued(bands, prev, u1)
          <= Charge(Share(prev, top, u2) - Share(prev, top, u1), m)
  {
    if |bands| > 0 {
      var t0 := bands[0].thresh;
      var top := Top(prev, bands);
      var rest := bands[1..];
      AscendingTail(prev, bands);
      assert PricesWithin(rest, m) by {
        assert forall i :: 0 <= i < |rest| ==> rest[i] == bands[i + 1];
      }
      assert Top(t0, rest) == top;
      assert t0 <= top;
      AccruedBetween(rest, t0, u1, u2, m);
      ShareGrows(prev, t0, u1, u2);
      var d := Share(prev, t0, u2) - Share(prev, t0, u1);
      ChargeBounds(d, bands[0].price, m);
      ChargeDiff(Share(prev, t0, u2), Share(prev, t0, u1), bands[0].price);
      ShareSplit(prev, t0, top, u1);
      ShareSplit(prev, t0, top, u2);
      var d' := Share(t0, top, u2) - Share(t0, top, u1);
      assert Charge(d, m) + Charge(d', m) == Charge(d + d', m);
    }
  }
}
