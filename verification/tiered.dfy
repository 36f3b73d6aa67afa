/**
 * The tiered branch of the cost computation (app_streamlit_full.py lines
 * 78-104): the band walk over the sorted finite bands, then the fallback
 * price for whatever usage the bands did not absorb.
 */
module Tiered {
  import opened Results
  import opened Config
  import opened Bands
  import opened TierRows
  import opened BandWalk

  /** A module's price: the unit price reported as used (Python `None` or a number) and the cost. */
  datatype Priced = Priced(unitPrice: Option<real>, cost: real)

  /**
   * The price for usage beyond every finite threshold: the open-ended price
   * if a row supplied one, else the price of the last sorted band, else 0.
   */
  function Fallback(t: TierTable): (r: real)
    ensures t.openPrice.Some? ==> r == t.openPrice.value
    ensures r == 0.0 || Some(r) == t.openPrice || exists i :: 0 <= i < |t.bands| && r == t.bands[i].price
    ensures t.openPrice.None? && |t.bands| == 0 ==> r == 0.0
    ensures Sorted(t.bands) && t.openPrice.None? && |t.bands| > 0 ==>
      exists i :: 0 <= i < |t.bands| && r == t.bands[i].price && forall j :: 0 <= j < |t.bands| ==> Le(t.bands[j], t.bands[i])
  {
    if t.openPrice.Some? then t.openPrice.value
    else if |t.bands| > 0 then
      var top := |t.bands| - 1;
      assert Sorted(t.bands) ==> forall j :: 0 <= j < |t.bands| ==> Le(t.bands[j], t.bands[top]);
      t.bands[top].price
    else 0.0
  }

  /**
   * Lines 91-104 on a tier table: walk the bands from threshold 0 with the
   * whole usage, bill each portion at its band's price, and bill what is left
   * at the fallback price. The unit price reported is that of the last band
   * visited, or the fallback price once it has been applied.
   */
  function Apply(t: TierTable, usage: real): (r: Priced)
    ensures r.unitPrice.None? <==> usage <= 0.0
    ensures usage <= 0.0 ==> r.cost == 0.0
  {
    var w := Walk(t.bands, 0.0, usage);
    var walked := Dot(w.portions, t.bands);
    if w.left > 0.0 then
      Priced(Some(Fallback(t)), walked + Charge(w.left, Fallback(t)))
    else
      Priced(if |w.portions| == 0 then None else Some(t.bands[|w.portions| - 1].price), walked)
  }

  /**
   * The loop the source writes (lines 91-104): a running cost, a running
   * remainder and the last price applied, with an early exit once the
   * remainder is used up, then the fallback charge. It computes exactly what
   * `Apply` says.
   */
  method ApplyLoop(t: TierTable, usage: real) returns (unitPrice: Option<real>, cost: real)
    ensures Priced(unitPrice, cost) == Apply(t, usage)
  {
    var remaining;
    unitPrice, cost, remaining := WalkLoop(t.bands, usage);
    if remaining > 0.0 {
      var fallback := Fallback(t);
      cost := cost + Charge(remaining, fallback);
      unitPrice := Some(fallback);
    }
  }

  /** The band loop alone (lines 91-100): what it charges, the last price it applied, and what it leaves. */
  method WalkLoop(bands: seq<Band>, usage: real) returns (unitPrice: Option<real>, cost: real, remaining: real)
    ensures var w := Walk(bands, 0.0, usage);
      && remaining == w.left
      && cost == Dot(w.portions, bands)
      && unitPrice == if |w.portions| == 0 then None else Some(bands[|w.portions| - 1].price)
  {
    ghost var whole := Walk(bands, 0.0, usage);
    ghost var rest := whole;
    cost := 0.0;
    unitPrice := None;
    remaining := usage;
    var prev := 0.0;
    var i := 0;
    assert bands[0..] == bands;
    while i < |bands|
      invariant 0 <= i <= |bands|
      invariant rest == Walk(bands[i..], prev, remaining)
      invariant Tracks(bands, i, rest, cost, whole)
      invariant unitPrice == if i == 0 then None else Some(bands[i - 1].price)
    {
      if remaining <= 0.0 {
        break;
      }
      var span := bands[i].thresh - prev;
      var portion := Min(span, remaining);
      TracksStep(bands, i, prev, remaining, cost, whole);
      rest := Walk(bands[i + 1..], bands[i].thresh, remaining - portion);
      cost := cost + Charge(portion, bands[i].price);
      unitPrice := Some(bands[i].price);
      remaining := remaining - portion;
      prev := bands[i].thresh;
      i := i + 1;
    }
    assert rest.portions == [] && rest.left == remaining by {
      if i == |bands| {
        assert bands[i..] == [];
      }
    }
    TracksDone(bands, i, rest, cost, whole);
  }

  /** Once the rest of the walk takes no more portions, the loop's cost and count are the whole walk's. */
  lemma TracksDone(bands: seq<Band>, i: int, rest: Walked, cost: real, whole: Walked)
    requires 0 <= i <= |bands| && Tracks(bands, i, rest, cost, whole) && rest.portions == []
    ensures whole.left == rest.left && cost == Dot(whole.portions, bands) && |whole.portions| == i
  {
  }

  /**
   * After `i` passes of the loop, the rest of the walk completes the whole
   * walk, and `cost` is what the portions taken so far cost.
   */
  ghost predicate Tracks(bands: seq<Band>, i: int, rest: Walked, cost: real, whole: Walked)
    requires 0 <= i <= |bands|
  {
    && |rest.portions| <= |bands| - i
    && |whole.portions| <= |bands|
    && rest.left == whole.left
    && i + |rest.portions| == |whole.portions|
    && cost + Dot(rest.portions, bands[i..]) == Dot(whole.portions, bands)
  }

  /** One pass of the loop keeps the rest of the walk in step with the whole walk. */
  lemma TracksStep(bands: seq<Band>, i: int, prev: real, remaining: real, cost: real, whole: Walked)
    requires 0 <= i < |bands| && remaining > 0.0
    requires Tracks(bands, i, Walk(bands[i..], prev, remaining), cost, whole)
    ensures var portion := Min(bands[i].thresh - prev, remaining);
      Tracks(bands, i + 1, Walk(bands[i + 1..], bands[i].thresh, remaining - portion),
             cost + Charge(portion, bands[i].price), whole)
  {
    WalkUnfold(bands, i, prev, remaining);
  }

  /**
   * The shape every built table has (its bands are sorted), together with
   * thresholds that start at or above zero, the lower end of the first band.
   */
  predicate WellFormed(t: TierTable) {
    Sorted(t.bands) && (|t.bands| > 0 ==> 0.0 <= t.bands[0].thresh)
  }

  lemma WellFormedAscending(t: TierTable)
    requires WellFormed(t)
    ensures AscendingFrom(0.0, t.bands)
  {
    forall i | 0 <= i < |t.bands|
      ensures 0.0 <= t.bands[i].thresh
    {
      SortedThresholds(t.bands, 0, i);
    }
    forall i, j | 0 <= i < j < |t.bands|
      ensures t.bands[i].thresh <= t.bands[j].thresh
    {
      SortedThresholds(t.bands, i, j);
    }
  }

  /**
   * The piecewise-linear cost schedule: every band charges its price for the
   * part of `[0, usage]` that falls inside it, and the usage beyond the top
   * threshold is charged at the fallback price.
   */
  lemma ApplyClosedForm(t: TierTable, usage: real)
    requires WellFormed(t)
    ensures Apply(t, usage).cost
      == Accrued(t.bands, 0.0, usage) + Charge(Max(0.0, usage - Top(0.0, t.bands)), Fallback(t))
  {
    WellFormedAscending(t);
    WalkCost(t.bands, 0.0, usage);
    assert usage - 0.0 == usage;
    if usage > 0.0 {
      WalkLeftover(t.bands, 0.0, usage);
    } else {
      AccruedBelow(t.bands, 0.0, usage);
      assert Top(0.0, t.bands) >= 0.0;
    }
  }

  /**
   * With thresholds ascending from 0, the walk hands every band it visits a
   * non-negative portion no wider than the band, and the portions plus what is
   * left over add up to the usage.
   */
  lemma ApplyAllocates(t: TierTable, usage: real)
    requires WellFormed(t)
    ensures var w := Walk(t.bands, 0.0, usage);
      && Sum(w.portions) + w.left == usage
      && (forall i :: 0 <= i < |w.portions| ==> 0.0 <= w.portions[i] <= t.bands[i].thresh - LowerBound(0.0, t.bands, i))
  {
    WellFormedAscending(t);
    WalkConserves(t.bands, 0.0, usage);
    PortionsFromZero(t.bands, usage);
  }

  lemma PortionsFromZero(bands: seq<Band>, usage: real)
    requires AscendingFrom(0.0, bands)
    ensures var w := Walk(bands, 0.0, usage);
      forall i :: 0 <= i < |w.portions| ==> 0.0 <= w.portions[i]
  {
    assert usage - 0.0 == usage;
    PortionsWithinBands(bands, 0.0, usage);
  }

  /** The index of the first band whose threshold is at least `x`, if any. */
  function FirstCovering(bands: seq<Band>, x: real): (r: Option<nat>)
    ensures r.Some? ==> r.value < |bands| && x <= bands[r.value].thresh
    ensures r.Some? ==> forall j :: 0 <= j < r.value ==> bands[j].thresh < x
    ensures r.None? ==> forall j :: 0 <= j < |bands| ==> bands[j].thresh < x
  {
    if |bands| == 0 then None
    else if x <= bands[0].thresh then Some(0)
    else
      match FirstCovering(bands[1..], x)
      case None => None
      case Some(k) => Some(k + 1)
  }

  /**
   * The per-unit price the schedule charges at usage level `x`: the price of
   * the first band reaching up to `x`, or the fallback price beyond all bands.
   */
  function Rate(t: TierTable, x: real): real {
    match FirstCovering(t.bands, x)
    case Some(i) => t.bands[i].price
    case None => Fallback(t)
  }

  /**
   * The unit price reported for a positive usage is the marginal price: the
   * rate charged for the last unit of usage, which is the fallback price
   * exactly when the usage goes beyond the top threshold.
   */
  lemma MarginalPrice(t: TierTable, usage: real)
    requires WellFormed(t) && usage > 0.0
    ensures Apply(t, usage).unitPrice == Some(Rate(t, usage))
    ensures usage > Top(0.0, t.bands) ==> Apply(t, usage).unitPrice == Some(Fallback(t))
  {
    var bands := t.bands;
    WellFormedAscending(t);
    assert usage - 0.0 == usage;
    WalkLeftover(bands, 0.0, usage);
    if usage <= Top(0.0, bands) {
      LastVisitedCovers(bands, usage);
    } else {
      forall j | 0 <= j < |bands|
        ensures bands[j].thresh < usage
      {
        assert bands[j].thresh <= bands[|bands| - 1].thresh;
      }
    }
  }

  /**
   * When the usage ends within the bands, the last band the walk visits is
   * the first band reaching up to the usage.
   */
  lemma LastVisitedCovers(bands: seq<Band>, usage: real)
    requires AscendingFrom(0.0, bands) && 0.0 < usage <= Top(0.0, bands)
    ensures var k := |Walk(bands, 0.0, usage).portions|;
      0 < k && FirstCovering(bands, usage) == Some(k - 1)
  {
    assert usage - 0.0 == usage;
    WalkShares(bands, 0.0, usage);
    var k := |Walk(bands, 0.0, usage).portions|;
    assert LowerBound(0.0, bands, 0) < usage;
    assert usage <= bands[k - 1].thresh by {
      if k < |bands| {
        assert !(LowerBound(0.0, bands, k) < usage);
      }
    }
    forall j | 0 <= j < k - 1
      ensures bands[j].thresh < usage
    {
      assert LowerBound(0.0, bands, j + 1) < usage;
    }
    FirstCoveringIs(bands, usage, k - 1);
  }

  /** The band `i` reaching up to `x` after bands that all end below `x` is the first covering band. */
  lemma {:induction false} FirstCoveringIs(bands: seq<Band>, x: real, i: int)
    requires 0 <= i < |bands| && x <= bands[i].thresh
    requires forall j :: 0 <= j < i ==> bands[j].thresh < x
    ensures FirstCovering(bands, x) == Some(i)
  {
    if i > 0 {
      FirstCoveringIs(bands[1..], x, i - 1);
    }
  }

  /** The fallback price is one of the table's prices, or 0. */
  lemma FallbackWithin(t: TierTable, m: real)
    requires PricesWithin(t.bands, m) && 0.0 <= m
    requires t.openPrice.Some? ==> 0.0 <= t.openPrice.value <= m
    ensures 0.0 <= Fallback(t) <= m
  {
  }

  /**
   * With every price in `[0, m]`, the cost never decreases as usage grows and
   * grows by at most `m` per extra unit: the schedule is monotone and has no
   * jump at any threshold.
   */
  lemma CostBetween(t: TierTable, u1: real, u2: real, m: real)
    requires WellFormed(t) && 0.0 <= u1 <= u2
    requires PricesWithin(t.bands, m) && 0.0 <= m
    requires t.openPrice.Some? ==> 0.0 <= t.openPrice.value <= m
    ensures 0.0 <= Apply(t, u2).cost - Apply(t, u1).cost <= Charge(u2 - u1, m)
  {
    var bands := t.bands;
    var top := Top(0.0, bands);
    WellFormedAscending(t);
    assert 0.0 <= top;
    ApplyClosedForm(t, u1);
    ApplyClosedForm(t, u2);
    AccruedBetween(bands, 0.0, u1, u2, m);
    FallbackWithin(t, m);
    OverflowBetween(top, u1, u2, Fallback(t), m);
    var d := Share(0.0, top, u2) - Share(0.0, top, u1);
    var x := Max(0.0, u2 - top) - Max(0.0, u1 - top);
    assert d + x == u2 - u1;
    ChargeSum(d, x, m);
  }

  /**
   * The usage beyond the top threshold: below the top it is 0 and the rest is
   * the band share; charged at a price in `[0, m]`, it grows by at most `m`
   * per unit.
   */
  lemma OverflowBetween(top: real, u1: real, u2: real, fb: real, m: real)
    requires 0.0 <= top && 0.0 <= u1 <= u2 && 0.0 <= fb <= m
    ensures Share(0.0, top, u1) + Max(0.0, u1 - top) == u1
    ensures Share(0.0, top, u2) + Max(0.0, u2 - top) == u2
    ensures var x := Max(0.0, u2 - top) - Max(0.0, u1 - top);
      0.0 <= Charge(Max(0.0, u2 - top), fb) - Charge(Max(0.0, u1 - top), fb) <= Charge(x, m)
  {
    var x1 := Max(0.0, u1 - top);
    var x2 := Max(0.0, u2 - top);
    ChargeDiff(x2, x1, fb);
    ChargeBounds(x2 - x1, fb, m);
  }

  /** The largest price of the table, or 0. */
  function MaxPrice(t: TierTable): (m: real)
    decreases |t.bands|
    ensures 0.0 <= m
    ensures (forall i :: 0 <= i < |t.bands| ==> 0.0 <= t.bands[i].price) ==> PricesWithin(t.bands, m)
    ensures t.openPrice.Some? ==> t.openPrice.value <= m
  {
    var rest := if |t.bands| == 0 then 0.0 else MaxPrice(TierTable(t.bands[1..], t.openPrice));
    if |t.bands| > 0 && rest < t.bands[0].price then
      assert forall i :: 1 <= i < |t.bands| ==> t.bands[i] == t.bands[1..][i - 1];
      t.bands[0].price
    else if |t.bands| > 0 then
      assert forall i :: 1 <= i < |t.bands| ==> t.bands[i] == t.bands[1..][i - 1];
      rest
    else if t.openPrice.Some? && 0.0 < t.openPrice.value then t.openPrice.value
    else 0.0
  }

  /** With non-negative prices, more usage never costs less. */
  lemma CostMonotone(t: TierTable, u1: real, u2: real)
    requires WellFormed(t) && 0.0 <= u1 <= u2
    requires forall i :: 0 <= i < |t.bands| ==> 0.0 <= t.bands[i].price
    requires t.openPrice.Some? ==> 0.0 <= t.openPrice.value
    ensures Apply(t, u1).cost <= Apply(t, u2).cost
  {
    CostBetween(t, u1, u2, MaxPrice(t));
  }

  /**
   * The tiered branch of one module (lines 79-104): no tier rows at all leaves
   * cost 0 and no unit price; otherwise the rows are built into a table (which
   * raises if a price does not convert) and the table is applied to the usage.
   */
  function PriceTiered(rows: seq<RawRow>, usage: real): (r: Result<Priced, PricingError>)
    ensures |rows| == 0 ==> r == Success(Priced(None, 0.0))
    ensures r.Success? <==> PricesParse(rows)
    ensures r.Success? ==> (r.value.unitPrice.None? <==> |rows| == 0 || usage <= 0.0)
    ensures r.Success? && usage <= 0.0 ==> r.value.cost == 0.0
  {
    if |rows| == 0 then Success(Priced(None, 0.0))
    else
      var table :- BuildTable(rows);
      Success(Apply(table, usage))
  }

  /**
   * Reordering a module's tier rows changes neither the cost nor the unit
   * price, as long as the same open-ended row still comes last among the
   * open-ended rows.
   */
  lemma TieredIgnoresRowOrder(p: seq<RawRow>, q: seq<RawRow>, usage: real)
    requires multiset(p) == multiset(q)
    requires LastOf(OpenPrices(p)) == LastOf(OpenPrices(q))
    ensures PriceTiered(p, usage) == PriceTiered(q, usage)
  {
    assert |p| == |multiset(p)| == |multiset(q)| == |q|;
    RowOrderIrrelevant(p, q);
  }

  /** One band up to 100 at 10, open-ended price 5, usage 150: 100 units at 10 and 50 at 5. */
  lemma OpenEndedExample()
    ensures PriceTiered([RawRow(Some(100.0), Some(10.0)), RawRow(None, Some(5.0))], 150.0)
      == Success(Priced(Some(5.0), 1250.0))
  {
    var table := TierTable([Band(100.0, 10.0)], Some(5.0));
    OpenEndedTable();
    OpenEndedApply(table);
  }

  lemma OpenEndedTable()
    ensures BuildTable([RawRow(Some(100.0), Some(10.0)), RawRow(None, Some(5.0))])
      == Success(TierTable([Band(100.0, 10.0)], Some(5.0)))
  {
    var rows := [RawRow(Some(100.0), Some(10.0)), RawRow(None, Some(5.0))];
    assert rows[..1] == [rows[0]];
    assert Finites(rows) == [Band(100.0, 10.0)];
  }

  lemma OpenEndedApply(table: TierTable)
    requires table == TierTable([Band(100.0, 10.0)], Some(5.0))
    ensures Apply(table, 150.0) == Priced(Some(5.0), 1250.0)
  {
    assert Walk(table.bands, 0.0, 150.0) == Walked([100.0], 50.0);
    assert Dot([100.0], table.bands) == 1000.0;
    assert Charge(50.0, Fallback(table)) == 250.0;
  }

  /**
   * Rows up to -10 at 5 and up to 5 at 1: no threshold is checked, so the
   * first portion is -10 units. Usage 0 costs 0, usage 1 costs -50 + 11 = -39.
   */
  lemma NegativeThresholdExample()
    ensures PriceTiered([RawRow(Some(-10.0), Some(5.0)), RawRow(Some(5.0), Some(1.0))], 0.0)
      == Success(Priced(None, 0.0))
    ensures PriceTiered([RawRow(Some(-10.0), Some(5.0)), RawRow(Some(5.0), Some(1.0))], 1.0)
      == Success(Priced(Some(1.0), -39.0))
  {
    var table := TierTable([Band(-10.0, 5.0), Band(5.0, 1.0)], None);
    NegativeThresholdTable();
    NegativeThresholdApply(table);
  }

  lemma NegativeThresholdTable()
    ensures BuildTable([RawRow(Some(-10.0), Some(5.0)), RawRow(Some(5.0), Some(1.0))])
      == Success(TierTable([Band(-10.0, 5.0), Band(5.0, 1.0)], None))
  {
    var rows := [RawRow(Some(-10.0), Some(5.0)), RawRow(Some(5.0), Some(1.0))];
    assert rows[..1] == [rows[0]];
    assert Finites(rows) == [Band(-10.0, 5.0), Band(5.0, 1.0)];
    var bands := [Band(-10.0, 5.0), Band(5.0, 1.0)];
    assert Sorted(bands);
    SortedUnique(Sort(bands), bands);
  }

  lemma NegativeThresholdApply(table: TierTable)
    requires table == TierTable([Band(-10.0, 5.0), Band(5.0, 1.0)], None)
    ensures Apply(table, 0.0) == Priced(None, 0.0)
    ensures Apply(table, 1.0) == Priced(Some(1.0), -39.0)
  {
    var bands := table.bands;
    assert Walk(bands, 0.0, 0.0) == Walked([], 0.0);
    assert Walk(bands[1..], -10.0, 11.0) == Walked([11.0], 0.0);
    var w := Walk(bands, 0.0, 1.0);
    assert w == Walked([-10.0, 11.0], 0.0);
    assert Dot(w.portions, bands) == -39.0;
  }

  /** Bands up to 50 at 4 and up to 150 at 3, no open-ended row, usage 200: the last 50 units at 3. */
  lemma LastBandExample()
    ensures PriceTiered([RawRow(Some(150.0), Some(3.0)), RawRow(Some(50.0), Some(4.0))], 200.0)
      == Success(Priced(Some(3.0), 650.0))
  {
    var table := TierTable([Band(50.0, 4.0), Band(150.0, 3.0)], None);
    LastBandTable();
    LastBandApply(table);
  }

  lemma LastBandTable()
    ensures BuildTable([RawRow(Some(150.0), Some(3.0)), RawRow(Some(50.0), Some(4.0))])
      == Success(TierTable([Band(50.0, 4.0), Band(150.0, 3.0)], None))
  {
    var rows := [RawRow(Some(150.0), Some(3.0)), RawRow(Some(50.0), Some(4.0))];
    assert rows[..1] == [rows[0]];
    assert Finites(rows) == [Band(150.0, 3.0), Band(50.0, 4.0)];
    LastBandSort();
  }

  lemma LastBandSort()
    ensures Sort([Band(150.0, 3.0), Band(50.0, 4.0)]) == [Band(50.0, 4.0), Band(150.0, 3.0)]
  {
    var s := Sort([Band(150.0, 3.0), Band(50.0, 4.0)]);
    var bands := [Band(50.0, 4.0), Band(150.0, 3.0)];
    assert multiset(s) == multiset(bands);
    SortedUnique(s, bands);
  }

  lemma LastBandApply(table: TierTable)
    requires table == TierTable([Band(50.0, 4.0), Band(150.0, 3.0)], None)
    ensures Apply(table, 200.0) == Priced(Some(3.0), 650.0)
  {
    var bands := table.bands;
    assert Walk(bands[1..], 50.0, 150.0) == Walked([100.0], 50.0);
    var w := Walk(bands, 0.0, 200.0);
    assert w == Walked([50.0, 100.0], 50.0);
    assert Dot(w.portions, bands) == 500.0;
    assert Charge(50.0, Fallback(table)) == 150.0;
  }

  /**
   * Two rows up to 100, at 7 and at 5, no open-ended row, usage 150: the sort
   * puts the band at 7 last, so the 50 units beyond 100 are billed at 7.
   */
  lemma TiedTopExample()
    ensures PriceTiered([RawRow(Some(100.0), Some(7.0)), RawRow(Some(100.0), Some(5.0))], 150.0)
      == Success(Priced(Some(7.0), 850.0))
  {
    var table := TierTable([Band(100.0, 5.0), Band(100.0, 7.0)], None);
    TiedTopTable();
    TiedTopApply(table);
  }

  lemma TiedTopTable()
    ensures BuildTable([RawRow(Some(100.0), Some(7.0)), RawRow(Some(100.0), Some(5.0))])
      == Success(TierTable([Band(100.0, 5.0), Band(100.0, 7.0)], None))
  {
    var rows := [RawRow(Some(100.0), Some(7.0)), RawRow(Some(100.0), Some(5.0))];
    assert rows[..1] == [rows[0]];
    assert Finites(rows) == [Band(100.0, 7.0), Band(100.0, 5.0)];
    TiedTopSort();
  }

  lemma TiedTopSort()
    ensures Sort([Band(100.0, 7.0), Band(100.0, 5.0)]) == [Band(100.0, 5.0), Band(100.0, 7.0)]
  {
    var s := Sort([Band(100.0, 7.0), Band(100.0, 5.0)]);
    var bands := [Band(100.0, 5.0), Band(100.0, 7.0)];
    assert multiset(s) == multiset(bands);
    SortedUnique(s, bands);
  }

  lemma TiedTopApply(table: TierTable)
    requires table == TierTable([Band(100.0, 5.0), Band(100.0, 7.0)], None)
    ensures Apply(table, 150.0) == Priced(Some(7.0), 850.0)
  {
    var bands := table.bands;
    assert Walk(bands[1..], 100.0, 50.0) == Walked([0.0], 50.0);
    var w := Walk(bands, 0.0, 150.0);
    assert w == Walked([100.0, 0.0], 50.0);
    assert Dot(w.portions, bands) == 500.0;
    assert Charge(50.0, Fallback(table)) == 350.0;
  }

  /**
   * A module whose tier rows hold no negative number and whose usage is not
   * negative is never charged a negative amount.
   */
  lemma PriceTieredNonNegative(rows: seq<RawRow>, usage: real)
    requires RowsNonNegative(rows) && 0.0 <= usage
    requires PriceTiered(rows, usage).Success?
    ensures PriceTiered(rows, usage).value.cost >= 0.0
  {
    if |rows| > 0 {
      var t := BuildTable(rows).value;
      TableNonNegative(rows);
      CostMonotone(t, 0.0, usage);
    }
  }
}
