/**
 * The per-module cost computation and the estimate over all modules
 * (app_streamlit_full.py lines 44-117): each module's pricing type selects
 * the flat or the tiered branch, the result becomes a cost record, and the
 * records' costs are totalled.
 */
module Engine {
  import opened Results
  import opened Config
  import opened Text
  import opened TierRows
  import opened BandWalk
  import opened Tiered

  /**
   * The flat branch (lines 75-77). `flatPrice` is the module's entry in the
   * flat-price table, if it has one; a missing entry reads as 0.
   */
  function PriceFlat(flatPrice: Option<real>, usage: real): (r: Priced)
    ensures r.unitPrice.Some?
    ensures r.cost == Charge(usage, r.unitPrice.value)
    ensures flatPrice.Some? ==> r.unitPrice == flatPrice
    ensures flatPrice.None? ==> r == Priced(Some(0.0), 0.0)
  {
    var unit := flatPrice.GetOr(0.0);
    Priced(Some(unit), Charge(usage, unit))
  }

  /** A flat cost is linear in the usage. */
  lemma FlatLinear(flatPrice: Option<real>, u1: real, u2: real)
    ensures PriceFlat(flatPrice, u1 + u2).cost == PriceFlat(flatPrice, u1).cost + PriceFlat(flatPrice, u2).cost
  {
    var unit := flatPrice.GetOr(0.0);
    assert (u1 + u2) * unit == u1 * unit + u2 * unit;
  }

  /**
   * The unit price a flat module is set up with (lines 53 and 63): an empty
   * cell reads as 0, a number as itself, and text that `float()` rejects
   * raises.
   */
  function FlatPriceOf(cell: PriceCell): (r: Result<real, PricingError>)
    ensures r.Failure? <==> cell.Text?
    ensures r.Success? ==> r.value == (if cell.Number? then cell.value else 0.0)
  {
    match cell
    case Blank => Success(0.0)
    case Number(v) => Success(v)
    case Text => Failure(MalformedUnitPrice)
  }

  /** How the set-up loop reads a pricing-type cell (line 46): stripped, then lower-cased. */
  function Normalize(typeLabel: string): (r: string)
    ensures |r| <= |typeLabel|
    ensures |r| > 0 ==> !IsSpace(r[0]) && !IsSpace(r[|r| - 1])
    ensures forall i :: 0 <= i < |r| ==> !('A' <= r[i] <= 'Z')
    ensures exists lo :: CutsOnlySpace(Lower(typeLabel), r, lo)
  {
    LowerStripped(typeLabel);
    LowerStripCuts(typeLabel);
    Lower(Strip(typeLabel))
  }

  /** A module's tier rows (line 65): the rows of the tier table that name it, in table order. */
  function TiersOf(tiers: seq<TierRecord>, name: string): (r: seq<RawRow>)
    ensures forall row :: row in r <==> TierRecord(name, row) in tiers
    ensures forall row :: multiset(r)[row] == multiset(tiers)[TierRecord(name, row)]
  {
    if |tiers| == 0 then []
    else
      var rest := TiersOf(tiers[1..], name);
      assert tiers == [tiers[0]] + tiers[1..];
      assert forall x :: x in tiers <==> x == tiers[0] || x in tiers[1..];
      if tiers[0].owner == name then [tiers[0].row] + rest else rest
  }

  /** One step of the filter: the first record's row, if the module owns it, then the rest. */
  lemma TiersOfCons(tiers: seq<TierRecord>, name: string)
    requires |tiers| > 0
    ensures TiersOf(tiers, name) == (if tiers[0].owner == name then [tiers[0].row] else []) + TiersOf(tiers[1..], name)
  {
  }

  /** Filtering keeps table order: a record added at the end adds its row at the end, if the module owns it. */
  lemma {:induction false} TiersOfSnoc(tiers: seq<TierRecord>, x: TierRecord, name: string)
    ensures TiersOf(tiers + [x], name) == TiersOf(tiers, name) + (if x.owner == name then [x.row] else [])
  {
    var last := if x.owner == name then [x.row] else [];
    if |tiers| > 0 {
      var rest := TiersOf(tiers[1..], name);
      assert (tiers + [x])[0] == tiers[0];
      assert (tiers + [x])[1..] == tiers[1..] + [x];
      TiersOfCons(tiers + [x], name);
      TiersOfCons(tiers, name);
      TiersOfSnoc(tiers[1..], x, name);
      if tiers[0].owner == name {
        ConsAppend(tiers[0].row, rest, last);
      } else {
        assert [] + (rest + last) == ([] + rest) + last;
      }
    } else {
      assert tiers + [x] == [x];
    }
  }

  /** Putting an element in front commutes with appending at the end. */
  lemma ConsAppend<T>(a: T, s: seq<T>, t: seq<T>)
    ensures [a] + (s + t) == ([a] + s) + t
  {
  }

  /**
   * The open-ended price a module's tier rows give is that of the last
   * open-ended record the module owns in the tier table: appending a record
   * of another module, or one that is not open-ended, leaves it alone; an
   * open-ended record of the module replaces it.
   */
  lemma TiersOfLastOpen(tiers: seq<TierRecord>, x: TierRecord, name: string)
    ensures Kind(x.row).OpenRow? && x.owner == name ==>
      LastOf(OpenPrices(TiersOf(tiers + [x], name))) == Some(Kind(x.row).price)
    ensures !(Kind(x.row).OpenRow? && x.owner == name) ==>
      LastOf(OpenPrices(TiersOf(tiers + [x], name))) == LastOf(OpenPrices(TiersOf(tiers, name)))
  {
    TiersOfSnoc(tiers, x, name);
    var rows := TiersOf(tiers, name);
    if x.owner == name {
      OpenPricesSnoc(rows, x.row);
    } else {
      assert rows + [] == rows;
    }
  }

  /**
   * What the set-up loop stores for one module (lines 61-65): an entry in the
   * flat-price table, an entry in the tier table, or neither.
   */
  datatype Setup = Setup(flatPrice: Option<real>, tierRows: Option<seq<RawRow>>)

  function SetUp(m: ModuleRow, tiers: seq<TierRecord>): (r: Result<Setup, PricingError>)
    ensures r.Failure? <==> Normalize(m.typeLabel) == "flat" && m.unitPrice.Text?
    ensures r.Success? ==> (r.value.flatPrice.Some? <==> Normalize(m.typeLabel) == "flat")
    ensures r.Success? ==> (r.value.tierRows.Some? <==> Normalize(m.typeLabel) == "tiered")
    ensures r.Success? && r.value.tierRows.Some? ==> r.value.tierRows.value == TiersOf(tiers, m.name)
    ensures r.Success? && r.value.flatPrice.Some? ==>
      r.value.flatPrice.value == (if m.unitPrice.Number? then m.unitPrice.value else 0.0)
  {
    var kind := Normalize(m.typeLabel);
    if kind == "flat" then
      var p :- FlatPriceOf(m.unitPrice);
      Success(Setup(Some(p), None))
    else if kind == "tiered" then Success(Setup(None, Some(TiersOf(tiers, m.name))))
    else Success(Setup(None, None))
  }

  /**
   * The cost of one module (lines 70-104), with the branch chosen on `kind`:
   * "flat" and "tiered" select a branch, any other label leaves cost 0 and no
   * unit price. A module without a set-up entry reads its defaults: flat
   * price 0, no tier rows.
   */
  function PriceModule(kind: string, s: Setup, usage: real): (r: Result<Priced, PricingError>)
    ensures kind != "flat" && kind != "tiered" ==> r == Success(Priced(None, 0.0))
    ensures kind == "flat" ==> r.Success? && r.value.unitPrice.Some? && r.value.cost == Charge(usage, r.value.unitPrice.value)
    ensures kind == "tiered" && s.tierRows.None? ==> r == Success(Priced(None, 0.0))
    ensures kind == "flat" ==> r == Success(PriceFlat(s.flatPrice, usage))
    ensures kind == "tiered" && s.tierRows.Some? ==> r == PriceTiered(s.tierRows.value, usage)
  {
    if kind == "flat" then Success(PriceFlat(s.flatPrice, usage))
    else if kind == "tiered" then PriceTiered(s.tierRows.GetOr([]), usage)
    else Success(Priced(None, 0.0))
  }

  /** One row of the cost breakdown (lines 106-113); the display category is not modelled. */
  datatype CostRecord = CostRecord(name: string, usage: int, pricingType: string, unitPrice: Option<real>, cost: real)

  function RecordWith(kind: string, m: ModuleRow, s: Setup, usage: int): (r: Result<CostRecord, PricingError>)
    ensures r.Success? ==> r.value.name == m.name && r.value.usage == usage && r.value.pricingType == kind
  {
    var priced :- PriceModule(kind, s, usage as real);
    Success(CostRecord(m.name, usage, kind, priced.unitPrice, priced.cost))
  }

  /** The cost record as the source writes it: the branch is chosen on the lower-cased, unstripped label (line 70). */
  function RecordAsWritten(m: ModuleRow, s: Setup, usage: int): (r: Result<CostRecord, PricingError>)
    ensures r.Success? ==> r.value.name == m.name && r.value.usage == usage && r.value.pricingType == Lower(m.typeLabel)
    ensures Lower(m.typeLabel) != "flat" && Lower(m.typeLabel) != "tiered" ==>
      r == Success(CostRecord(m.name, usage, Lower(m.typeLabel), None, 0.0))
    ensures Lower(m.typeLabel) == "flat" ==>
      (r.Success? && r.value.unitPrice == Some(s.flatPrice.GetOr(0.0)) &&
       r.value.cost == Charge(usage as real, s.flatPrice.GetOr(0.0)))
    ensures Lower(m.typeLabel) == "tiered" ==>
      var p := PriceTiered(s.tierRows.GetOr([]), usage as real);
      (r.Success? <==> p.Success?) &&
      (r.Success? ==> r.value.unitPrice == p.value.unitPrice && r.value.cost == p.value.cost)
  {
    RecordWith(Lower(m.typeLabel), m, s, usage)
  }

  /** The cost record with the branch chosen on the same normalised label the set-up loop uses. */
  function Record(m: ModuleRow, s: Setup, usage: int): (r: Result<CostRecord, PricingError>)
    ensures r.Success? ==> r.value.name == m.name && r.value.usage == usage && r.value.pricingType == Normalize(m.typeLabel)
    ensures Normalize(m.typeLabel) != "flat" && Normalize(m.typeLabel) != "tiered" ==>
      r == Success(CostRecord(m.name, usage, Normalize(m.typeLabel), None, 0.0))
    ensures Normalize(m.typeLabel) == "flat" ==>
      (r.Success? && r.value.unitPrice == Some(s.flatPrice.GetOr(0.0)) &&
       r.value.cost == Charge(usage as real, s.flatPrice.GetOr(0.0)))
    ensures Normalize(m.typeLabel) == "tiered" ==>
      var p := PriceTiered(s.tierRows.GetOr([]), usage as real);
      (r.Success? <==> p.Success?) &&
      (r.Success? ==> r.value.unitPrice == p.value.unitPrice && r.value.cost == p.value.cost)
  {
    RecordWith(Normalize(m.typeLabel), m, s, usage)
  }

  /** No two module rows share a name (the usage sliders are keyed by name). */
  predicate DistinctNames(modules: seq<ModuleRow>) {
    forall i, j :: 0 <= i < j < |modules| ==> modules[i].name != modules[j].name
  }

  function SetUpSteps(modules: seq<ModuleRow>, tiers: seq<TierRecord>): (r: seq<Result<Setup, PricingError>>)
    ensures |r| == |modules| && forall i :: 0 <= i < |modules| ==> r[i] == SetUp(modules[i], tiers)
  {
    seq(|modules|, i requires 0 <= i < |modules| => SetUp(modules[i], tiers))
  }

  function RecordSteps(modules: seq<ModuleRow>, setups: seq<Setup>, usages: seq<int>, norm: string -> string)
    : (r: seq<Result<CostRecord, PricingError>>)
    requires |setups| == |modules| == |usages|
    ensures |r| == |modules| && forall i :: 0 <= i < |modules| ==> r[i] == RecordBy(norm, modules[i], setups[i], usages[i])
  {
    seq(|modules|, i requires 0 <= i < |modules| => RecordBy(norm, modules[i], setups[i], usages[i]))
  }

  /** The set-up loop over all modules (lines 44-65); the first price cell that does not convert raises. */
  function SetUpAll(modules: seq<ModuleRow>, tiers: seq<TierRecord>): (r: Result<seq<Setup>, PricingError>)
    ensures r.Success? <==> forall i :: 0 <= i < |modules| ==> SetUp(modules[i], tiers).Success?
    ensures r.Success? ==> |r.value| == |modules|
    ensures r.Success? ==> forall i :: 0 <= i < |modules| ==> r.value[i] == SetUp(modules[i], tiers).value
  {
    Collect(SetUpSteps(modules, tiers))
  }

  /** The cost loop over all modules (lines 68-113), with the branch chosen on `norm` of each pricing type. */
  function CostAll(modules: seq<ModuleRow>, setups: seq<Setup>, usages: seq<int>, norm: string -> string)
    : (r: Result<seq<CostRecord>, PricingError>)
    requires |setups| == |modules| == |usages|
    ensures r.Success? <==> forall i :: 0 <= i < |modules| ==> RecordBy(norm, modules[i], setups[i], usages[i]).Success?
    ensures r.Success? ==> |r.value| == |modules|
    ensures r.Success? ==> forall i :: 0 <= i < |modules| ==> r.value[i] == RecordBy(norm, modules[i], setups[i], usages[i]).value
  {
    Collect(RecordSteps(modules, setups, usages, norm))
  }

  /** A module's cost record with the branch chosen on `norm` of its pricing type. */
  function RecordBy(norm: string -> string, m: ModuleRow, s: Setup, usage: int): Result<CostRecord, PricingError> {
    RecordWith(norm(m.typeLabel), m, s, usage)
  }

  /** The cost breakdown as the source computes it. */
  function EstimateAsWritten(modules: seq<ModuleRow>, tiers: seq<TierRecord>, usages: seq<int>)
    : (r: Result<seq<CostRecord>, PricingError>)
    requires |usages| == |modules| && DistinctNames(modules)
    ensures r.Success? <==> forall i :: 0 <= i < |modules| ==>
      SetUp(modules[i], tiers).Success? && RecordAsWritten(modules[i], SetUp(modules[i], tiers).value, usages[i]).Success?
    ensures r.Success? ==> |r.value| == |modules|
    ensures r.Success? ==> forall i :: 0 <= i < |modules| ==>
      SetUp(modules[i], tiers).Success? &&
      RecordAsWritten(modules[i], SetUp(modules[i], tiers).value, usages[i]) == Success(r.value[i])
    ensures r.Success? ==> forall i :: 0 <= i < |modules| ==>
      r.value[i].name == modules[i].name && r.value[i].usage == usages[i] &&
      r.value[i].pricingType == Lower(modules[i].typeLabel)
  {
    var setups :- SetUpAll(modules, tiers);
    AsWrittenCosts(modules, tiers, usages, setups);
    CostAll(modules, setups, usages, Lower)
  }

  /** Once every module is set up, the as-written cost loop records each module by `RecordAsWritten`. */
  lemma AsWrittenCosts(modules: seq<ModuleRow>, tiers: seq<TierRecord>, usages: seq<int>, setups: seq<Setup>)
    requires |usages| == |modules| && SetUpAll(modules, tiers) == Success(setups)
    ensures var r := CostAll(modules, setups, usages, Lower);
      && (r.Success? <==> forall i :: 0 <= i < |modules| ==>
            SetUp(modules[i], tiers).Success? && RecordAsWritten(modules[i], SetUp(modules[i], tiers).value, usages[i]).Success?)
      && (r.Success? ==> |r.value| == |modules|)
      && (r.Success? ==> forall i :: 0 <= i < |modules| ==>
            SetUp(modules[i], tiers).Success? &&
            RecordAsWritten(modules[i], SetUp(modules[i], tiers).value, usages[i]) == Success(r.value[i]))
  {
    forall i | 0 <= i < |modules|
      ensures SetUp(modules[i], tiers).Success? && setups[i] == SetUp(modules[i], tiers).value
      ensures RecordBy(Lower, modules[i], setups[i], usages[i]) == RecordAsWritten(modules[i], setups[i], usages[i])
    {
    }
  }

  /**
   * The cost breakdown with one label normalisation in both loops: one record
   * per module, in module order, each carrying the module's own usage.
   */
  function Estimate(modules: seq<ModuleRow>, tiers: seq<TierRecord>, usages: seq<int>)
    : (r: Result<seq<CostRecord>, PricingError>)
    requires |usages| == |modules| && DistinctNames(modules)
    ensures r.Success? ==> |r.value| == |modules|
    ensures r.Success? ==> forall i :: 0 <= i < |modules| ==>
      r.value[i].name == modules[i].name && r.value[i].usage == usages[i]
  {
    var setups :- SetUpAll(modules, tiers);
    CostAll(modules, setups, usages, Normalize)
  }

  /** The sum of the records' costs. */
  function CostSum(records: seq<CostRecord>): real {
    if |records| == 0 then 0.0 else records[0].cost + CostSum(records[1..])
  }

  /**
   * The total cost shown above the breakdown (lines 116-117). An empty
   * breakdown makes a frame without a cost column, and selecting the column
   * raises.
   */
  function Total(records: seq<CostRecord>): (r: Result<real, PricingError>)
    ensures r.Failure? <==> |records| == 0
    ensures r.Failure? ==> r.error == NoCostColumn
    ensures r.Success? ==> r.value == CostSum(records)
  {
    if |records| == 0 then Failure(NoCostColumn) else Success(CostSum(records))
  }

  /** A module that raises neither at set-up nor when it is costed. */
  predicate ModuleOk(m: ModuleRow, tiers: seq<TierRecord>) {
    (Normalize(m.typeLabel) == "flat" ==> !m.unitPrice.Text?) &&
    (Normalize(m.typeLabel) == "tiered" ==> PricesParse(TiersOf(tiers, m.name)))
  }

  lemma RecordOk(m: ModuleRow, tiers: seq<TierRecord>, usage: int)
    requires SetUp(m, tiers).Success?
    ensures Record(m, SetUp(m, tiers).value, usage).Success? <==> ModuleOk(m, tiers)
  {
  }

  /**
   * The estimate raises exactly when some module's flat price is text that
   * does not convert, or some tiered module has a tier price that does not.
   */
  lemma EstimateRaises(modules: seq<ModuleRow>, tiers: seq<TierRecord>, usages: seq<int>)
    requires |usages| == |modules| && DistinctNames(modules)
    ensures Estimate(modules, tiers, usages).Success? <==> forall i :: 0 <= i < |modules| ==> ModuleOk(modules[i], tiers)
  {
    var setups := SetUpAll(modules, tiers);
    if setups.Success? {
      forall i | 0 <= i < |modules|
        ensures RecordBy(Normalize, modules[i], setups.value[i], usages[i]).Success? <==> ModuleOk(modules[i], tiers)
      {
        RecordOk(modules[i], tiers, usages[i]);
      }
    }
  }

  /**
   * What each record of a successful estimate charges: a flat module its
   * set-up price per unit, a tiered module the tiered cost of its own tier
   * rows, any other module nothing.
   */
  lemma EstimateCharges(modules: seq<ModuleRow>, tiers: seq<TierRecord>, usages: seq<int>, i: int)
    requires |usages| == |modules| && DistinctNames(modules)
    requires Estimate(modules, tiers, usages).Success? && 0 <= i < |modules|
    ensures var rec := Estimate(modules, tiers, usages).value[i];
      var m := modules[i];
      var kind := Normalize(m.typeLabel);
      rec.pricingType == kind &&
      (kind == "flat" ==> var p := FlatPriceOf(m.unitPrice).value;
        rec.unitPrice == Some(p) && rec.cost == Charge(usages[i] as real, p)) &&
      (kind == "tiered" ==> var t := PriceTiered(TiersOf(tiers, m.name), usages[i] as real);
        t.Success? && rec.unitPrice == t.value.unitPrice && rec.cost == t.value.cost) &&
      (kind != "flat" && kind != "tiered" ==> rec.unitPrice == None && rec.cost == 0.0)
  {
    var setups := SetUpAll(modules, tiers).value;
    assert setups[i] == SetUp(modules[i], tiers).value;
  }

  /** A sum of costs none of which is negative is not negative. */
  lemma {:induction false} TotalNonNegative(records: seq<CostRecord>)
    requires forall i :: 0 <= i < |records| ==> records[i].cost >= 0.0
    ensures CostSum(records) >= 0.0
  {
    if |records| > 0 {
      assert forall i :: 0 <= i < |records| - 1 ==> records[1..][i] == records[i + 1];
      TotalNonNegative(records[1..]);
    }
  }

  /** The total splits over a concatenation of breakdowns. */
  lemma {:induction false} TotalAppend(a: seq<CostRecord>, b: seq<CostRecord>)
    ensures CostSum(a + b) == CostSum(a) + CostSum(b)
  {
    if |a| == 0 {
      assert a + b == b;
    } else {
      assert (a + b)[0] == a[0];
      assert (a + b)[1..] == a[1..] + b;
      TotalAppend(a[1..], b);
    }
  }

  /** The total of two non-empty breakdowns put together is the sum of their totals. */
  lemma TotalSplits(a: seq<CostRecord>, b: seq<CostRecord>)
    requires |a| > 0 && |b| > 0
    ensures Total(a + b) == Success(Total(a).value + Total(b).value)
  {
    TotalAppend(a, b);
  }

  /** Every number in the configuration, flat or tiered, is at least 0. */
  predicate PricesNonNegative(modules: seq<ModuleRow>, tiers: seq<TierRecord>) {
    (forall i :: 0 <= i < |modules| ==> modules[i].unitPrice.Number? ==> modules[i].unitPrice.value >= 0.0) &&
    (forall k :: 0 <= k < |tiers| ==>
      tiers[k].row.threshold.GetOr(0.0) >= 0.0 && tiers[k].row.price.GetOr(0.0) >= 0.0)
  }

  lemma TiersOfNonNegative(tiers: seq<TierRecord>, name: string)
    requires forall k :: 0 <= k < |tiers| ==>
      tiers[k].row.threshold.GetOr(0.0) >= 0.0 && tiers[k].row.price.GetOr(0.0) >= 0.0
    ensures RowsNonNegative(TiersOf(tiers, name))
  {
    var rows := TiersOf(tiers, name);
    forall i | 0 <= i < |rows|
      ensures rows[i].threshold.GetOr(0.0) >= 0.0 && rows[i].price.GetOr(0.0) >= 0.0
    {
      assert rows[i] in rows;
      assert TierRecord(name, rows[i]) in tiers;
    }
  }

  lemma RecordNonNegative(modules: seq<ModuleRow>, tiers: seq<TierRecord>, usages: seq<int>, i: int)
    requires |usages| == |modules| && DistinctNames(modules)
    requires PricesNonNegative(modules, tiers)
    requires forall i :: 0 <= i < |usages| ==> usages[i] >= 0
    requires Estimate(modules, tiers, usages).Success? && 0 <= i < |modules|
    ensures Estimate(modules, tiers, usages).value[i].cost >= 0.0
  {
    EstimateCharges(modules, tiers, usages, i);
    var m := modules[i];
    var u := usages[i] as real;
    assert u >= 0.0;
    assert m.unitPrice.Number? ==> m.unitPrice.value >= 0.0;
    var kind := Normalize(m.typeLabel);
    if kind == "flat" {
      FlatChargeNonNegative(m.unitPrice, u);
    } else if kind == "tiered" {
      TiersOfNonNegative(tiers, m.name);
      PriceTieredNonNegative(TiersOf(tiers, m.name), u);
    }
  }

  lemma FlatChargeNonNegative(cell: PriceCell, u: real)
    requires cell.Number? ==> cell.value >= 0.0
    requires u >= 0.0
    ensures FlatPriceOf(cell).Success? ==> Charge(u, FlatPriceOf(cell).value) >= 0.0
  {
    if FlatPriceOf(cell).Success? {
      var p := FlatPriceOf(cell).value;
      ChargeBounds(u, p, p);
    }
  }

  /**
   * With no negative price or threshold in the configuration and no negative
   * usage, every module's cost and so the total are not negative.
   */
  lemma EstimateNonNegative(modules: seq<ModuleRow>, tiers: seq<TierRecord>, usages: seq<int>)
    requires |usages| == |modules| && DistinctNames(modules)
    requires PricesNonNegative(modules, tiers)
    requires forall i :: 0 <= i < |usages| ==> usages[i] >= 0
    requires Estimate(modules, tiers, usages).Success?
    ensures forall i :: 0 <= i < |modules| ==> Estimate(modules, tiers, usages).value[i].cost >= 0.0
    ensures |modules| == 0 ==> Total(Estimate(modules, tiers, usages).value).Failure?
    ensures |modules| > 0 ==>
      (Total(Estimate(modules, tiers, usages).value).Success? &&
       Total(Estimate(modules, tiers, usages).value).value >= 0.0)
  {
    var records := Estimate(modules, tiers, usages).value;
    forall i | 0 <= i < |modules|
      ensures records[i].cost >= 0.0
    {
      RecordNonNegative(modules, tiers, usages, i);
    }
    TotalNonNegative(records);
  }

  /**
   * Where every pricing type is already stripped, choosing the branch on the
   * lower-cased label alone gives the same breakdown as normalising it.
   */
  lemma UnpaddedLabelsAgree(modules: seq<ModuleRow>, tiers: seq<TierRecord>, usages: seq<int>)
    requires |usages| == |modules| && DistinctNames(modules)
    requires forall i :: 0 <= i < |modules| ==> Strip(modules[i].typeLabel) == modules[i].typeLabel
    ensures EstimateAsWritten(modules, tiers, usages) == Estimate(modules, tiers, usages)
  {
    var setups := SetUpAll(modules, tiers);
    if setups.Success? {
      assert RecordSteps(modules, setups.value, usages, Lower) == RecordSteps(modules, setups.value, usages, Normalize);
    }
  }

  /**
   * A label that lower-cases to "flat" or "tiered" normalises to the same
   * word, so it is costed alike either way.
   */
  lemma CleanLabelAgrees(m: ModuleRow, s: Setup, usage: int)
    requires Lower(m.typeLabel) == "flat" || Lower(m.typeLabel) == "tiered"
    ensures RecordAsWritten(m, s, usage) == Record(m, s, usage)
  {
    CleanLabelNormal(m.typeLabel);
  }

  lemma CleanLabelNormal(typeLabel: string)
    requires Lower(typeLabel) == "flat" || Lower(typeLabel) == "tiered"
    ensures Normalize(typeLabel) == Lower(typeLabel)
  {
    StripLowerCommute(typeLabel);
    if Lower(typeLabel) == "flat" {
      StripWord("flat");
    } else {
      StripWord("tiered");
    }
  }

  lemma StripWord(w: string)
    requires w == "flat" || w == "tiered"
    ensures Strip(w) == w
  {
    assert !IsSpace(w[0]) && !IsSpace(w[|w| - 1]) by {
      if w == "flat" {
        assert w[0] == 'f' && w[|w| - 1] == 't';
      } else {
        assert w[0] == 't' && w[|w| - 1] == 'd';
      }
    }
    StripUnpadded(w);
  }

  /**
   * As written, every pricing type that normalises to "flat" but does not
   * lower-case to "flat" (it carries surrounding whitespace) is set up with a
   * flat price and then costed as no branch at all: no unit price, cost 0.
   */
  lemma PaddedFlatDropped(m: ModuleRow, tiers: seq<TierRecord>, usage: int)
    requires Normalize(m.typeLabel) == "flat" && Lower(m.typeLabel) != "flat"
    requires !m.unitPrice.Text?
    ensures SetUp(m, tiers).Success? && SetUp(m, tiers).value.flatPrice.Some?
    ensures RecordAsWritten(m, SetUp(m, tiers).value, usage)
      == Success(CostRecord(m.name, usage, Lower(m.typeLabel), None, 0.0))
  {
    if Lower(m.typeLabel) == "tiered" {
      CleanLabelNormal(m.typeLabel);
      assert false;
    }
  }

  /** "Flat " lower-cases to "flat " but normalises to "flat". */
  lemma PaddedFlat()
    ensures Lower("Flat ") == "flat " && Normalize("Flat ") == "flat"
  {
    StripTrailingSpace("Flat");
    LowerFlat("Flat");
    LowerFlat("Flat ");
  }

  lemma LowerFlat(s: string)
    requires s == "Flat" || s == "Flat "
    ensures Lower(s) == "flat" + s[4..]
  {
    var r := Lower(s);
    assert LowerChar('F') == 'f';
    assert r[0] == 'f' && r[1..] == s[1..];
  }

  /** A one-module breakdown as written: the module's set-up entry and its one record. */
  lemma EstimateOneAsWritten(m: ModuleRow, tiers: seq<TierRecord>, s: Setup, usage: int, rec: CostRecord)
    requires SetUp(m, tiers) == Success(s) && RecordAsWritten(m, s, usage) == Success(rec)
    ensures EstimateAsWritten([m], tiers, [usage]) == Success([rec])
  {
    SetUpOne(m, tiers, s);
    var steps := RecordSteps([m], [s], [usage], Lower);
    assert steps == [Success(rec)];
    CollectOne(steps, rec);
  }

  /** A one-module corrected breakdown: the module's set-up entry and its one record. */
  lemma EstimateOne(m: ModuleRow, tiers: seq<TierRecord>, s: Setup, usage: int, rec: CostRecord)
    requires SetUp(m, tiers) == Success(s) && Record(m, s, usage) == Success(rec)
    ensures Estimate([m], tiers, [usage]) == Success([rec])
  {
    SetUpOne(m, tiers, s);
    var steps := RecordSteps([m], [s], [usage], Normalize);
    RecordByNormalize(m, s, usage);
    assert steps[0] == Success(rec);
    assert steps == [Success(rec)];
    CollectOne(steps, rec);
  }

  lemma RecordByNormalize(m: ModuleRow, s: Setup, usage: int)
    ensures RecordBy(Normalize, m, s, usage) == Record(m, s, usage)
  {
  }

  /** A one-module configuration that sets up without raising. */
  lemma SetUpOne(m: ModuleRow, tiers: seq<TierRecord>, s: Setup)
    requires SetUp(m, tiers) == Success(s)
    ensures SetUpAll([m], tiers) == Success([s])
  {
    var steps := SetUpSteps([m], tiers);
    assert steps == [Success(s)];
    CollectOne(steps, s);
  }

  lemma CollectOne<R, E>(steps: seq<Result<R, E>>, x: R)
    requires steps == [Success(x)]
    ensures Collect(steps) == Success([x])
  {
    var r := Collect(steps);
    assert r.Success? && |r.value| == 1 && r.value[0] == x;
    assert r.value == [x];
  }

  /** The module of the padded-label example: flat, 250 per unit, typed "Flat ". */
  function PaddedModule(): ModuleRow {
    ModuleRow("Reports", "Flat ", Number(250.0))
  }

  lemma PaddedSetUp()
    ensures SetUp(PaddedModule(), []) == Success(Setup(Some(250.0), None))
  {
    PaddedFlat();
  }

  /**
   * As written, a pricing type with a trailing space is set up as flat (its
   * price is stored) yet costed as no branch at all: no unit price, cost 0.
   */
  lemma PaddedLabelAsWritten()
    ensures SetUp(PaddedModule(), []) == Success(Setup(Some(250.0), None))
    ensures EstimateAsWritten([PaddedModule()], [], [40]) == Success([CostRecord("Reports", 40, "flat ", None, 0.0)])
  {
    PaddedSetUp();
    PaddedFlat();
    EstimateOneAsWritten(PaddedModule(), [], Setup(Some(250.0), None), 40, CostRecord("Reports", 40, "flat ", None, 0.0));
  }

  /** With the label normalised in both loops, the same module is charged its flat price. */
  lemma PaddedLabelCharged()
    ensures Estimate([PaddedModule()], [], [40]) == Success([CostRecord("Reports", 40, "flat", Some(250.0), 10000.0)])
  {
    PaddedSetUp();
    PaddedFlat();
    EstimateOne(PaddedModule(), [], Setup(Some(250.0), None), 40, CostRecord("Reports", 40, "flat", Some(250.0), 10000.0));
  }

  /** A tiered module typed "tiered " (trailing space) whose one tier row has a price that does not convert. */
  function PaddedTieredModule(): ModuleRow {
    ModuleRow("Storage", "tiered ", Blank)
  }

  function BadTierRecords(): seq<TierRecord> {
    [TierRecord("Storage", RawRow(Some(1.0), None))]
  }

  /** "tiered " lower-cases to itself but normalises to "tiered". */
  lemma PaddedTiered()
    ensures Lower("tiered ") == "tiered " && Normalize("tiered ") == "tiered"
  {
    StripTrailingSpace("tiered");
    LowerUnchanged("tiered");
    LowerUnchanged("tiered ");
  }

  lemma LowerUnchanged(s: string)
    requires s == "tiered" || s == "tiered "
    ensures Lower(s) == s
  {
    forall i | 0 <= i < |s|
      ensures Lower(s)[i] == s[i]
    {
      assert !('A' <= s[i] <= 'Z');
    }
  }

  lemma PaddedTieredSetUp()
    ensures SetUp(PaddedTieredModule(), BadTierRecords()) == Success(Setup(None, Some([RawRow(Some(1.0), None)])))
  {
    PaddedTiered();
    assert TiersOf(BadTierRecords(), "Storage") == [RawRow(Some(1.0), None)];
  }

  /**
   * As written, a padded "tiered " label is set up with its tier rows but
   * costed as no branch at all, so the tier price that does not convert is
   * never read and the breakdown does not raise.
   */
  lemma PaddedTieredAsWritten()
    ensures EstimateAsWritten([PaddedTieredModule()], BadTierRecords(), [5])
      == Success([CostRecord("Storage", 5, "tiered ", None, 0.0)])
  {
    PaddedTieredSetUp();
    PaddedTiered();
    EstimateOneAsWritten(PaddedTieredModule(), BadTierRecords(), Setup(None, Some([RawRow(Some(1.0), None)])), 5,
      CostRecord("Storage", 5, "tiered ", None, 0.0));
  }

  /** With the label normalised in both loops, the same configuration raises on the tier price. */
  lemma PaddedTieredRaises()
    ensures Estimate([PaddedTieredModule()], BadTierRecords(), [5]).Failure?
  {
    PaddedTiered();
    assert TiersOf(BadTierRecords(), "Storage") == [RawRow(Some(1.0), None)];
    assert !ModuleOk(PaddedTieredModule(), BadTierRecords());
    EstimateRaises([PaddedTieredModule()], BadTierRecords(), [5]);
  }
}
