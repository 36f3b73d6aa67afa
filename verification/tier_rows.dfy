/**
 * Turning a module's raw tier rows into a tier table (the loop at
 * app_streamlit_full.py lines 81-90): every row is classified as a finite
 * band or as the open-ended price, and the finite bands are then sorted.
 */
module TierRows {
  import opened Results
  import opened Config
  import opened Bands

  /** What the `try`/`except` around one row makes of it. */
  datatype RowKind = FiniteRow(band: Band) | OpenRow(price: real) | BadRow

  /**
   * Both cells convert: a finite band. The threshold does not convert: the
   * handler converts the price alone and the row is the open-ended price. The
   * price does not convert: the handler's own `float()` raises, uncaught.
   */
  function Kind(row: RawRow): (k: RowKind)
    ensures k.BadRow? <==> row.price.None?
    ensures k.OpenRow? <==> row.threshold.None? && row.price.Some?
    ensures k.OpenRow? ==> Some(k.price) == row.price
    ensures k.FiniteRow? ==> Some(k.band.thresh) == row.threshold && Some(k.band.price) == row.price
  {
    if row.threshold.Some? && row.price.Some? then FiniteRow(Band(row.threshold.value, row.price.value))
    else if row.price.Some? then OpenRow(row.price.value)
    else BadRow
  }

  /** The finite bands among `rows`, in row order. */
  function Finites(rows: seq<RawRow>): (r: seq<Band>)
    ensures |r| <= |rows|
    ensures forall b :: b in r <==> exists i :: 0 <= i < |rows| && Kind(rows[i]) == FiniteRow(b)
  {
    if |rows| == 0 then []
    else
      var rest := Finites(rows[1..]);
      assert forall i :: 1 <= i < |rows| ==> rows[i] == rows[1..][i - 1];
      match Kind(rows[0])
      case FiniteRow(b) => [b] + rest
      case _ => rest
  }

  /** The prices of the open-ended rows, in row order. */
  function OpenPrices(rows: seq<RawRow>): (r: seq<real>)
    ensures |r| <= |rows|
  {
    if |rows| == 0 then []
    else
      match Kind(rows[|rows| - 1])
      case OpenRow(p) => OpenPrices(rows[..|rows| - 1]) + [p]
      case _ => OpenPrices(rows[..|rows| - 1])
  }

  /** Adding a row at the end adds its open-ended price, if it has one, at the end. */
  lemma OpenPricesSnoc(rows: seq<RawRow>, row: RawRow)
    ensures OpenPrices(rows + [row]) == OpenPrices(rows) + (if Kind(row).OpenRow? then [Kind(row).price] else [])
  {
    assert (rows + [row])[..|rows|] == rows;
  }

  /** The last element of a sequence, if any. */
  function LastOf(s: seq<real>): Option<real> {
    if |s| == 0 then None else Some(s[|s| - 1])
  }

  /** Every row's price converts, so classifying the rows raises nothing. */
  predicate PricesParse(rows: seq<RawRow>) {
    forall i :: 0 <= i < |rows| ==> rows[i].price.Some?
  }

  /**
   * A module's tier table: its finite bands and the open-ended price, if a row
   * supplied one.
   */
  datatype TierTable = TierTable(bands: seq<Band>, openPrice: Option<real>)

  /**
   * The classification loop: finite rows are appended in row order; an
   * open-ended row overwrites whatever open-ended price came before it; a
   * price that does not convert aborts the whole computation.
   */
  function Partition(rows: seq<RawRow>): (r: Result<TierTable, PricingError>)
    ensures r.Success? <==> PricesParse(rows)
    ensures r.Failure? ==> r.error == MalformedTierPrice
    ensures r.Success? ==> r.value.bands == Finites(rows)
    ensures r.Success? ==> r.value.openPrice == LastOf(OpenPrices(rows))
  {
    if |rows| == 0 then Success(TierTable([], None))
    else
      var init := rows[..|rows| - 1];
      var last := rows[|rows| - 1];
      FinitesSnoc(init, last);
      assert rows == init + [last];
      assert PricesParse(rows) <==> PricesParse(init) && last.price.Some?;
      var seen :- Partition(init);
      match Kind(last)
      case FiniteRow(b) => Success(TierTable(seen.bands + [b], seen.openPrice))
      case OpenRow(p) => Success(TierTable(seen.bands, Some(p)))
      case BadRow => Failure(MalformedTierPrice)
  }

  lemma {:induction false} FinitesSnoc(rows: seq<RawRow>, last: RawRow)
    ensures Finites(rows + [last]) == Finites(rows) + (match Kind(last) case FiniteRow(b) => [b] case _ => [])
  {
    if |rows| == 0 {
      assert [last][1..] == [];
    } else {
      assert (rows + [last])[1..] == rows[1..] + [last];
      FinitesSnoc(rows[1..], last);
    }
  }

  /**
   * The tier table of a module (lines 81-90): the classified rows with the
   * finite bands sorted into ascending order.
   */
  function BuildTable(rows: seq<RawRow>): (r: Result<TierTable, PricingError>)
    ensures r.Success? <==> PricesParse(rows)
    ensures r.Success? ==> Sorted(r.value.bands)
    ensures r.Success? ==> multiset(r.value.bands) == multiset(Finites(rows))
    ensures r.Success? ==> r.value.openPrice == LastOf(OpenPrices(rows))
  {
    var table :- Partition(rows);
    Success(TierTable(Sort(table.bands), table.openPrice))
  }

  /**
   * When several rows are open-ended, the one nearest the end of the rows is
   * the open-ended price; when none is, there is no open-ended price.
   */
  lemma {:induction false} LastOpenRowWins(rows: seq<RawRow>, i: int)
    requires 0 <= i < |rows| && Kind(rows[i]).OpenRow?
    requires forall j :: i < j < |rows| ==> !Kind(rows[j]).OpenRow?
    ensures LastOf(OpenPrices(rows)) == Some(rows[i].price.value)
  {
    if i < |rows| - 1 {
      LastOpenRowWins(rows[..|rows| - 1], i);
    }
  }

  lemma {:induction false} NoOpenRow(rows: seq<RawRow>)
    requires forall j :: 0 <= j < |rows| ==> !Kind(rows[j]).OpenRow?
    ensures LastOf(OpenPrices(rows)) == None
    ensures OpenPrices(rows) == []
  {
    if |rows| > 0 {
      NoOpenRow(rows[..|rows| - 1]);
    }
  }

  /** A band occurs among the finite bands exactly as often as its row occurs among the rows. */
  lemma {:induction false} FiniteCount(rows: seq<RawRow>, b: Band)
    ensures multiset(Finites(rows))[b] == multiset(rows)[RawRow(Some(b.thresh), Some(b.price))]
  {
    if |rows| > 0 {
      assert rows == [rows[0]] + rows[1..];
      FiniteCount(rows[1..], b);
    }
  }

  /**
   * Reordering the rows changes nothing about the tier table, as long as the
   * same open-ended row still comes last among the open-ended rows.
   */
  lemma RowOrderIrrelevant(p: seq<RawRow>, q: seq<RawRow>)
    requires multiset(p) == multiset(q)
    requires LastOf(OpenPrices(p)) == LastOf(OpenPrices(q))
    ensures BuildTable(p) == BuildTable(q)
  {
    forall b: Band
      ensures multiset(Finites(p))[b] == multiset(Finites(q))[b]
    {
      FiniteCount(p, b);
      FiniteCount(q, b);
    }
    assert multiset(Finites(p)) == multiset(Finites(q));
    forall i | 0 <= i < |p|
      ensures p[i] in q
    {
      assert p[i] in multiset(q);
    }
    forall i | 0 <= i < |q|
      ensures q[i] in p
    {
      assert q[i] in multiset(p);
    }
    assert PricesParse(p) <==> PricesParse(q);
    if PricesParse(p) {
      SortIgnoresOrder(Finites(p), Finites(q));
    }
  }

  /** A non-empty set of rows that classifies always yields some price to fall back on. */
  lemma NonEmptyRowsPrice(rows: seq<RawRow>)
    requires |rows| > 0 && PricesParse(rows)
    ensures BuildTable(rows).value.bands != [] || BuildTable(rows).value.openPrice.Some?
  {
    match Kind(rows[0])
    case FiniteRow(b) =>
      assert b in Finites(rows);
      assert b in multiset(BuildTable(rows).value.bands);
    case OpenRow(_) =>
      if LastOf(OpenPrices(rows)).None? {
        NoOpenPricesMeansNoOpenRow(rows, 0);
      }
    case BadRow =>
  }

  lemma {:induction false} NoOpenPricesMeansNoOpenRow(rows: seq<RawRow>, i: int)
    requires 0 <= i < |rows| && Kind(rows[i]).OpenRow?
    ensures OpenPrices(rows) != []
  {
    if i < |rows| - 1 {
      NoOpenPricesMeansNoOpenRow(rows[..|rows| - 1], i);
    }
  }

  /** Every number the rows hold, threshold or price, is at least 0. */
  predicate RowsNonNegative(rows: seq<RawRow>) {
    forall i :: 0 <= i < |rows| ==>
      rows[i].threshold.GetOr(0.0) >= 0.0 && rows[i].price.GetOr(0.0) >= 0.0
  }

  /** Rows without negative numbers give an open-ended price that is not negative. */
  lemma {:induction false} OpenPricesNonNegative(rows: seq<RawRow>)
    requires RowsNonNegative(rows)
    ensures forall k :: 0 <= k < |OpenPrices(rows)| ==> OpenPrices(rows)[k] >= 0.0
  {
    if |rows| > 0 {
      var init := rows[..|rows| - 1];
      assert forall i :: 0 <= i < |init| ==> init[i] == rows[i];
      OpenPricesNonNegative(init);
    }
  }

  /** Rows without negative numbers give a table whose every band and open-ended price is not negative. */
  lemma TableNonNegative(rows: seq<RawRow>)
    requires RowsNonNegative(rows) && PricesParse(rows)
    ensures forall i :: 0 <= i < |BuildTable(rows).value.bands| ==>
      BuildTable(rows).value.bands[i].thresh >= 0.0 && BuildTable(rows).value.bands[i].price >= 0.0
    ensures BuildTable(rows).value.openPrice.GetOr(0.0) >= 0.0
  {
    var t := BuildTable(rows).value;
    forall i | 0 <= i < |t.bands|
      ensures t.bands[i].thresh >= 0.0 && t.bands[i].price >= 0.0
    {
      var b := t.bands[i];
      assert b in multiset(t.bands);
      assert b in Finites(rows);
      var j :| 0 <= j < |rows| && Kind(rows[j]) == FiniteRow(b);
    }
    OpenPricesNonNegative(rows);
  }
}
