# Transport pricing simulator: the cost engine

This project models the part of the transport pricing simulator that turns a
month's usage of each software module into a cost. It also proves properties
of that model. The simulator is a single Streamlit script,
`app_streamlit_full.py`. It does three things:

- It reads a module table. Each module has a name, a pricing type and an
  optional flat unit price.
- It reads a tier table, with rows of module, threshold and price.
- It prices every module on its usage slider and shows the total in FCFA.

A flat module costs usage × unit price. The unit price is 0 when the cell is
empty or the module has no entry.

A tiered module is priced in four steps:

1. Its tier rows are classified. A row whose threshold and price both convert
   to numbers is a finite band. A row whose threshold does not convert but
   whose price does supplies the open-ended price; the last such row wins. A
   row whose price does not convert makes the whole computation raise.
2. The finite bands are sorted as (threshold, price) pairs.
3. The usage is walked through the bands from 0 upwards. Each band takes
   `min(threshold - previous threshold, remaining)` units at its price.
4. Whatever usage is left is charged at the fallback price. The fallback is
   the open-ended price if there is one, otherwise the last band's price,
   otherwise 0.

The reported unit price is the price of the last band the walk entered, or the
fallback once the fallback is charged.

## Modules

- `Results` (`results.dfy`): `Option`, and `Result` for the computations
  that raise.
- `Config` (`config.dfy`): the two configuration tables as the cost loop sees
  them.
  - A tier row holds the outcome of converting each of its two cells to a
    number.
  - A flat price cell is blank, a number, or text that does not convert.
- `Text` (`text.dfy`): `str.strip()` and `str.lower()`, as the script applies
  them to the pricing-type cell.
- `Bands` (`bands.dfy`): bands, their lexicographic order, and the sort.
- `TierRows` (`tier_rows.dfy`): classifying tier rows into a tier table.
- `BandWalk` (`walk.dfy`): the band walk, and its closed form as a
  piecewise-linear integral.
- `Tiered` (`tiered.dfy`): the tiered price, both as a function and as the
  loop the script runs. It also holds the price-per-unit and monotonicity
  properties.
- `Engine` (`engine.dfy`): the flat price, the set-up loop, and the per-module
  cost records.
  - There are two versions of the breakdown: the code as written
    (`EstimateAsWritten`) and the corrected one (`Estimate`).
  - It also computes the total, which raises on an empty breakdown.

## Behaviour of the code worth noting

- **Open-ended rows.** The last open-ended row wins, because each one
  overwrites `infinite_price` (lines 88-89). `TierRows.LastOpenRowWins` states
  this.
- **No clamping.** A band's portion is `min(span, remaining)` with no clamp at
  0 (line 96).
  - With thresholds that ascend from 0, which the sort gives as long as the
    first threshold is not negative, no portion is negative
    (`BandWalk.PortionsWithinBands`).
  - A negative threshold does give a negative portion, and the model keeps
    that. The tiered cost can then be negative and can fall as the usage
    grows. Rows up to -10 at 5 and up to 5 at 1 cost 0 at usage 0 but
    -10·5 + 11·1 = -39 at usage 1 (`Tiered.NegativeThresholdExample`).
- **Negative usage.** A usage at or below 0 is not an error. The tiered walk
  stops at once, with cost 0 and no unit price. The flat cost is usage × price.
- **Worked example.** One band up to 100 at 10, open-ended price 5, usage 150
  costs 100·10 + 50·5 = 1250 (`Tiered.OpenEndedExample`).
- **Tied top thresholds.** Without an open-ended row, the fallback is the price
  of the last band after the tuple sort (line 102). When the top thresholds
  tie, that is the higher price (`Tiered.TiedTopExample`).
- **Empty module table.** With no modules the breakdown is empty. The frame
  built from it has no cost column, so the total at line 117 raises
  (`Engine.Total`).

## Model

| member | source | states |
|---|---|---|
| Engine.PriceFlat | app_streamlit_full.py:75-77 | A flat module reports a unit price, and is charged usage × that price. The price is the module's flat-price entry, or 0 (cost 0) when there is none. |
| Engine.FlatLinear | app_streamlit_full.py:77 | A flat cost is linear in the usage: the cost of u1 + u2 is the cost of u1 plus the cost of u2. |
| Engine.FlatPriceOf | app_streamlit_full.py:63 | An empty price cell sets a flat module up at 0, and a number at itself. Text that does not convert raises, and only text raises. |
| Engine.Normalize | app_streamlit_full.py:46 | The normalised pricing type is the lower-cased cell with only whitespace cut from its two ends, and none left at either end. It holds no capital letter. |
| Engine.TiersOf | app_streamlit_full.py:65 | A module's tier rows are the rows of the tier table that carry its name, each as often as it occurs there. |
| Engine.TiersOfSnoc | app_streamlit_full.py:65 | The filter keeps table order: appending a record appends its row exactly when the module owns it. |
| Engine.TiersOfLastOpen | app_streamlit_full.py:65-89 | The open-ended price of a module's rows is that of the last open-ended record it owns. A later open-ended record of the module replaces it. Any other record leaves it alone. |
| Engine.SetUp | app_streamlit_full.py:44-65 | Set-up raises exactly for a flat module whose price cell is unconvertible text. Only a module whose stripped, lower-cased type is "flat" gets a flat price. Only one whose type is "tiered" gets tier rows, namely its own. The stored flat price is the number in the cell, or 0 for a blank cell. |
| Engine.PriceModule | app_streamlit_full.py:70-104 | A type other than "flat" or "tiered" costs 0 with no unit price. "flat" never raises, and is the flat price of the set-up entry (0 without one) charged per unit. "tiered" is the tiered price of the set-up rows, or 0 with no unit price when there are none. |
| Engine.RecordAsWritten | app_streamlit_full.py:70-113 | As written, the record carries the lower-cased, unstripped type. A type that lower-cases to neither "flat" nor "tiered" is recorded with no unit price and cost 0. "flat" charges the set-up flat price (0 without one) per unit. "tiered" raises exactly when the tiered price of the set-up rows (none without an entry) raises, and otherwise records that price's unit price and cost. |
| Engine.Record | app_streamlit_full.py:46-113 | The corrected record carries the normalised type. A type that normalises to neither "flat" nor "tiered" is recorded with no unit price and cost 0. "flat" charges the set-up flat price (0 without one) per unit. "tiered" raises exactly when the tiered price of the set-up rows raises, and otherwise records that price's unit price and cost. |
| Engine.EstimateAsWritten | app_streamlit_full.py:44-113 | The breakdown as written raises exactly when some module's set-up raises or its as-written record does. Otherwise it has one record per module, in module order. Each record is the as-written record of that module's own set-up entry, with its name, its usage and its lower-cased type. |
| Engine.SetUpAll | app_streamlit_full.py:44-65 | The set-up loop succeeds exactly when every module's set-up succeeds. It then holds one entry per module, in order, each that module's own. |
| Engine.CostAll | app_streamlit_full.py:68-113 | The cost loop succeeds exactly when every module's record succeeds. It then yields one record per module, in module order. |
| Engine.Estimate | app_streamlit_full.py:44-113 | The corrected breakdown has one record per module, in module order. Each record carries the module's name and its own usage. |
| Engine.EstimateRaises | app_streamlit_full.py:44-104 | The corrected estimate raises exactly when a flat module's price cell is unconvertible text, or a tiered module has a tier price that does not convert. |
| Engine.EstimateCharges | app_streamlit_full.py:44-113 | In a successful corrected estimate each record is priced as follows. A flat module pays its set-up price per unit. A tiered module gets the tiered price of its own tier rows. Any other module costs 0 with no unit price. |
| Engine.Total | app_streamlit_full.py:116-117 | The total raises exactly for an empty breakdown, with the missing-column error. Otherwise it is the sum of the records' costs. |
| Engine.TotalNonNegative | app_streamlit_full.py:117 | A sum of costs none of which is negative is not negative. |
| Engine.TotalAppend | app_streamlit_full.py:117 | The cost sum of two breakdowns put together is the sum of their cost sums. |
| Engine.TotalSplits | app_streamlit_full.py:117 | The total of two non-empty breakdowns put together is the sum of their totals. |
| Engine.EstimateNonNegative | app_streamlit_full.py:67-117 | Suppose no configured number and no usage is negative. Then every module's cost in the corrected estimate is at least 0. With at least one module the total exists and is at least 0; with none it raises. |
| Engine.UnpaddedLabelsAgree | app_streamlit_full.py:46-70 | When every pricing-type cell is already free of surrounding whitespace, the as-written breakdown equals the corrected one. |
| Engine.CleanLabelAgrees | app_streamlit_full.py:70 | A type that lower-cases to "flat" or "tiered" is costed the same by both label normalisations. |
| Engine.PaddedLabelAsWritten | app_streamlit_full.py:46-77 | The type "Flat " with price 250 is set up as flat at 250. As written, at usage 40 it is recorded as type "flat " with no unit price and cost 0. |
| Engine.PaddedFlatDropped | app_streamlit_full.py:46-77 | As written, any type that normalises to "flat" but carries surrounding whitespace is set up with a flat price, yet costed with no unit price and cost 0. |
| Engine.PaddedLabelCharged | app_streamlit_full.py:46-77 | With the corrected normalisation the same module is charged 250 per unit, so 10000 at usage 40. |
| Engine.PaddedTieredAsWritten | app_streamlit_full.py:44-104 | As written, a module typed "tiered " whose one tier row has a price that does not convert is recorded as type "tiered " with no unit price and cost 0, and the breakdown does not raise. |
| Engine.PaddedTieredRaises | app_streamlit_full.py:44-104 | With the corrected normalisation the same configuration raises. |
| Text.Lower | app_streamlit_full.py:70 | Lower-casing keeps the length and maps each character through the ASCII lower-case map. |
| Text.Strip | app_streamlit_full.py:46 | `strip()` cuts only whitespace, from both ends, and leaves a string that neither starts nor ends with whitespace. |
| Text.StripLowerCommute | app_streamlit_full.py:46 | Stripping and lower-casing commute. |
| Text.LowerStripped | app_streamlit_full.py:46 | The stripped, lower-cased cell is no longer than the cell, has no whitespace at either end, and holds no capital letter. |
| Text.StripUnpadded | app_streamlit_full.py:46 | A string without leading or trailing whitespace is unchanged by `strip()`. |
| Text.StripTrailingSpace | app_streamlit_full.py:46 | A word followed by one space strips back to the word. |
| Bands.Insert | app_streamlit_full.py:90 | Inserting a band into a sorted list keeps it sorted, and adds exactly that band. |
| Bands.Sort | app_streamlit_full.py:90 | The sorted bands are in lexicographic (threshold, price) order and are a permutation of the input. |
| Bands.SortedUnique | app_streamlit_full.py:90 | Two sorted lists with the same bands are equal. |
| Bands.SortIgnoresOrder | app_streamlit_full.py:90 | Sorting any two arrangements of the same bands gives the same list. |
| Bands.SortedThresholds | app_streamlit_full.py:90 | In a sorted list the thresholds ascend. |
| TierRows.Kind | app_streamlit_full.py:84-89 | A row is bad exactly when its price does not convert. It is open-ended exactly when only its price converts, at that price. Otherwise it is the finite band of its two numbers. |
| TierRows.Finites | app_streamlit_full.py:83-87 | A band is among the finite bands exactly when some row converts to it in both cells. |
| TierRows.Partition | app_streamlit_full.py:81-89 | Classification raises, and only with the tier-price error, exactly when some row's price does not convert. Otherwise it yields the finite bands and the price of the last open-ended row. |
| TierRows.BuildTable | app_streamlit_full.py:81-90 | The tier table fails exactly when some price does not convert. Otherwise its bands are sorted and are a permutation of the finite bands, and its open price is the last open-ended row's. |
| TierRows.LastOpenRowWins | app_streamlit_full.py:84-89 | The open-ended price is the price of the last row whose threshold does not convert. |
| TierRows.OpenPricesSnoc | app_streamlit_full.py:84-89 | A row added at the end adds its open-ended price at the end of the list of open-ended prices, and only if the row is open-ended. |
| TierRows.NoOpenRow | app_streamlit_full.py:82-89 | Without an open-ended row there is no open-ended price. |
| TierRows.FiniteCount | app_streamlit_full.py:84-87 | Each band occurs among the finite bands exactly as often as a row converts to it. |
| TierRows.RowOrderIrrelevant | app_streamlit_full.py:83-90 | Rearranged rows with the same last open-ended row give the same tier table. |
| TierRows.NonEmptyRowsPrice | app_streamlit_full.py:81-89 | Non-empty rows that convert give at least one band or an open-ended price. |
| TierRows.TableNonNegative | app_streamlit_full.py:81-90 | Rows without negative numbers give a table without negative thresholds or prices. |
| BandWalk.Walk | app_streamlit_full.py:91-100 | The walk takes at most one portion per band. It stops early only once nothing is left. It takes nothing exactly when the usage is not positive or there are no bands. |
| BandWalk.WalkConserves | app_streamlit_full.py:91-100 | The portions plus what is left add up to the usage, and no portion exceeds its band's width. |
| BandWalk.PortionsWithinBands | app_streamlit_full.py:95-96 | With thresholds ascending from the start, every portion lies between 0 and its band's width. |
| BandWalk.WalkShares | app_streamlit_full.py:93-100 | On thresholds that ascend from the walk's starting point and never fall below it, a band is entered exactly when the usage exceeds its lower bound. Its portion is then the overlap of [lower bound, threshold] with [0, usage]. |
| BandWalk.WalkLeftover | app_streamlit_full.py:93-101 | On thresholds that ascend from the walk's starting point and never fall below it, for usage above the starting point, what is left after the walk is the usage beyond the last threshold, or 0. |
| BandWalk.WalkCost | app_streamlit_full.py:93-100 | On thresholds that ascend from the walk's starting point and never fall below it, the walked cost equals the piecewise-linear closed form: each band's overlap with the usage times its price. |
| BandWalk.AccruedBetween | app_streamlit_full.py:93-100 | On thresholds that ascend from the walk's starting point and never fall below it, with prices in [0, m], raising the usage raises the walked cost by at least 0 and at most m per extra unit inside the bands. |
| Tiered.Fallback | app_streamlit_full.py:102 | An open-ended price always wins. Without one, and with no bands, it is 0. Without one, on sorted bands, it is the price of the greatest band in (threshold, price) order, so the higher price when the top thresholds tie. |
| Tiered.Apply | app_streamlit_full.py:91-104 | The tiered price of any tier table, even one with no bands, reports a unit price exactly when the usage is positive. A usage that is not positive costs 0. |
| Tiered.WalkLoop | app_streamlit_full.py:91-100 | The script's loop over the sorted bands computes the remaining usage, the summed portion × price and the last visited price of the recursive walk. |
| Tiered.ApplyLoop | app_streamlit_full.py:91-104 | The loop with the fallback step computes the same unit price and cost as the tiered price. |
| Tiered.ApplyClosedForm | app_streamlit_full.py:91-103 | On thresholds that ascend from 0 (every built table is sorted; the first threshold must not be negative), the tiered cost is the closed form over the bands plus the usage beyond the last threshold at the fallback price. |
| Tiered.ApplyAllocates | app_streamlit_full.py:91-100 | On thresholds that ascend from 0 (every built table is sorted; the first threshold must not be negative), the band portions and the spilled-over remainder sum to the usage, and every portion lies within its band's width. |
| Tiered.MarginalPrice | app_streamlit_full.py:98-104 | On thresholds that ascend from 0 (every built table is sorted; the first threshold must not be negative), for positive usage the reported unit price is the price of the first band whose threshold reaches the usage. It is the fallback price once the usage exceeds the last threshold. |
| Tiered.FirstCovering | app_streamlit_full.py:93-98 | The band found is the first one whose threshold reaches the usage, and none is found when no threshold does. |
| Tiered.CostBetween | app_streamlit_full.py:91-103 | On thresholds that ascend from 0 (every built table is sorted; the first threshold must not be negative), with every price in [0, m], raising the usage from u1 to u2 raises the cost by between 0 and m·(u2 − u1). |
| Tiered.CostMonotone | app_streamlit_full.py:91-103 | On thresholds that ascend from 0 (every built table is sorted; the first threshold must not be negative), with prices that are not negative, a larger usage never costs less. |
| Tiered.PriceTiered | app_streamlit_full.py:78-104 | No tier rows means cost 0 and no unit price. Otherwise the price raises exactly when a tier price does not convert. A unit price is reported exactly when there are rows and the usage is positive, and a usage that is not positive costs 0. |
| Tiered.TieredIgnoresRowOrder | app_streamlit_full.py:81-104 | Rearranging the tier rows, while keeping the same last open-ended row, changes neither the cost nor the unit price. |
| Tiered.NegativeThresholdExample | app_streamlit_full.py:91-103 | Rows up to -10 at 5 and up to 5 at 1 cost 0 at usage 0 and -39 at usage 1, with unit price 1: a negative first threshold makes the cost negative and falling. |
| Tiered.OpenEndedExample | app_streamlit_full.py:81-104 | A band up to 100 at 10, open-ended price 5, usage 150: unit price 5, cost 1250. |
| Tiered.LastBandExample | app_streamlit_full.py:81-104 | Bands up to 150 at 3 and up to 50 at 4 (given unsorted), usage 200: unit price 3, cost 650. |
| Tiered.TiedTopExample | app_streamlit_full.py:81-104 | Two rows up to 100, at 7 and at 5, usage 150: the sort puts the band at 7 last, so the 50 units beyond it cost 7 each. Unit price 7, cost 850. |
| Tiered.PriceTieredNonNegative | app_streamlit_full.py:78-104 | Rows without negative numbers and a usage that is not negative never give a negative cost. |

## Left out

- The Streamlit page is not modelled: the sliders, titles, tables, charts and
  download button (lines 25-43 and 119 onwards). The usages reach the model as
  a sequence of integers, one per module.
- Admin mode is not modelled (lines 51-60). There the prices and tier rows come
  from interactive editors. The model follows the non-admin set-up path
  (lines 61-65).
- Loading the CSV files with pandas, and filtering and iterating DataFrames,
  are not modelled (lines 6-7, 57, 65, 70, 79, 83). The tables arrive as
  sequences.
- Python's `float()` on a cell is replaced by its outcome: a number, or
  failure to convert.
  - IEEE special values are not modelled. A blank threshold cell reaches
    `float()` as NaN, converts, and becomes a band whose comparisons are all
    false. "inf" converts too.
  - Rounding of floating-point arithmetic is not modelled. The model uses
    exact reals.
- `str()` of the pricing-type cell (lines 46 and 70) is taken as the string it
  produces. A missing cell would read "nan".
- Text.Lower: maps only the ASCII capitals.
  - Python's `str.lower()` maps every Unicode capital. That changes the
    recorded pricing-type text of non-ASCII labels.
  - It does not change which branch a label selects.
- The category lookup (lines 10-23 and 73) is not modelled. It is a
  dictionary lookup with a default, used only for display.
- Engine.Estimate and Engine.EstimateAsWritten: require distinct module names. Usage is keyed by name
  (line 49), and Streamlit rejects a second slider with the same label
  (line 48), so duplicate names never reach the cost loop.
- Engine.Estimate: accepts any integer usage. The slider only produces 0 to
  1000 (line 48).
- Results.Collect: does not say which of several failing steps supplies the
  error.
  - Set-up raises only the unit-price error (line 63).
  - Costing raises only the tier-price error (line 89).
  - So the error raised is still determined.

## Findings

| source | as written | input that shows it | evidently intended | confidence | as-written member | corrected member |
|---|---|---|---|---|---|---|
| app_streamlit_full.py:70 | The cost loop chooses the branch on `str(type).lower()` without `strip()`. The set-up loop (line 46) uses `strip().lower()`. | Module "Reports" with type "Flat " (trailing space), unit price 250, usage 40. It is set up with a flat price of 250, then recorded as type "flat " with no unit price and cost 0. | Both loops normalise the type the same way, so the module costs 40 × 250 = 10000. | medium, not executed | Engine.PaddedLabelAsWritten | Engine.PaddedLabelCharged |
| app_streamlit_full.py:70 | The same mismatch hides a tier price that does not convert. A module typed "tiered " is set up with its tier rows (line 65), but the cost loop takes neither branch, so the `float()` of line 89 never runs. | Module "Storage" with type "tiered ", one tier row with threshold 1 and a price that does not convert, usage 5. It is recorded as type "tiered " with no unit price and cost 0, and nothing raises. | The module is costed as tiered, and the unconvertible price raises. | medium, not executed | Engine.PaddedTieredAsWritten | Engine.PaddedTieredRaises |

`Engine.EstimateAsWritten` is the breakdown as the code computes it, and
`Engine.Estimate` is the corrected one. The rest of the model uses the
corrected one. `Engine.UnpaddedLabelsAgree` and `Engine.CleanLabelAgrees`
show that the two differ only for padded labels.
