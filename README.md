# Moving-average crossover engine

This project models the computation behind the stock dashboard's
`fetch_data`. Given the daily close prices of an index, it:

- takes two trailing rolling means of the closes, a short window and a long
  window;
- derives a Signal column: 0 in the rows before `short_window`, then, from
  row `short_window` on, +1 where the short average is strictly above the
  long one and -1 otherwise;
- takes its first difference as the Position column;
- computes the market return (`pct_change` of the closes);
- computes the strategy return, which is the market return times the
  previous row's signal;
- compounds `1 + strategy return` with `cumprod`.

It also models the chart's selection of the rows it marks as long and short
signals.

A missing pandas value (NaN) is `None` in an `Option`, prices are `real`,
and a column is a sequence aligned with the closes. The modules are:

- `Optional`: the `Option` type.
- `Columns`: the pandas and numpy column operations as pure functions over
  sequences:
  - `rolling(w).mean()`, including the running window sum it keeps;
  - elementwise `>` with NaN comparing false;
  - `np.where`;
  - scalar fill and positional slice assignment;
  - `diff`, `pct_change`, `shift(1)`, elementwise `*` and `1 +`;
  - `cumprod` with its default skipping of NaN.

  Three operations also have an independent reference definition and a
  lemma tying the two together:
  - the running window sums behind `rolling(w).mean()`, against a plain
    `Sum` of the window;
  - `cumprod`, against `DefinedProduct`, the product of the defined
    entries;
  - `diff`, through `DiffTelescopes`. This uses `SumDefined`, a sum that
    skips missing entries and serves only as the reference for that lemma.

  The other column functions are defined by their elementwise bodies, and
  their contracts give only the length. What the columns they build mean
  is proved one level up, in the `SignalEngine` lemmas (`SignalShape`,
  `PositionAt`, `ReturnsAt`).
- `SignalEngine`: the `Frame` of columns, `Enrich` (the whole computation
  as one value), and `FetchData`. `FetchData` builds the frame step by step
  with the Signal column as a mutable buffer: a zero fill, then a slice
  overwrite from row `short_window`. It is proved to produce exactly
  `Enrich`. The lemmas here state the meaning of every derived column in
  terms of the closes and the columns before it. The cumulative return is
  stated as a recurrence.
- `Markers`: the row selection `data[data['Position'] == v]` that places
  the chart's markers. It includes the discrepancy recorded under Findings.

## Model

| member | source | states |
|---|---|---|
| Columns.SumFront | streamlit.py:29-30 | a window sum can be split at its first element as well as its last |
| Columns.TrailingSums | streamlit.py:29-30 | the running window sums form a column as long as the closes |
| Columns.WindowSlide | streamlit.py:29-30 | moving the window one row adds the new close and drops the close that left the window |
| Columns.TrailingSumsLast | streamlit.py:29-30 | the newest running sum is a window sum when the one before it is |
| Columns.TrailingSumsAt | streamlit.py:29-30 | every running sum equals the sum of the `w` closes ending at that row, clipped at row 0 |
| Columns.RollingMean | streamlit.py:29-30 | a rolling mean has one entry per close |
| Columns.RollingMeanAt | streamlit.py:29-30 | the rolling mean is NaN exactly in rows `0..w-2`, and from row `w-1` on it is the mean of the `w` closes ending there; no partial windows |
| Columns.Gt | streamlit.py:34 | the definition of `>` on values that may be NaN: false when either side is missing, strict `>` otherwise; the rule is proved about the Signal column in `SignalShape` and `SignalAt` |
| Columns.Greater | streamlit.py:34 | the elementwise `>` of two aligned columns is aligned with them |
| Columns.Where | streamlit.py:34 | `np.where` yields one value per condition |
| Columns.Filled | streamlit.py:33 | the scalar fill `hist['Signal'] = 0` covers every row |
| Columns.Tail | streamlit.py:34 | the positional slice `[k:]` has `n - k` rows, or none when `k >= n` |
| Columns.AssignTail | streamlit.py:34 | the slice assignment `[k:] = vals` keeps the column's length |
| Columns.Diff | streamlit.py:35 | `diff` is aligned with its input |
| Columns.PctChange | streamlit.py:38 | `pct_change` is aligned with the closes |
| Columns.Shift | streamlit.py:39 | `shift(1)` is aligned with its input |
| Columns.Times | streamlit.py:39 | the elementwise product is aligned with its operands |
| Columns.PlusOne | streamlit.py:40 | `1 + column` is aligned with the column |
| Columns.CumProdFrom | streamlit.py:40 | the running product has one entry per factor |
| Columns.CumProd | streamlit.py:40 | `cumprod` is aligned with its input |
| Columns.DefinedProductSnoc | streamlit.py:40 | appending a factor multiplies the product of the defined factors by it, and a NaN counts as 1 |
| Columns.DefinedProductPrefix | streamlit.py:40 | peeling the first factor off a prefix product |
| Columns.CumProdFromDefined | streamlit.py:40 | the running product is NaN exactly where its factor is NaN |
| Columns.CumProdFromStep | streamlit.py:40 | one induction step for a defined first factor, which the accumulator absorbs |
| Columns.CumProdFromSkip | streamlit.py:40 | one induction step for a NaN first factor, which leaves the accumulator unchanged |
| Columns.CumProdFromAt | streamlit.py:40 | row `i` of the running product from `acc` is NaN iff factor `i` is; otherwise it is `acc` times the product of the defined factors in rows `0..i` |
| Columns.CumProdAt | streamlit.py:40 | `cumprod` row `i` is NaN iff input row `i` is; otherwise it is the product of all defined entries up to `i` (NaN skipped) |
| Columns.CumProdStep | streamlit.py:40 | a defined `cumprod` entry is the product of the earlier defined entries times the current one; it is the previous result times the current factor when that result is defined |
| Columns.CompoundedAt | streamlit.py:40 | for a return column missing only in row 0, `(1 + r).cumprod()` is NaN only in row 0, is `1 + r[1]` in row 1, and from then on compounds the previous row by `1 + r[i]` |
| Columns.DiffTelescopes | streamlit.py:35 | the defined entries of `s.diff()` in rows `0..i` add up to `s[i] - s[0]` |
| SignalEngine.Frame | streamlit.py:26-40 | the frame `hist`: the Close column and the seven columns `fetch_data` adds to it |
| SignalEngine.SignalColumn | streamlit.py:33-34 | the Signal column has one entry per row |
| SignalEngine.Enrich | streamlit.py:24-42 | the returned frame keeps the closes, and every derived column has one entry per close |
| SignalEngine.FetchData | streamlit.py:24-42 | building the columns in order, with Signal zero-filled in a buffer and then overwritten from row `short_window`, yields exactly the frame `Enrich` describes |
| SignalEngine.ZeroColumn | streamlit.py:33 | a fresh Signal buffer holding 0 in every row |
| SignalEngine.OverwriteFrom | streamlit.py:34 | positional slice assignment: rows before `start` keep their values and the rows from `start` on take `vals` in order |
| SignalEngine.SignalShape | streamlit.py:33-34 | Signal is 0 before row `short_window`; from there it is +1 or -1, and +1 iff both averages are defined and the short one is strictly greater |
| SignalEngine.SignalAt | streamlit.py:29-34 | in terms of the closes: 0 before `short_window`; then +1 iff the long window is full and the short-window mean is strictly above the long-window mean; -1 otherwise (a tie, or the long average still NaN) |
| SignalEngine.PositionAt | streamlit.py:33-35 | Position is NaN only in row 0 and is `Signal[i] - Signal[i-1]` after. It is 0 before `short_window`, ±1 exactly at `short_window`, and one of -2, 0, 2 after it. A nonzero value means the signal changed |
| SignalEngine.PositionTelescopes | streamlit.py:33-35 | the defined Positions up to row `i` add up to `Signal[i]` |
| SignalEngine.ReturnsAt | streamlit.py:38-39 | Market Return is NaN only in row 0 and is `close[i] / close[i-1] - 1` after. Strategy Return is NaN only in row 0 and is the market return times the previous signal; it is exactly 0 in rows `1..short_window` |
| SignalEngine.CumulativeAt | streamlit.py:39-40 | Cumulative Strategy Return is NaN only in row 0, is `1 + StrategyReturn[1]` in row 1, and compounds the previous row by `1 + StrategyReturn[i]` from row 2 on |
| SignalEngine.CumulativeFlatAtStart | streamlit.py:33-40 | the cumulative return stays exactly 1 in rows `1..short_window`, while the previous signal is still the 0 sentinel |
| SignalEngine.RisingSeriesAverages | streamlit.py:29-30 | on closes 10..15 the 2-day average is NaN, then `9.5 + i`; the 3-day average is NaN, NaN, then `9 + i` |
| SignalEngine.RisingSeriesSignal | streamlit.py:33-34 | on closes 10..15 with windows 2 and 3, row `i` of Signal is 0 for `i < 2` and 1 after |
| SignalEngine.RisingSeriesAverageColumns | streamlit.py:29-30 | the two average columns of the rising series, written out in full |
| SignalEngine.RisingSeriesSignalColumn | streamlit.py:33-34 | the Signal column of the rising series is `[0, 0, 1, 1, 1, 1]` |
| SignalEngine.RisingSeriesScenario | streamlit.py:29-34 | the rising series: both average columns and the signal `[0, 0, 1, 1, 1, 1]` |
| SignalEngine.TieMeans | streamlit.py:29-30 | on flat closes every window mean is 5 |
| SignalEngine.TieRow | streamlit.py:34 | one row of the flat-series signal |
| SignalEngine.TieScenario | streamlit.py:34 | equal averages resolve to -1: flat closes with windows 1 and 2 give the signal `[0, -1, -1]` |
| Markers.RowsWhere | streamlit.py:62-63 | the boolean-mask selection yields exactly the rows whose value equals `v` (sound and complete), in strictly increasing row order; NaN rows are never selected |
| Markers.LongMarkers | streamlit.py:62 | the long markers as written: exactly the rows whose Position is 1, in row order |
| Markers.ShortMarkers | streamlit.py:63 | the short markers as written: exactly the rows whose Position is -1, in row order |
| Markers.LongEntries | streamlit.py:62 | the corrected long markers: exactly the rows whose Position is 2, in row order |
| Markers.ShortEntries | streamlit.py:63 | the corrected short markers: exactly the rows whose Position is -2, in row order |
| Markers.RowsWhereSingle | streamlit.py:62-63 | when `v` can only occur in row `s`, the selection is `[s]` if it does and empty otherwise |
| Markers.MarkersOnlyAtWindowStart | streamlit.py:33-63 | as written, the chart marks at most one row, row `short_window`: long if the first evaluated signal is +1, short if it is -1 |
| Markers.RowsWhereMember | streamlit.py:62-63 | a row is selected exactly when its entry equals `v` |
| Markers.PositionIsCrossover | streamlit.py:33-35 | Position is +2 exactly where Signal flips from -1 to +1 and -2 exactly where it flips from +1 to -1; both occur only after `short_window` |
| Markers.EntriesAreCrossovers | streamlit.py:33-63 | the rows with Position +2 (and -2) are exactly the rows where Signal flips from -1 to +1 (and from +1 to -1); all of them lie after `short_window` |
| Markers.DipAndRecoveryMeans | streamlit.py:29-30 | the window means of closes [2, 1, 2] for windows 1 and 2 |
| Markers.DipAndRecoveryRow | streamlit.py:33-34 | one row of the signal on closes [2, 1, 2] |
| Markers.DipAndRecoverySignal | streamlit.py:33-34 | closes [2, 1, 2] with windows 1 and 2 give the signal `[0, -1, 1]` |
| Markers.MarkersMissCrossover | streamlit.py:62-63 | on closes [2, 1, 2] row 2 is a crossover to long (Position 2), yet the chart as written draws no long marker, and draws a short marker at row 1 (the step off the 0 sentinel) |

## Left out

- The market-data download (streamlit.py:25-26) is not modelled. The model
  takes the Close column as an input sequence. The other columns of the
  downloaded frame (Open, High, Low, Volume, and so on) are not modelled,
  and neither is the date index; rows are identified by position.
- The result cache decorator (streamlit.py:23) is left out. Because the
  model is a pure function, caching could not change a result.
- The dashboard widgets, charts, table, CSV export and the AI-simulation
  placeholder (streamlit.py:1-20, 44-113) are presentation and are left
  out. The only exception is the selection of marker rows at lines 62-63.
  The y-values the markers are plotted at are also left out.
- Floating point is left out. Prices and returns are exact `real`s, and
  NaN is `None`. Rounding, infinities and NaN propagation beyond what the
  columns show are not modelled.
- Enrich, FetchData: require both windows to be positive and every close
  to be strictly positive. The sliders give windows of at least 5. A zero
  close would make pandas produce an infinite return, which reals cannot
  represent.
- The slider ranges are not imposed: the short window is 5..50 in steps
  of 1 (streamlit.py:18) and the long window 50..200 in steps of 5
  (streamlit.py:19). Every lemma holds for any positive windows.
- The chained assignment `hist['Signal'][short_window:] = ...` is modelled
  as taking effect on the frame, as it does in the pandas versions the
  code was written for. pandas' copy-on-write mode, which would make it a
  no-op, is not modelled.
- When both windows are equal (both sliders allow 50), lines 29-30 write
  the same column name twice. The real frame then holds one moving-average
  column, not two. `Frame` keeps both fields, which then hold the same
  values, and every result is unchanged.
- Markers.RowsWhere: returns row positions rather than the dates of the
  index.

## Findings

| source | as written | input that shows it | evidently intended | confidence | as-written member | corrected member |
|---|---|---|---|---|---|---|
| streamlit.py:62-63 | The long and short markers select `Position == 1` and `Position == -1`. A signal that is always ±1 after row `short_window` only ever steps by 0 or ±2, so ±1 occurs only at row `short_window`, the step off the 0 sentinel. | closes [2, 1, 2], windows 1 and 2: Signal is [0, -1, 1] and Position is [NaN, -1, 2]. Row 2 is a crossover to long, but no long marker is drawn, and a short marker is drawn at row 1. | Markers at the crossovers, `Position == 2` (long entry) and `Position == -2` (short entry). The markers are labelled 'Long Signal' and 'Short Signal' (lines 62-63), and from row `short_window` on Signal is ±1 (line 34), so a change of regime is a step of ±2. | medium, not executed | Markers.MarkersMissCrossover | Markers.LongEntries |

The chart labels its markers 'Long Signal' and 'Short Signal'
(streamlit.py:62-63). From row `short_window` on, Signal is +1 or -1
(streamlit.py:34), so the rows where the signal turns long or short are
the position changes of +2 and -2. The code selects +1 and -1 instead. The
model follows the code (`Markers.LongMarkers`, `Markers.ShortMarkers`). The corrected
selection is `Markers.LongEntries` and `Markers.ShortEntries`, and
`Markers.EntriesAreCrossovers` proves that they are exactly the crossovers.
`Markers.MarkersOnlyAtWindowStart` proves the general form of the
discrepancy.
