/**
 * The moving-average crossover engine of `fetch_data`: two trailing means of
 * the close prices, a +1/-1 signal from their comparison (0 before the short
 * window), its first difference, the market and strategy returns and the
 * compounded strategy return.
 */
module SignalEngine {
  import opened Optional
  import opened Columns

  /** The frame `fetch_data` returns, restricted to the close column and the
      seven columns it derives from it. Every column is aligned with `close`. */
  datatype Frame = Frame(
    close: seq<real>,
    shortMA: seq<Option<real>>,
    longMA: seq<Option<real>>,
    signal: seq<int>,
    position: seq<Option<int>>,
    marketReturn: seq<Option<real>>,
    strategyReturn: seq<Option<real>>,
    cumulative: seq<Option<real>>)

  /** The mean of the `w` closes ending at row `i`. */
  function WindowMean(close: seq<real>, w: nat, i: nat): real
    requires 0 < w <= i + 1 <= |close|
  {
    Sum(close[i + 1 - w..i + 1]) / (w as real)
  }

  /** The Signal column: a zero fill, then from row `shortWindow` on the
      slice overwritten with `np.where(shortMA > longMA, 1, -1)`. */
  function SignalColumn(shortMA: seq<Option<real>>, longMA: seq<Option<real>>, shortWindow: nat): (r: seq<int>)
    requires |shortMA| == |longMA|
    ensures |r| == |shortMA|
  {
    var verdict := Where(Greater(Tail(shortMA, shortWindow), Tail(longMA, shortWindow)), 1, -1);
    AssignTail(Filled(|shortMA|, 0), shortWindow, verdict)
  }

  /** The whole computation as one value; `FetchData` builds the same frame
      imperatively. An empty close series gives a frame of empty columns. */
  function Enrich(close: seq<real>, shortWindow: nat, longWindow: nat): (h: Frame)
    requires 0 < shortWindow && 0 < longWindow
    requires AllPositive(close)
    ensures h.close == close
    ensures |h.shortMA| == |h.longMA| == |h.signal| == |h.position| == |close|
    ensures |h.marketReturn| == |h.strategyReturn| == |h.cumulative| == |close|
  {
    var shortMA := RollingMean(close, shortWindow);
    var longMA := RollingMean(close, longWindow);
    var signal := SignalColumn(shortMA, longMA, shortWindow);
    var market := PctChange(close);
    var strategy := Times(market, Shift(signal));
    Frame(close, shortMA, longMA, signal, Diff(signal),
          market, strategy, CumProd(PlusOne(strategy)))
  }

  /** `fetch_data` after the download: the columns are added one after the
      other, and the Signal column is a buffer that is first filled with 0
      and then overwritten from row `shortWindow` on. */
  method FetchData(close: seq<real>, shortWindow: nat, longWindow: nat) returns (hist: Frame)
    requires 0 < shortWindow && 0 < longWindow
    requires AllPositive(close)
    ensures hist == Enrich(close, shortWindow, longWindow)
  {
    var n := |close|;
    var shortMA := RollingMean(close, shortWindow);
    var longMA := RollingMean(close, longWindow);

    // hist['Signal'] = 0
    var signal := ZeroColumn(n);

    // hist['Signal'][short_window:] = np.where(... > ..., 1, -1)
    var verdict := Where(Greater(Tail(shortMA, shortWindow), Tail(longMA, shortWindow)), 1, -1);
    var start := if shortWindow < n then shortWindow else n;
    OverwriteFrom(signal, start, verdict);
    assert signal[..] == SignalColumn(shortMA, longMA, shortWindow);

    var market := PctChange(close);
    var strategy := Times(market, Shift(signal[..]));
    hist := Frame(close, shortMA, longMA, signal[..], Diff(signal[..]),
                  market, strategy, CumProd(PlusOne(strategy)));
  }

  /** A fresh integer column of `n` rows, every row 0. */
  method ZeroColumn(n: nat) returns (col: array<int>)
    ensures fresh(col)
    ensures col[..] == Filled(n, 0)
  {
    col := new int[n];
    for i := 0 to n
      invariant forall k :: 0 <= k < i ==> col[k] == 0
    {
      col[i] := 0;
    }
  }

  /** Positional slice assignment `col[start:] = vals`: rows before `start`
      keep their value, the rows from `start` on take `vals` in order. */
  method OverwriteFrom(col: array<int>, start: nat, vals: seq<int>)
    requires start <= col.Length && |vals| == col.Length - start
    modifies col
    ensures col[..] == old(col[..])[..start] + vals
  {
    for j := start to col.Length
      invariant col[..start] == old(col[..])[..start]
      invariant forall k :: start <= k < j ==> col[k] == vals[k - start]
    {
      col[j] := vals[j - start];
    }
  }

  // ---------------------------------------------------------------------
  // Signal
  // ---------------------------------------------------------------------

  /** The Signal column keeps the 0 sentinel before row `shortWindow`; from
      there on it is +1 or -1, and +1 exactly when both averages are defined
      and the short one is strictly greater (a tie or a missing long average
      gives -1). */
  lemma SignalShape(shortMA: seq<Option<real>>, longMA: seq<Option<real>>, shortWindow: nat, i: nat)
    requires |shortMA| == |longMA| && i < |shortMA|
    ensures i < shortWindow ==> SignalColumn(shortMA, longMA, shortWindow)[i] == 0
    ensures i >= shortWindow ==>
      var r := SignalColumn(shortMA, longMA, shortWindow)[i];
      && (r == 1 || r == -1)
      && (r == 1 <==> shortMA[i].Some? && longMA[i].Some? && shortMA[i].value > longMA[i].value)
  {
    if shortWindow < |shortMA| {
      var verdict := Where(Greater(shortMA[shortWindow..], longMA[shortWindow..]), 1, -1);
      var sig := Filled(|shortMA|, 0)[..shortWindow] + verdict;
      assert SignalColumn(shortMA, longMA, shortWindow) == sig;
      if i >= shortWindow {
        assert sig[i] == verdict[i - shortWindow];
      }
    }
  }

  /** Signal in terms of the closes: 0 before row `shortWindow`, then +1 exactly
      when the long window is full and the short-window mean is strictly above
      the long-window mean, -1 otherwise. In particular every row from
      `shortWindow` up to `longWindow - 2` reads -1, because the long average
      is still missing there. */
  lemma SignalAt(close: seq<real>, shortWindow: nat, longWindow: nat, i: nat)
    requires 0 < shortWindow && 0 < longWindow
    requires AllPositive(close)
    requires i < |close|
    ensures i < shortWindow ==> Enrich(close, shortWindow, longWindow).signal[i] == 0
    ensures i >= shortWindow ==> var r := Enrich(close, shortWindow, longWindow).signal[i];
      r == 1 || r == -1
    ensures i >= shortWindow ==>
      (Enrich(close, shortWindow, longWindow).signal[i] == 1 <==>
         i + 1 >= longWindow && WindowMean(close, shortWindow, i) > WindowMean(close, longWindow, i))
  {
    var h := Enrich(close, shortWindow, longWindow);
    SignalShape(h.shortMA, h.longMA, shortWindow, i);
    RollingMeanAt(close, shortWindow, i);
    RollingMeanAt(close, longWindow, i);
  }

  // ---------------------------------------------------------------------
  // Position
  // ---------------------------------------------------------------------

  /** Position is the first difference of Signal: missing in row 0, a step in
      {-2, -1, 0, 1, 2} after. It is 0 before row `shortWindow`, +1 or -1
      only at row `shortWindow` (the step off the 0 sentinel) and in
      {-2, 0, 2} after it; a nonzero step means the signal changed. */
  lemma PositionAt(close: seq<real>, shortWindow: nat, longWindow: nat, i: nat)
    requires 0 < shortWindow && 0 < longWindow
    requires AllPositive(close)
    requires i < |close|
    ensures i == 0 <==> Enrich(close, shortWindow, longWindow).position[i].None?
    ensures i >= 1 ==>
      var h := Enrich(close, shortWindow, longWindow);
      var p := h.position[i].value;
      && p == h.signal[i] - h.signal[i - 1]
      && -2 <= p <= 2
      && (i < shortWindow ==> p == 0)
      && (i == shortWindow ==> p == 1 || p == -1)
      && (i > shortWindow ==> p == -2 || p == 0 || p == 2)
      && (p != 0 ==> h.signal[i] != h.signal[i - 1])
  {
    var h := Enrich(close, shortWindow, longWindow);
    assert h.position == Diff(h.signal);
    if i >= 1 {
      assert h.signal == SignalColumn(h.shortMA, h.longMA, shortWindow);
      SignalShape(h.shortMA, h.longMA, shortWindow, i);
      SignalShape(h.shortMA, h.longMA, shortWindow, i - 1);
      assert h.position[i] == Some(h.signal[i] - h.signal[i - 1]);
    }
  }

  /** Telescoping: the defined Position entries of rows `0..i` add up to
      `Signal[i] - Signal[0]`, which is `Signal[i]` because row 0 always holds
      the sentinel. */
  lemma PositionTelescopes(close: seq<real>, shortWindow: nat, longWindow: nat, i: nat)
    requires 0 < shortWindow && 0 < longWindow
    requires AllPositive(close)
    requires i < |close|
    ensures var h := Enrich(close, shortWindow, longWindow);
      SumDefined(h.position[..i + 1]) == h.signal[i] - h.signal[0] == h.signal[i]
  {
    var h := Enrich(close, shortWindow, longWindow);
    DiffTelescopes(h.signal, i);
    SignalAt(close, shortWindow, longWindow, 0);
  }

  // ---------------------------------------------------------------------
  // Returns
  // ---------------------------------------------------------------------

  /** The market return is missing in row 0 and `close[i]/close[i-1] - 1`
      after; the strategy return is that return times the previous row's
      signal, so it is missing in row 0 and exactly 0 in rows 1 to
      `shortWindow`, where the previous signal is still the sentinel. */
  lemma ReturnsAt(close: seq<real>, shortWindow: nat, longWindow: nat, i: nat)
    requires 0 < shortWindow && 0 < longWindow
    requires AllPositive(close)
    requires i < |close|
    ensures var h := Enrich(close, shortWindow, longWindow);
      h.marketReturn[i].None? <==> i == 0
    ensures var h := Enrich(close, shortWindow, longWindow);
      h.strategyReturn[i].None? <==> i == 0
    ensures i >= 1 ==> var h := Enrich(close, shortWindow, longWindow);
      && h.marketReturn[i].value == close[i] / close[i - 1] - 1.0
      && h.strategyReturn[i].value == h.marketReturn[i].value * (h.signal[i - 1] as real)
    ensures 1 <= i <= shortWindow ==>
      Enrich(close, shortWindow, longWindow).strategyReturn[i] == Some(0.0)
  {
    var h := Enrich(close, shortWindow, longWindow);
    assert h.marketReturn == PctChange(close);
    assert h.strategyReturn == Times(h.marketReturn, Shift(h.signal));
    if i >= 1 {
      var m := close[i] / close[i - 1] - 1.0;
      var before := h.signal[i - 1];
      assert h.marketReturn[i] == Some(m);
      assert Shift(h.signal)[i] == Some(before);
      assert h.strategyReturn[i] == Some(Scale(m, before));
      if i <= shortWindow {
        SignalAt(close, shortWindow, longWindow, i - 1);
        assert before == 0;
      }
    }
  }

  /** The cumulative strategy return is missing in row 0 (the strategy return
      is missing there and cumprod skips it); row 1 is `1 + StrategyReturn[1]`
      and every later row compounds the previous one by
      `1 + StrategyReturn[i]`. */
  lemma CumulativeAt(close: seq<real>, shortWindow: nat, longWindow: nat, i: nat)
    requires 0 < shortWindow && 0 < longWindow
    requires AllPositive(close)
    requires i < |close|
    ensures Enrich(close, shortWindow, longWindow).cumulative[i].None? <==> i == 0
    ensures i == 1 ==> var h := Enrich(close, shortWindow, longWindow);
      && h.cumulative[1].Some? && h.strategyReturn[1].Some?
      && h.cumulative[1].value == 1.0 + h.strategyReturn[1].value
    ensures i >= 2 ==> var h := Enrich(close, shortWindow, longWindow);
      && h.cumulative[i].Some? && h.cumulative[i - 1].Some? && h.strategyReturn[i].Some?
      && h.cumulative[i].value == h.cumulative[i - 1].value * (1.0 + h.strategyReturn[i].value)
  {
    var h := Enrich(close, shortWindow, longWindow);
    assert h.strategyReturn == Times(PctChange(close), Shift(h.signal));
    assert forall k :: 0 <= k < |close| ==> (h.strategyReturn[k].None? <==> k == 0);
    assert h.cumulative == CumProd(PlusOne(h.strategyReturn));
    CompoundedAt(h.strategyReturn, h.cumulative, i);
  }

  /** While the previous signal is still the sentinel the strategy holds no
      position, so the cumulative return stays at 1 in rows 1 to
      `shortWindow`. */
  lemma {:induction false} CumulativeFlatAtStart(close: seq<real>, shortWindow: nat, longWindow: nat, i: nat)
    requires 0 < shortWindow && 0 < longWindow
    requires AllPositive(close)
    requires 1 <= i <= shortWindow && i < |close|
    ensures Enrich(close, shortWindow, longWindow).cumulative[i] == Some(1.0)
    decreases i
  {
    ReturnsAt(close, shortWindow, longWindow, i);
    CumulativeAt(close, shortWindow, longWindow, i);
    if i >= 2 {
      CumulativeFlatAtStart(close, shortWindow, longWindow, i - 1);
    }
  }

  // ---------------------------------------------------------------------
  // Worked scenarios
  // ---------------------------------------------------------------------

  /** A sum of two or three values. */
  lemma SumOfFew(xs: seq<real>)
    requires 2 <= |xs| <= 3
    ensures |xs| == 2 ==> Sum(xs) == xs[0] + xs[1]
    ensures |xs| == 3 ==> Sum(xs) == xs[0] + xs[1] + xs[2]
  {
    assert Sum(xs[..1]) == xs[0] by {
      assert xs[..1][..0] == [];
    }
    if |xs| == 3 {
      assert Sum(xs[..2]) == xs[0] + xs[1] by {
        assert xs[..2][..1] == xs[..1];
      }
    }
  }

  /** The closes 10, 11, ..., 15. */
  function Rising(): (r: seq<real>)
    ensures |r| == 6 && AllPositive(r)
    ensures forall i :: 0 <= i < 6 ==> r[i] == 10.0 + (i as real)
  {
    [10.0, 11.0, 12.0, 13.0, 14.0, 15.0]
  }

  /** The averages in one row of the rising-series scenario. */
  lemma RisingSeriesAverages(i: nat)
    requires i < 6
    ensures RollingMean(Rising(), 2)[i] == if i < 1 then None else Some(9.5 + (i as real))
    ensures RollingMean(Rising(), 3)[i] == if i < 2 then None else Some(9.0 + (i as real))
  {
    var close := Rising();
    RollingMeanAt(close, 2, i);
    RollingMeanAt(close, 3, i);
    if i >= 1 {
      SumOfFew(close[i - 1..i + 1]);
    }
    if i >= 2 {
      SumOfFew(close[i - 2..i + 1]);
    }
  }

  /** The signal in one row of the rising-series scenario. */
  lemma RisingSeriesSignal(i: nat)
    requires i < 6
    ensures Enrich(Rising(), 2, 3).signal[i] == if i < 2 then 0 else 1
  {
    var close := Rising();
    SignalAt(close, 2, 3, i);
    if i >= 2 {
      SumOfFew(close[i - 1..i + 1]);
      SumOfFew(close[i - 2..i + 1]);
    }
  }

  /** The two averages over the whole rising series. */
  lemma RisingSeriesAverageColumns()
    ensures RollingMean(Rising(), 2) == [None, Some(10.5), Some(11.5), Some(12.5), Some(13.5), Some(14.5)]
    ensures RollingMean(Rising(), 3) == [None, None, Some(11.0), Some(12.0), Some(13.0), Some(14.0)]
  {
    forall i | 0 <= i < 6
      ensures RollingMean(Rising(), 2)[i] == [None, Some(10.5), Some(11.5), Some(12.5), Some(13.5), Some(14.5)][i]
      ensures RollingMean(Rising(), 3)[i] == [None, None, Some(11.0), Some(12.0), Some(13.0), Some(14.0)][i]
    {
      RisingSeriesAverages(i);
    }
  }

  /** A steadily rising series: closes 10..15 with windows 2 and 3. The short
      average leads the long one wherever both exist, so every evaluated row
      reads +1 and the first two rows keep the sentinel. */
  lemma RisingSeriesScenario()
    ensures var h := Enrich(Rising(), 2, 3);
      && h.shortMA == [None, Some(10.5), Some(11.5), Some(12.5), Some(13.5), Some(14.5)]
      && h.longMA == [None, None, Some(11.0), Some(12.0), Some(13.0), Some(14.0)]
      && h.signal == [0, 0, 1, 1, 1, 1]
  {
    RisingSeriesAverageColumns();
    RisingSeriesSignalColumn();
  }

  /** The signal over the whole rising series. */
  lemma RisingSeriesSignalColumn()
    ensures Enrich(Rising(), 2, 3).signal == [0, 0, 1, 1, 1, 1]
  {
    forall i | 0 <= i < 6
      ensures Enrich(Rising(), 2, 3).signal[i] == [0, 0, 1, 1, 1, 1][i]
    {
      RisingSeriesSignal(i);
    }
  }

  /** Equal averages resolve to -1: on a flat series with windows 1 and 2 both
      averages are equal from row 1 on, and the signal reads -1 there. */
  lemma TieScenario()
    ensures AllPositive([5.0, 5.0, 5.0])
    ensures Enrich([5.0, 5.0, 5.0], 1, 2).signal == [0, -1, -1]
  {
    TieRow(0);
    TieRow(1);
    TieRow(2);
  }

  /** The window means of the flat closes [5, 5, 5] for windows 1 and 2. */
  lemma TieMeans()
    ensures WindowMean([5.0, 5.0, 5.0], 1, 1) == 5.0 && WindowMean([5.0, 5.0, 5.0], 2, 1) == 5.0
    ensures WindowMean([5.0, 5.0, 5.0], 1, 2) == 5.0 && WindowMean([5.0, 5.0, 5.0], 2, 2) == 5.0
  {
    var close := [5.0, 5.0, 5.0];
    assert close[1..2] == [5.0] && close[0..2] == [5.0, 5.0];
    assert close[2..3] == [5.0] && close[1..3] == [5.0, 5.0];
    assert Sum([5.0]) == 5.0 && Sum([5.0, 5.0]) == 10.0;
  }

  /** One row of the flat-series signal. */
  lemma TieRow(i: nat)
    requires i < 3
    ensures AllPositive([5.0, 5.0, 5.0])
    ensures Enrich([5.0, 5.0, 5.0], 1, 2).signal[i] == [0, -1, -1][i]
  {
    assert AllPositive([5.0, 5.0, 5.0]);
    SignalAt([5.0, 5.0, 5.0], 1, 2, i);
    TieMeans();
  }
}
