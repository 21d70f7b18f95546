/**
 * The rows the price chart marks: `data[data['Position'] == 1]` for the long
 * markers and `data[data['Position'] == -1]` for the short markers, as
 * positions into the frame.
 */
module Markers {
  import opened Optional
  import opened Columns
  import opened SignalEngine

  /** The positions of the rows whose entry equals `v`, in row order: the
      boolean-mask selection `frame[frame[col] == v].index`. A missing entry
      compares unequal and is never selected. */
  function RowsWhere(col: seq<Option<int>>, v: int): (r: seq<nat>)
    ensures forall k :: 0 <= k < |r| ==> r[k] < |col| && col[r[k]] == Some(v)
    ensures forall i :: 0 <= i < |col| && col[i] == Some(v) ==> i in r
    ensures forall a, b :: 0 <= a < b < |r| ==> r[a] < r[b]
    decreases |col|
  {
    if col == [] then []
    else
      var n := |col| - 1;
      var before := RowsWhere(col[..n], v);
      if col[n] == Some(v) then before + [n] else before
  }

  /** The long ("^") markers as the chart selects them: the rows, in order,
      whose Position is 1. */
  function LongMarkers(h: Frame): (r: seq<nat>)
    ensures forall k :: 0 <= k < |r| ==> r[k] < |h.position| && h.position[r[k]] == Some(1)
    ensures forall i :: 0 <= i < |h.position| && h.position[i] == Some(1) ==> i in r
    ensures forall a, b :: 0 <= a < b < |r| ==> r[a] < r[b]
  {
    RowsWhere(h.position, 1)
  }

  /** The short ("v") markers as the chart selects them: the rows, in order,
      whose Position is -1. */
  function ShortMarkers(h: Frame): (r: seq<nat>)
    ensures forall k :: 0 <= k < |r| ==> r[k] < |h.position| && h.position[r[k]] == Some(-1)
    ensures forall i :: 0 <= i < |h.position| && h.position[i] == Some(-1) ==> i in r
    ensures forall a, b :: 0 <= a < b < |r| ==> r[a] < r[b]
  {
    RowsWhere(h.position, -1)
  }

  /** When value `v` can only sit in row `s`, selecting it yields `[s]` if it
      is there and nothing otherwise. */
  lemma {:induction false} RowsWhereSingle(col: seq<Option<int>>, v: int, s: nat)
    requires forall i :: 0 <= i < |col| && col[i] == Some(v) ==> i == s
    ensures RowsWhere(col, v) == if s < |col| && col[s] == Some(v) then [s] else []
    decreases |col|
  {
    if col != [] {
      var n := |col| - 1;
      RowsWhereSingle(col[..n], v, s);
    }
  }

  /** As written, the chart can mark at most one row, row `shortWindow`: the
      only place Position is +1 or -1 is the step off the 0 sentinel there.
      Which marker appears depends only on the first evaluated signal. */
  lemma MarkersOnlyAtWindowStart(close: seq<real>, shortWindow: nat, longWindow: nat)
    requires 0 < shortWindow && 0 < longWindow
    requires AllPositive(close)
    ensures var h := Enrich(close, shortWindow, longWindow);
      LongMarkers(h) == if shortWindow < |close| && h.signal[shortWindow] == 1 then [shortWindow] else []
    ensures var h := Enrich(close, shortWindow, longWindow);
      ShortMarkers(h) == if shortWindow < |close| && h.signal[shortWindow] == -1 then [shortWindow] else []
  {
    var h := Enrich(close, shortWindow, longWindow);
    forall i | 0 <= i < |close|
      ensures h.position[i] == Some(1) ==> i == shortWindow
      ensures h.position[i] == Some(-1) ==> i == shortWindow
      ensures i == shortWindow ==>
        (h.position[i] == Some(1) <==> h.signal[i] == 1) &&
        (h.position[i] == Some(-1) <==> h.signal[i] == -1)
    {
      PositionAt(close, shortWindow, longWindow, i);
      if i == shortWindow {
        SignalAt(close, shortWindow, longWindow, i);
        SignalAt(close, shortWindow, longWindow, i - 1);
      }
    }
    RowsWhereSingle(h.position, 1, shortWindow);
    RowsWhereSingle(h.position, -1, shortWindow);
  }

  // ---------------------------------------------------------------------
  // The crossover markers the chart evidently means to draw
  // ---------------------------------------------------------------------

  /** Rows where the signal flips from -1 to +1 (Position == 2): the short
      average has just crossed above the long one. */
  function LongEntries(h: Frame): (r: seq<nat>)
    ensures forall k :: 0 <= k < |r| ==> r[k] < |h.position| && h.position[r[k]] == Some(2)
    ensures forall i :: 0 <= i < |h.position| && h.position[i] == Some(2) ==> i in r
    ensures forall a, b :: 0 <= a < b < |r| ==> r[a] < r[b]
  {
    RowsWhere(h.position, 2)
  }

  /** Rows where the signal flips from +1 to -1 (Position == -2). */
  function ShortEntries(h: Frame): (r: seq<nat>)
    ensures forall k :: 0 <= k < |r| ==> r[k] < |h.position| && h.position[r[k]] == Some(-2)
    ensures forall i :: 0 <= i < |h.position| && h.position[i] == Some(-2) ==> i in r
    ensures forall a, b :: 0 <= a < b < |r| ==> r[a] < r[b]
  {
    RowsWhere(h.position, -2)
  }

  /** Row `i` is selected exactly when its entry equals `v`. */
  lemma RowsWhereMember(col: seq<Option<int>>, v: int, i: nat)
    requires i < |col|
    ensures i in RowsWhere(col, v) <==> col[i] == Some(v)
  {
  }

  /** A Position of +2 is a flip of the signal from -1 to +1, a Position of -2
      a flip from +1 to -1, and both happen only after `shortWindow`. */
  lemma PositionIsCrossover(close: seq<real>, shortWindow: nat, longWindow: nat, i: nat)
    requires 0 < shortWindow && 0 < longWindow
    requires AllPositive(close)
    requires i < |close|
    ensures var h := Enrich(close, shortWindow, longWindow);
      h.position[i] == Some(2) <==> i >= 1 && h.signal[i - 1] == -1 && h.signal[i] == 1
    ensures var h := Enrich(close, shortWindow, longWindow);
      h.position[i] == Some(-2) <==> i >= 1 && h.signal[i - 1] == 1 && h.signal[i] == -1
    ensures var h := Enrich(close, shortWindow, longWindow);
      h.position[i] == Some(2) || h.position[i] == Some(-2) ==> i > shortWindow
  {
    PositionAt(close, shortWindow, longWindow, i);
    if i >= 1 {
      SignalAt(close, shortWindow, longWindow, i);
      SignalAt(close, shortWindow, longWindow, i - 1);
    }
  }

  /** The entry rows are exactly the crossovers: row `i` is a long entry iff the
      signal was -1 at `i - 1` and is +1 at `i`, and a short entry iff the
      reverse; either way the row lies after `shortWindow`. */
  lemma EntriesAreCrossovers(close: seq<real>, shortWindow: nat, longWindow: nat, i: nat)
    requires 0 < shortWindow && 0 < longWindow
    requires AllPositive(close)
    requires i < |close|
    ensures var h := Enrich(close, shortWindow, longWindow);
      i in LongEntries(h) <==> i >= 1 && h.signal[i - 1] == -1 && h.signal[i] == 1
    ensures var h := Enrich(close, shortWindow, longWindow);
      i in ShortEntries(h) <==> i >= 1 && h.signal[i - 1] == 1 && h.signal[i] == -1
    ensures var h := Enrich(close, shortWindow, longWindow);
      i in LongEntries(h) || i in ShortEntries(h) ==> i > shortWindow
  {
    var h := Enrich(close, shortWindow, longWindow);
    RowsWhereMember(h.position, 2, i);
    RowsWhereMember(h.position, -2, i);
    PositionIsCrossover(close, shortWindow, longWindow, i);
  }

  /** The window means of the closes [2, 1, 2] for windows 1 and 2. */
  lemma DipAndRecoveryMeans()
    ensures WindowMean([2.0, 1.0, 2.0], 1, 1) == 1.0 && WindowMean([2.0, 1.0, 2.0], 2, 1) == 1.5
    ensures WindowMean([2.0, 1.0, 2.0], 1, 2) == 2.0 && WindowMean([2.0, 1.0, 2.0], 2, 2) == 1.5
  {
    var close := [2.0, 1.0, 2.0];
    assert close[1..2] == [1.0] && close[0..2] == [2.0, 1.0];
    assert close[2..3] == [2.0] && close[1..3] == [1.0, 2.0];
    assert Sum([1.0]) == 1.0 && Sum([2.0, 1.0]) == 3.0;
    assert Sum([2.0]) == 2.0 && Sum([1.0, 2.0]) == 3.0;
  }

  /** One row of the signal on the closes [2, 1, 2] with windows 1 and 2. */
  lemma DipAndRecoveryRow(i: nat)
    requires i < 3
    ensures AllPositive([2.0, 1.0, 2.0])
    ensures Enrich([2.0, 1.0, 2.0], 1, 2).signal[i] == [0, -1, 1][i]
  {
    assert AllPositive([2.0, 1.0, 2.0]);
    SignalAt([2.0, 1.0, 2.0], 1, 2, i);
    DipAndRecoveryMeans();
  }

  /** The signal on the closes [2, 1, 2] with windows 1 and 2. */
  lemma DipAndRecoverySignal()
    ensures AllPositive([2.0, 1.0, 2.0])
    ensures Enrich([2.0, 1.0, 2.0], 1, 2).signal == [0, -1, 1]
  {
    DipAndRecoveryRow(0);
    DipAndRecoveryRow(1);
    DipAndRecoveryRow(2);
  }

  /** On the closes [2, 1, 2] with windows 1 and 2 the signal goes
      [0, -1, 1]: row 2 is a real crossover to long (Position 2), yet the
      chart as written draws no long marker and a short marker at row 1,
      which is only the step off the 0 sentinel. */
  lemma MarkersMissCrossover()
    ensures AllPositive([2.0, 1.0, 2.0])
    ensures var h := Enrich([2.0, 1.0, 2.0], 1, 2);
      && h.position[2] == Some(2)
      && LongMarkers(h) == []
      && ShortMarkers(h) == [1]
      && LongEntries(h) == [2]
      && ShortEntries(h) == []
  {
    var close := [2.0, 1.0, 2.0];
    DipAndRecoverySignal();
    var h := Enrich(close, 1, 2);
    PositionAt(close, 1, 2, 1);
    PositionAt(close, 1, 2, 2);
    MarkersOnlyAtWindowStart(close, 1, 2);
    forall i | 0 <= i < 3
      ensures h.position[i] == Some(2) ==> i == 2
      ensures h.position[i] != Some(-2)
    {
      PositionAt(close, 1, 2, i);
    }
    RowsWhereSingle(h.position, 2, 2);
    RowsWhereSingle(h.position, -2, 3);
  }
}
