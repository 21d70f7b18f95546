/**
 * The pandas column operations the crossover engine is built from, as pure
 * functions over sequences. A column is a sequence aligned with the close
 * prices; a missing (NaN) entry is `None`.
 */
module Columns {
  import opened Optional

  // ---------------------------------------------------------------------
  // Sums and the trailing rolling mean (`Series.rolling(window=w).mean()`)
  // ---------------------------------------------------------------------

  /** Sum of a sequence of reals, peeled from the back. */
  function Sum(xs: seq<real>): real
    decreases |xs|
  {
    if xs == [] then 0.0 else Sum(xs[..|xs| - 1]) + xs[|xs| - 1]
  }

  lemma {:induction false} SumFront(xs: seq<real>)
    requires xs != []
    ensures Sum(xs) == xs[0] + Sum(xs[1..])
    decreases |xs|
  {
    if |xs| == 1 {
      assert xs[..0] == [];
      assert xs[1..] == [];
    } else {
      var init := xs[..|xs| - 1];
      SumFront(init);
      assert init[1..] == xs[1..][..|xs[1..]| - 1];
    }
  }

  /** First index of the trailing window of width `w` that ends at `i`
      (clipped at the start of the column). */
  function WindowStart(i: nat, w: nat): nat
  {
    if i + 1 >= w then i + 1 - w else 0
  }

  /** Running window sums, as a rolling aggregation keeps them: each new entry
      adds the newest value to the previous sum and subtracts the value that
      has just left the window of width `w`. */
  function TrailingSums(xs: seq<real>, w: nat): (r: seq<real>)
    requires w > 0
    ensures |r| == |xs|
    decreases |xs|
  {
    if xs == [] then []
    else
      var n := |xs| - 1;
      var prev := TrailingSums(xs[..n], w);
      var carried := if n == 0 then 0.0 else prev[n - 1];
      var dropped := if n >= w then xs[n - w] else 0.0;
      prev + [carried + xs[n] - dropped]
  }

  /** Sliding a window one row on: add the new value, drop the one that left. */
  lemma WindowSlide(xs: seq<real>, w: nat, n: nat)
    requires w > 0 && 1 <= n < |xs|
    ensures Sum(xs[WindowStart(n, w)..n + 1])
      == Sum(xs[WindowStart(n - 1, w)..n]) + xs[n] - (if n >= w then xs[n - w] else 0.0)
  {
    var lo := WindowStart(n - 1, w);
    var whole := xs[lo..n + 1];
    assert whole[..|whole| - 1] == xs[lo..n];
    assert Sum(whole) == Sum(xs[lo..n]) + xs[n];
    if n >= w {
      SumFront(whole);
      assert whole[1..] == xs[lo + 1..n + 1];
    }
  }

  /** The last running sum, given that the one before it is a window sum. */
  lemma TrailingSumsLast(xs: seq<real>, w: nat)
    requires w > 0 && 2 <= |xs|
    requires TrailingSums(xs[..|xs| - 1], w)[|xs| - 2] == Sum(xs[WindowStart(|xs| - 2, w)..|xs| - 1])
    ensures TrailingSums(xs, w)[|xs| - 1] == Sum(xs[WindowStart(|xs| - 1, w)..|xs|])
  {
    WindowSlide(xs, w, |xs| - 1);
  }

  /** The running sums are the sums of the trailing windows. */
  lemma {:induction false} TrailingSumsAt(xs: seq<real>, w: nat, i: nat)
    requires w > 0 && i < |xs|
    ensures TrailingSums(xs, w)[i] == Sum(xs[WindowStart(i, w)..i + 1])
    decreases |xs|
  {
    var n := |xs| - 1;
    var init := xs[..n];
    if i < n {
      assert TrailingSums(xs, w)[i] == TrailingSums(init, w)[i];
      TrailingSumsAt(init, w, i);
      assert init[WindowStart(i, w)..i + 1] == xs[WindowStart(i, w)..i + 1];
    } else if n == 0 {
      assert xs[0..1][..0] == [];
    } else {
      TrailingSumsAt(init, w, n - 1);
      assert init[WindowStart(n - 1, w)..n] == xs[WindowStart(n - 1, w)..n];
      TrailingSumsLast(xs, w);
    }
  }

  /** `rolling(window=w).mean()`: undefined until a full window of `w`
      values exists, the window mean from then on. */
  function RollingMean(xs: seq<real>, w: nat): (r: seq<Option<real>>)
    requires w > 0
    ensures |r| == |xs|
  {
    var sums := TrailingSums(xs, w);
    seq(|xs|, i requires 0 <= i < |xs| =>
      if i + 1 < w then None else Some(sums[i] / (w as real)))
  }

  /** A rolling mean is missing exactly before the first full window, and
      otherwise the mean of the `w` values ending at `i`: there is no
      partial-window averaging. */
  lemma RollingMeanAt(xs: seq<real>, w: nat, i: nat)
    requires w > 0 && i < |xs|
    ensures RollingMean(xs, w)[i].None? <==> i < w - 1
    ensures i >= w - 1 ==>
      RollingMean(xs, w)[i] == Some(Sum(xs[i + 1 - w..i + 1]) / (w as real))
  {
    TrailingSumsAt(xs, w, i);
  }

  // ---------------------------------------------------------------------
  // Comparison, `np.where`, fill and slice assignment
  // ---------------------------------------------------------------------

  /** `a > b` on possibly missing values: any comparison with NaN is false. */
  predicate Gt(a: Option<real>, b: Option<real>)
  {
    a.Some? && b.Some? && a.value > b.value
  }

  /** Elementwise `a > b` of two aligned columns. */
  function Greater(a: seq<Option<real>>, b: seq<Option<real>>): (r: seq<bool>)
    requires |a| == |b|
    ensures |r| == |a|
  {
    seq(|a|, i requires 0 <= i < |a| => Gt(a[i], b[i]))
  }

  /** `np.where(c, yes, no)`. */
  function Where(c: seq<bool>, yes: int, no: int): (r: seq<int>)
    ensures |r| == |c|
  {
    seq(|c|, i requires 0 <= i < |c| => if c[i] then yes else no)
  }

  /** A column holding the scalar `v` in all `n` rows (`frame[col] = v`). */
  function Filled(n: nat, v: int): (r: seq<int>)
    ensures |r| == n
  {
    seq(n, _ => v)
  }

  /** Positional slice `xs[k:]`; empty when `k` is past the end. */
  function Tail<T>(xs: seq<T>, k: nat): (r: seq<T>)
    ensures |r| == if k < |xs| then |xs| - k else 0
  {
    if k < |xs| then xs[k..] else []
  }

  /** Slice assignment `base[k:] = vals`, which leaves `base[..k]` alone. */
  function AssignTail(base: seq<int>, k: nat, vals: seq<int>): (r: seq<int>)
    requires |vals| == |Tail(base, k)|
    ensures |r| == |base|
  {
    if k < |base| then base[..k] + vals else base
  }

  // ---------------------------------------------------------------------
  // diff, pct_change, shift and elementwise arithmetic
  // ---------------------------------------------------------------------

  /** `Series.diff()`: missing in row 0, the step from the previous row after. */
  function Diff(s: seq<int>): (r: seq<Option<int>>)
    ensures |r| == |s|
  {
    seq(|s|, i requires 0 <= i < |s| => if i == 0 then None else Some(s[i] - s[i - 1]))
  }

  /** Every value of the column is strictly positive. */
  predicate AllPositive(xs: seq<real>)
  {
    forall i :: 0 <= i < |xs| ==> xs[i] > 0.0
  }

  /** `Series.pct_change()`: missing in row 0, `x[i] / x[i-1] - 1` after. */
  function PctChange(xs: seq<real>): (r: seq<Option<real>>)
    requires AllPositive(xs)
    ensures |r| == |xs|
  {
    seq(|xs|, i requires 0 <= i < |xs| =>
      if i == 0 then None else Some(xs[i] / xs[i - 1] - 1.0))
  }

  /** `Series.shift(1)`: every value moves one row down, row 0 is missing. */
  function Shift(s: seq<int>): (r: seq<Option<int>>)
    ensures |r| == |s|
  {
    seq(|s|, i requires 0 <= i < |s| => if i == 0 then None else Some(s[i - 1]))
  }

  /** A real scaled by an integer: `a * k`. It is a named function rather
      than a bare product so that the lemmas about the strategy return can
      match the product term for term; the solver does not reliably equate
      two nonlinear products whose factors are equal but written apart. */
  function Scale(a: real, k: int): real
  {
    a * (k as real)
  }

  /** Elementwise product of a real and an integer column; missing if either is. */
  function Times(a: seq<Option<real>>, b: seq<Option<int>>): (r: seq<Option<real>>)
    requires |a| == |b|
    ensures |r| == |a|
  {
    seq(|a|, i requires 0 <= i < |a| =>
      if a[i].Some? && b[i].Some? then Some(Scale(a[i].value, b[i].value)) else None)
  }

  /** `1 + column`; missing stays missing. */
  function PlusOne(a: seq<Option<real>>): (r: seq<Option<real>>)
    ensures |r| == |a|
  {
    seq(|a|, i requires 0 <= i < |a| => if a[i].Some? then Some(1.0 + a[i].value) else None)
  }

  /** One compounding step: `acc` grown by the return `r`, that is
      `acc * (1 + r)`. Named for the same reason as `Scale`: it keeps the
      compounding recurrence cheap for the solver to match. */
  function Compound(acc: real, r: real): real
  {
    acc * (1.0 + r)
  }

  // ---------------------------------------------------------------------
  // cumprod (with pandas' default skipna)
  // ---------------------------------------------------------------------

  /** The running product as cumprod accumulates it: a missing entry yields a
      missing result and leaves the accumulator `acc` untouched. */
  function CumProdFrom(xs: seq<Option<real>>, acc: real): (r: seq<Option<real>>)
    ensures |r| == |xs|
    decreases |xs|
  {
    if xs == [] then []
    else if xs[0].None? then [None] + CumProdFrom(xs[1..], acc)
    else [Some(acc * xs[0].value)] + CumProdFrom(xs[1..], acc * xs[0].value)
  }

  /** `Series.cumprod()`. */
  function CumProd(xs: seq<Option<real>>): (r: seq<Option<real>>)
    ensures |r| == |xs|
  {
    CumProdFrom(xs, 1.0)
  }

  /** Reference definition: the product of the defined entries. */
  function DefinedProduct(xs: seq<Option<real>>): real
    decreases |xs|
  {
    if xs == [] then 1.0
    else (if xs[0].Some? then xs[0].value else 1.0) * DefinedProduct(xs[1..])
  }

  lemma {:induction false} DefinedProductSnoc(xs: seq<Option<real>>, x: Option<real>)
    ensures DefinedProduct(xs + [x]) == DefinedProduct(xs) * (if x.Some? then x.value else 1.0)
    decreases |xs|
  {
    if xs == [] {
      assert ([] + [x])[1..] == [];
    } else {
      assert (xs + [x])[1..] == xs[1..] + [x];
      DefinedProductSnoc(xs[1..], x);
    }
  }

  /** Peeling the first entry off a prefix product. */
  lemma DefinedProductPrefix(xs: seq<Option<real>>, i: nat)
    requires 1 <= i < |xs|
    ensures DefinedProduct(xs[..i + 1])
      == (if xs[0].Some? then xs[0].value else 1.0) * DefinedProduct(xs[1..][..i])
  {
    assert xs[..i + 1][1..] == xs[1..][..i];
  }

  lemma {:induction false} CumProdFromDefined(xs: seq<Option<real>>, acc: real, i: nat)
    requires i < |xs|
    ensures CumProdFrom(xs, acc)[i].Some? == xs[i].Some?
    decreases |xs|
  {
    if i > 0 {
      CumProdFromDefined(xs[1..], if xs[0].None? then acc else acc * xs[0].value, i - 1);
    }
  }

  /** One step of the induction below, for a defined first entry: the
      accumulator absorbs it. */
  lemma CumProdFromStep(xs: seq<Option<real>>, acc: real, i: nat)
    requires 1 <= i < |xs| && xs[0].Some? && xs[i].Some?
    requires CumProdFrom(xs[1..], acc * xs[0].value)[i - 1].Some?
    requires CumProdFrom(xs[1..], acc * xs[0].value)[i - 1].value
      == acc * xs[0].value * DefinedProduct(xs[1..][..i])
    ensures CumProdFrom(xs, acc)[i].value == acc * DefinedProduct(xs[..i + 1])
  {
    DefinedProductPrefix(xs, i);
    assert CumProdFrom(xs, acc)[i] == CumProdFrom(xs[1..], acc * xs[0].value)[i - 1];
  }

  /** The same step for a missing first entry: the accumulator is unchanged. */
  lemma CumProdFromSkip(xs: seq<Option<real>>, acc: real, i: nat)
    requires 1 <= i < |xs| && xs[0].None? && xs[i].Some?
    requires CumProdFrom(xs[1..], acc)[i - 1].Some?
    requires CumProdFrom(xs[1..], acc)[i - 1].value == acc * DefinedProduct(xs[1..][..i])
    ensures CumProdFrom(xs, acc)[i].value == acc * DefinedProduct(xs[..i + 1])
  {
    DefinedProductPrefix(xs, i);
    assert CumProdFrom(xs, acc)[i] == CumProdFrom(xs[1..], acc)[i - 1];
  }

  lemma {:induction false} CumProdFromAt(xs: seq<Option<real>>, acc: real, i: nat)
    requires i < |xs|
    ensures CumProdFrom(xs, acc)[i].Some? == xs[i].Some?
    ensures xs[i].Some? ==> CumProdFrom(xs, acc)[i].value == acc * DefinedProduct(xs[..i + 1])
    decreases |xs|
  {
    CumProdFromDefined(xs, acc, i);
    if i == 0 {
      assert xs[..1][1..] == [];
    } else if xs[i].Some? {
      if xs[0].Some? {
        CumProdFromAt(xs[1..], acc * xs[0].value, i - 1);
        CumProdFromStep(xs, acc, i);
      } else {
        CumProdFromAt(xs[1..], acc, i - 1);
        CumProdFromSkip(xs, acc, i);
      }
    }
  }

  /** cumprod at row `i` is missing exactly where the input is, and
      otherwise the product of all defined entries up to and including `i`. */
  lemma CumProdAt(xs: seq<Option<real>>, i: nat)
    requires i < |xs|
    ensures CumProd(xs)[i].Some? == xs[i].Some?
    ensures xs[i].Some? ==> CumProd(xs)[i].value == DefinedProduct(xs[..i + 1])
  {
    CumProdFromAt(xs, 1.0, i);
  }

  /** The compounding step: a defined cumprod entry is the product of the
      defined entries before it times the current factor, and so, when the
      previous entry is defined too, it is the previous result times the
      current factor. */
  lemma CumProdStep(xs: seq<Option<real>>, i: nat)
    requires 1 <= i < |xs| && xs[i].Some?
    ensures CumProd(xs)[i].Some?
    ensures CumProd(xs)[i].value == DefinedProduct(xs[..i]) * xs[i].value
    ensures xs[i - 1].Some? ==>
      CumProd(xs)[i - 1].Some? && CumProd(xs)[i].value == CumProd(xs)[i - 1].value * xs[i].value
  {
    CumProdAt(xs, i);
    CumProdAt(xs, i - 1);
    assert xs[..i + 1] == xs[..i] + [xs[i]];
    DefinedProductSnoc(xs[..i], xs[i]);
  }

  /** Compounding a return column that is missing only in row 0 with
      `(1 + r).cumprod()`: row 0 stays missing, row 1 is `1 + r[1]`, and every
      later row is the previous one times `1 + r[i]`. */
  lemma CompoundedAt(rs: seq<Option<real>>, cum: seq<Option<real>>, i: nat)
    requires i < |rs|
    requires forall k :: 0 <= k < |rs| ==> (rs[k].None? <==> k == 0)
    requires cum == CumProd(PlusOne(rs))
    ensures cum[i].None? <==> i == 0
    ensures i == 1 ==> cum[1].value == 1.0 + rs[1].value
    ensures i >= 2 ==>
      && cum[i - 1].Some?
      && cum[i].value == Compound(cum[i - 1].value, rs[i].value)
  {
    var factors := PlusOne(rs);
    CumProdAt(factors, i);
    if i >= 1 {
      assert factors[i].value == 1.0 + rs[i].value;
      CumProdStep(factors, i);
      if i == 1 {
        assert factors[..1] == [None];
        assert DefinedProduct(factors[..1]) == 1.0 * DefinedProduct([]);
      }
    }
  }

  // ---------------------------------------------------------------------
  // Reference sum for the telescoping of `diff`: missing entries skipped
  // ---------------------------------------------------------------------

  function SumDefined(ps: seq<Option<int>>): int
    decreases |ps|
  {
    if ps == [] then 0
    else SumDefined(ps[..|ps| - 1]) + (if ps[|ps| - 1].Some? then ps[|ps| - 1].value else 0)
  }

  /** Telescoping: the defined entries of `s.diff()` over rows `0..i` add up
      to `s[i] - s[0]`. */
  lemma {:induction false} DiffTelescopes(s: seq<int>, i: nat)
    requires i < |s|
    ensures SumDefined(Diff(s)[..i + 1]) == s[i] - s[0]
    decreases i
  {
    var d := Diff(s);
    assert d[..i + 1][..i] == d[..i];
    if i == 0 {
      assert d[..0] == [];
    } else {
      DiffTelescopes(s, i - 1);
    }
  }
}
