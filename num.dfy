// Floating-point samples as the numeric code sees them: a real value, or a
// gap (NaN) standing for a missing or masked sample. Every ordering
// comparison that involves a gap is false, and arithmetic spreads gaps,
// as IEEE NaN does in numpy.

module Num {

  datatype Num = Gap | Val(v: real)

  /** Functions the model treats as given: they stand for numpy / scipy. */
  datatype Numerics = Numerics(
    sqrt: real -> real,
    // numpy.median of a non-empty sequence of finite values
    median: seq<real> -> real,
    // scipy.signal.savgol_filter(samples, window, order)
    savgol: (seq<Num>, int, int) -> seq<Num>)

  /** savgol_filter returns one smoothed value per sample. */
  ghost predicate NumericsOk(num: Numerics)
  {
    forall s, w, o :: |num.savgol(s, w, o)| == |s|
  }

  predicate Lt(a: Num, b: Num) { a.Val? && b.Val? && a.v < b.v }
  predicate Gt(a: Num, b: Num) { a.Val? && b.Val? && a.v > b.v }

  function Add(a: Num, b: Num): (r: Num)
    ensures r.Val? <==> a.Val? && b.Val?
  {
    if a.Val? && b.Val? then Val(a.v + b.v) else Gap
  }

  function Sub(a: Num, b: Num): (r: Num)
    ensures r.Val? <==> a.Val? && b.Val?
  {
    if a.Val? && b.Val? then Val(a.v - b.v) else Gap
  }

  function Scale(a: Num, k: real): (r: Num)
    ensures r.Val? <==> a.Val?
  {
    if a.Val? then Val(a.v * k) else Gap
  }

  /** a / b; a zero divisor gives a gap (numpy would give an infinity). */
  function Quot(a: Num, b: Num): (r: Num)
    ensures r.Val? <==> a.Val? && b.Val? && b.v != 0.0
  {
    if a.Val? && b.Val? && b.v != 0.0 then Val(a.v / b.v) else Gap
  }

  predicate AllVal(s: seq<Num>) { forall i :: 0 <= i < |s| ==> s[i].Val? }

  /** numpy.sum: a gap anywhere makes the sum a gap. */
  function Sum(s: seq<Num>): (r: Num)
    ensures r.Val? <==> AllVal(s)
  {
    if s == [] then Val(0.0) else Add(Sum(s[..|s| - 1]), s[|s| - 1])
  }

  /** numpy.mean: a gap for an empty sequence or one holding a gap. */
  function Mean(s: seq<Num>): (r: Num)
    ensures r.Val? <==> |s| > 0 && AllVal(s)
  {
    if |s| == 0 then Gap else Quot(Sum(s), Val(|s| as real))
  }

  /** The finite entries of `s`, in order (s[numpy.isfinite(s)]). */
  function Finite(s: seq<Num>): (r: seq<real>)
    ensures |r| <= |s|
  {
    if s == [] then []
    else Finite(s[..|s| - 1]) + (if s[|s| - 1].Val? then [s[|s| - 1].v] else [])
  }

  /** The finite entries are exactly the values the sequence holds. */
  lemma {:induction false} FiniteMembers(s: seq<Num>)
    ensures forall x :: x in Finite(s) <==> Val(x) in s
  {
    if s != [] {
      FiniteMembers(s[..|s| - 1]);
      assert s == s[..|s| - 1] + [s[|s| - 1]];
    }
  }

  /** There are finite entries exactly when some entry is not a gap. */
  lemma FiniteNonEmpty(s: seq<Num>)
    ensures Finite(s) != [] <==> exists i :: 0 <= i < |s| && s[i].Val?
  {
    FiniteMembers(s);
    if i :| 0 <= i < |s| && s[i].Val? { assert s[i].v in Finite(s); }
    if Finite(s) != [] { assert Val(Finite(s)[0]) in s; }
  }

  function Vals(s: seq<real>): (r: seq<Num>)
    ensures |r| == |s| && AllVal(r)
    ensures forall i :: 0 <= i < |s| ==> r[i] == Val(s[i])
  {
    seq(|s|, i requires 0 <= i < |s| => Val(s[i]))
  }

  /** numpy.nanmean: the mean of the finite entries, a gap when there are none. */
  function NanMean(s: seq<Num>): Num
  {
    Mean(Vals(Finite(s)))
  }

  /** numpy.nanmedian: the median of the finite entries, a gap when there are none. */
  function NanMedian(s: seq<Num>, num: Numerics): Num
  {
    var f := Finite(s);
    if f == [] then Gap else Val(num.median(f))
  }

  /** numpy.nanmean and numpy.nanmedian are numbers exactly when some entry is. */
  lemma NanStatisticsDefined(s: seq<Num>, num: Numerics)
    ensures NanMean(s).Val? <==> exists i :: 0 <= i < |s| && s[i].Val?
    ensures NanMedian(s, num).Val? <==> exists i :: 0 <= i < |s| && s[i].Val?
  {
    FiniteNonEmpty(s);
  }

  /** numpy.std of finite values: the population standard deviation. */
  function Std(s: seq<real>, num: Numerics): (r: Num)
    ensures r.Val? <==> |s| > 0
  {
    if |s| == 0 then Gap
    else
      var m := Mean(Vals(s)).v;
      var dev := seq(|s|, i requires 0 <= i < |s| => Val((s[i] - m) * (s[i] - m)));
      Val(num.sqrt(Mean(dev).v))
  }

  /** On gap-free samples numpy.nanmean and numpy.mean agree. */
  lemma {:induction false} NanMeanOfGapFree(s: seq<Num>)
    requires AllVal(s)
    ensures NanMean(s) == Mean(s)
  {
    FiniteOfGapFree(s);
  }

  lemma {:induction false} FiniteOfGapFree(s: seq<Num>)
    requires AllVal(s)
    ensures Vals(Finite(s)) == s
  {
    if s != [] {
      FiniteOfGapFree(s[..|s| - 1]);
      assert s == s[..|s| - 1] + [s[|s| - 1]];
    }
  }
}
