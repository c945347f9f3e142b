// The fixation / saccade / blink detector of one trial: gaps for zero
// coordinates, velocities, the velocity threshold, the -1/0/+1 edge
// vectors, pairing of start and end markers into fixations, removal of
// short fixations with regeneration of the saccades between the rest,
// and blinks from the pupil signal.

module EyeData {
  import opened Base
  import opened Num
  import opened EyeLog
  import opened EyeExperiment

  /** The marker of a start (EyeData._sf) and of an end (EyeData._ef) in an edge vector. */
  const SF: int := -1
  const EF: int := 1

  predicate StrictlyIncreasing(t: seq<int>) { forall i, j :: 0 <= i < j < |t| ==> t[i] < t[j] }

  predicate Increasing(p: seq<nat>) { forall i, j :: 0 <= i < j < |p| ==> p[i] < p[j] }

  // ---------------------------------------------------------------------
  // Edge vectors and marker positions

  /**
   * concatenate([0], m) - concatenate(m, [0]): -1 where a run of true
   * values starts, +1 one past the index where it ends, 0 elsewhere.
   */
  function Edge(m: seq<bool>): (e: seq<int>)
    ensures |e| == |m| + 1
  {
    seq(|m| + 1, i requires 0 <= i <= |m| => (if 0 < i && m[i - 1] then 1 else 0) - (if i < |m| && m[i] then 1 else 0))
  }

  /** An edge vector holds only -1, 0 and +1: -1 exactly at the first index of a run, +1 exactly one past its last. */
  lemma EdgeMarks(m: seq<bool>)
    ensures forall i :: 0 <= i < |Edge(m)| ==> -1 <= Edge(m)[i] <= 1
    ensures forall i :: 0 <= i < |Edge(m)| ==> (Edge(m)[i] == SF <==> i < |m| && m[i] && (i == 0 || !m[i - 1]))
    ensures forall i :: 0 <= i < |Edge(m)| ==> (Edge(m)[i] == EF <==> 0 < i && m[i - 1] && (i == |m| || !m[i]))
  {
  }

  /** The indices of `v` holding `val`, in increasing order (numpy's v == val as a mask). */
  function Positions(v: seq<int>, val: int): (p: seq<nat>)
    ensures |p| <= |v|
  {
    if v == [] then [] else Positions(v[..|v| - 1], val) + (if v[|v| - 1] == val then [|v| - 1] else [])
  }

  /** Positions lists exactly the indices holding the value, each once and in increasing order. */
  lemma {:induction false} PositionsSpec(v: seq<int>, val: int)
    ensures Increasing(Positions(v, val))
    ensures forall k :: 0 <= k < |Positions(v, val)| ==> Positions(v, val)[k] < |v| && v[Positions(v, val)[k]] == val
    ensures forall i :: 0 <= i < |v| && v[i] == val ==> i in Positions(v, val)
  {
    if v != [] {
      PositionsSpec(v[..|v| - 1], val);
    }
  }

  /** Start and end indices that alternate: a[0] < b[0] < a[1] < b[1] < ... */
  predicate Interleaved(a: seq<nat>, b: seq<nat>)
  {
    && |a| == |b|
    && (forall k :: 0 <= k < |a| ==> a[k] < b[k])
    && (forall i, j :: 0 <= i < j < |a| ==> b[i] < a[j])
  }

  lemma InterleavedSnoc(a: seq<nat>, b: seq<nat>, x: nat, y: nat)
    requires Interleaved(a, b) && x < y
    requires forall k :: 0 <= k < |b| ==> b[k] < x
    ensures Interleaved(a + [x], b + [y])
  {
  }

  lemma InterleavedRaiseLast(a: seq<nat>, b: seq<nat>, y: nat)
    requires Interleaved(a, b) && |b| > 0 && b[|b| - 1] < y
    ensures Interleaved(a, b[..|b| - 1] + [y])
  {
  }

  lemma PositionsSnoc2(v: seq<int>, val: int)
    requires |v| >= 2
    ensures Positions(v, val) ==
      Positions(v[..|v| - 2], val) + (if v[|v| - 2] == val then [|v| - 2] else []) + (if v[|v| - 1] == val then [|v| - 1] else [])
  {
    assert v[..|v| - 1][..|v| - 2] == v[..|v| - 2];
  }

  /** How the marker positions change when the mask grows by one element. */
  lemma EdgeSnocPositions(m: seq<bool>)
    requires |m| > 0
    ensures var n := |m| - 1;
      var last := n > 0 && m[n - 1];
      var bit := m[n];
      var b' := Positions(Edge(m[..n]), EF);
      && Positions(Edge(m), SF) == Positions(Edge(m[..n]), SF) + (if !last && bit then [n] else [])
      && (last ==> |b'| > 0 && b'[|b'| - 1] == n)
      && Positions(Edge(m), EF) == (if last && bit then b'[..|b'| - 1] else b') + (if bit then [n + 1] else [])
  {
    var n := |m| - 1;
    var m' := m[..n];
    var last := n > 0 && m[n - 1];
    var bit := m[n];
    var e, e' := Edge(m), Edge(m');
    assert e[..n] == e'[..n];
    assert e'[n] == if last then 1 else 0;
    assert e[n] == (if last then 1 else 0) - (if bit then 1 else 0);
    assert e[n + 1] == if bit then 1 else 0;
    PositionsSnoc2(e, SF);
    PositionsSnoc2(e, EF);
    assert e'[..n + 1 - 1] == e'[..n];
  }

  /**
   * The starts and ends of an edge vector alternate, beginning with a start,
   * and there are as many of each; the last end is the final index exactly
   * when the mask ends inside a run.
   */
  lemma {:induction false} EdgeRuns(m: seq<bool>)
    ensures Interleaved(Positions(Edge(m), SF), Positions(Edge(m), EF))
    ensures |m| > 0 && m[|m| - 1] ==>
      |Positions(Edge(m), EF)| > 0 && Positions(Edge(m), EF)[|Positions(Edge(m), EF)| - 1] == |m|
    ensures !(|m| > 0 && m[|m| - 1]) ==> forall k :: 0 <= k < |Positions(Edge(m), EF)| ==> Positions(Edge(m), EF)[k] < |m|
  {
    if m == [] {
      assert Edge(m) == [0];
      assert Edge(m)[..0] == [];
    } else {
      var n := |m| - 1;
      var m' := m[..n];
      var bit := m[n];
      var last := n > 0 && m'[n - 1];
      EdgeRuns(m');
      EdgeSnocPositions(m);
      var a', b' := Positions(Edge(m'), SF), Positions(Edge(m'), EF);
      if !last && bit {
        InterleavedSnoc(a', b', n, n + 1);
      } else if last && bit {
        InterleavedRaiseLast(a', b', n + 1);
      }
    }
  }

  lemma InterleavedFacts(a: seq<nat>, b: seq<nat>)
    requires Interleaved(a, b)
    ensures Increasing(a) && Increasing(b)
    ensures forall i, j :: 0 <= i < |a| && 0 <= j < |b| ==> a[i] != b[j]
  {
    forall i, j | 0 <= i < |a| && 0 <= j < |b|
      ensures a[i] != b[j]
    {
      if j < i {
        assert b[j] < a[i];
      } else {
        assert a[i] < b[i];
        if i < j {
          assert b[i] < a[j] < b[j];
        }
      }
    }
  }

  lemma FirstIsIn(s: seq<nat>)
    ensures |s| > 0 ==> s[0] in s
  {
  }

  lemma InterleavedApart(a: seq<nat>, b: seq<nat>, i: nat)
    requires Interleaved(a, b)
    ensures i in b ==> i !in a
  {
    if i in b {
      var j :| 0 <= j < |b| && b[j] == i;
      InterleavedFacts(a, b);
      assert forall k :: 0 <= k < |a| ==> a[k] != i;
    }
  }

  /** Two increasing index sequences with the same elements are equal. */
  lemma {:induction false} IncreasingUnique(p: seq<nat>, q: seq<nat>)
    requires Increasing(p) && Increasing(q)
    requires forall z :: z in p <==> z in q
    ensures p == q
  {
    if p == [] || q == [] {
      FirstIsIn(p);
      FirstIsIn(q);
    } else {
      var x, y := p[|p| - 1], q[|q| - 1];
      assert x in q && y in p;
      assert x == y;
      var p', q' := p[..|p| - 1], q[..|q| - 1];
      forall z
        ensures z in p' <==> z in q'
      {
        if z in p' {
          var i :| 0 <= i < |p'| && p'[i] == z;
          assert z < x && z in q;
          var j :| 0 <= j < |q| && q[j] == z;
          assert j != |q| - 1;
          assert q'[j] == z;
        }
        if z in q' {
          var j :| 0 <= j < |q'| && q'[j] == z;
          assert z < y && z in p;
          var i :| 0 <= i < |p| && p[i] == z;
          assert i != |p| - 1;
          assert p'[i] == z;
        }
      }
      IncreasingUnique(p', q');
      assert p == p' + [x] && q == q' + [y];
    }
  }

  /** Positions is determined by which indices hold the value. */
  lemma PositionsExactly(v: seq<int>, val: int, p: seq<nat>)
    requires Increasing(p) && forall k :: 0 <= k < |p| ==> p[k] < |v|
    requires forall i :: 0 <= i < |v| ==> (v[i] == val <==> i in p)
    ensures Positions(v, val) == p
  {
    PositionsSpec(v, val);
    var q := Positions(v, val);
    forall z
      ensures z in p <==> z in q
    {
      if z in q {
        var k :| 0 <= k < |q| && q[k] == z;
      }
      if z in p {
        var k :| 0 <= k < |p| && p[k] == z;
      }
    }
    IncreasingUnique(p, q);
  }

  // ---------------------------------------------------------------------
  // Fixations from an edge vector (EyeData._getFixList)

  /** times[idx], element by element (numpy fancy indexing). */
  function Pick(times: seq<int>, idx: seq<nat>): (r: seq<int>)
    requires forall k :: 0 <= k < |idx| ==> idx[k] < |times|
    ensures |r| == |idx|
  {
    seq(|idx|, k requires 0 <= k < |idx| => times[idx[k]])
  }

  /** The samples of `x` whose time lies in [s, e]. */
  function Within(times: seq<int>, x: seq<Num>, s: int, e: int): (r: seq<Num>)
    requires |x| == |times|
    ensures |r| <= |x|
  {
    if times == [] then []
    else
      Within(times[..|times| - 1], x[..|x| - 1], s, e)
      + (if s <= times[|times| - 1] <= e then [x[|x| - 1]] else [])
  }

  /** The fixation from time s to time e, at the mean position of the samples in between. */
  function FixationOver(times: seq<int>, x: seq<Num>, y: seq<Num>, et: EntryType, s: int, e: int): LogEntry
    requires |x| == |times| && |y| == |times|
  {
    Fixation(et, s, e - s, Mean(Within(times, x, s, e)), Mean(Within(times, y, s, e)))
  }

  /**
   * EyeData._getFixList: the k-th start marker is paired with the k-th end
   * marker. Empty times give no fixations; a type other than LFIX/RFIX,
   * unequal marker counts and an end before its start are ValueErrors;
   * arrays of different lengths are numpy IndexErrors.
   */
  function FixList(times: seq<int>, vec: seq<int>, x: seq<Num>, y: seq<Num>, et: EntryType): (r: Result<seq<LogEntry>>)
    ensures r.Ok? ==> forall k :: 0 <= k < |r.value| ==>
      r.value[k].Fixation? && r.value[k].etype == et && r.value[k].duration >= 0
    ensures r.Ok? ==> et == LFIX || et == RFIX
    ensures r.Ok? && r.value != [] ==> |x| == |times| && |y| == |times| && |vec| == |times|
  {
    if et != LFIX && et != RFIX then Err(ValueError)
    else if |times| == 0 then Ok([])
    else if |vec| != |times| then Err(IndexError)
    else FixPairs(times, MarkerTimes(times, vec, SF), MarkerTimes(times, vec, EF), x, y, et)
  }

  /** gazetimes[startendfix == val] */
  function MarkerTimes(times: seq<int>, vec: seq<int>, val: int): (r: seq<int>)
    requires |vec| == |times|
    ensures |r| == |Positions(vec, val)|
  {
    PositionsSpec(vec, val);
    Pick(times, Positions(vec, val))
  }

  /** The fixations for start times `st` paired with end times `en`, k-th with k-th. */
  function FixPairs(times: seq<int>, st: seq<int>, en: seq<int>, x: seq<Num>, y: seq<Num>, et: EntryType): (r: Result<seq<LogEntry>>)
    ensures r.Ok? ==> forall k :: 0 <= k < |r.value| ==>
      r.value[k].Fixation? && r.value[k].etype == et && r.value[k].duration >= 0
    ensures r.Ok? && r.value != [] ==> |x| == |times| && |y| == |times|
  {
    if |st| != |en| then Err(ValueError)
    else if |st| > 0 && (|x| != |times| || |y| != |times|) then Err(if en[0] < st[0] then ValueError else IndexError)
    else if exists k :: 0 <= k < |st| && en[k] < st[k] then Err(ValueError)
    else Ok(seq(|st|, k requires 0 <= k < |st| => FixationOver(times, x, y, et, st[k], en[k])))
  }

  /** The fixation list read back at the level of marker indices. */
  lemma FixListShape(times: seq<int>, vec: seq<int>, x: seq<Num>, y: seq<Num>, et: EntryType)
    requires |times| > 0 && |vec| == |times| && FixList(times, vec, x, y, et).Ok?
    ensures PositionsBounded(vec)
    ensures var fs := FixList(times, vec, x, y, et).value;
      var a, b := Positions(vec, SF), Positions(vec, EF);
      && |fs| == |a| == |b|
      && forall k :: 0 <= k < |fs| ==> (|x| == |times| && |y| == |times| && fs[k] == FixationOver(times, x, y, et, times[a[k]], times[b[k]]))
  {
    PositionsSpec(vec, SF);
    PositionsSpec(vec, EF);
  }

  predicate PositionsBounded(vec: seq<int>)
  {
    (forall k :: 0 <= k < |Positions(vec, SF)| ==> Positions(vec, SF)[k] < |vec|)
    && (forall k :: 0 <= k < |Positions(vec, EF)| ==> Positions(vec, EF)[k] < |vec|)
  }

  /** On increasing times, the markers of an edge vector always pair up into fixations. */
  lemma FixListOfEdge(times: seq<int>, m: seq<bool>, x: seq<Num>, y: seq<Num>, et: EntryType)
    requires StrictlyIncreasing(times) && |times| == |m| + 1
    requires |x| == |times| && |y| == |times| && (et == LFIX || et == RFIX)
    ensures FixList(times, Edge(m), x, y, et).Ok?
    ensures |FixList(times, Edge(m), x, y, et).value| == |Positions(Edge(m), SF)|
  {
    EdgeRuns(m);
    PositionsSpec(Edge(m), SF);
    PositionsSpec(Edge(m), EF);
  }

  // ---------------------------------------------------------------------
  // Rewriting an edge vector (the masked assignments of _fixFixSac)

  function Zeros(n: nat): (r: seq<int>)
    ensures |r| == n && forall i :: 0 <= i < n ==> r[i] == 0
  {
    seq(n, _ => 0)
  }

  /** v[times == t] = val */
  function Mark(v: seq<int>, times: seq<int>, t: int, val: int): (r: seq<int>)
    requires |v| == |times|
    ensures |r| == |v|
  {
    seq(|v|, i requires 0 <= i < |v| => if times[i] == t then val else v[i])
  }

  predicate Spans(s: seq<LogEntry>) { forall k :: 0 <= k < |s| ==> s[k].Fixation? || s[k].Saccade? }

  /** Marks the start (-1) and then the end (+1) of every fixation or saccade, in order. */
  function MarkSpans(v: seq<int>, times: seq<int>, spans: seq<LogEntry>): (r: seq<int>)
    requires |v| == |times| && Spans(spans)
    ensures |r| == |v|
  {
    if spans == [] then v
    else
      var s := spans[|spans| - 1];
      Mark(Mark(MarkSpans(v, times, spans[..|spans| - 1]), times, s.time, SF), times, s.time + s.duration, EF)
  }

  /** Marking a start and then an end: the end wins where both fall on the same sample. */
  lemma MarkTwice(v: seq<int>, times: seq<int>, ta: int, tb: int, i: nat)
    requires |v| == |times| && i < |times|
    ensures Mark(Mark(v, times, ta, SF), times, tb, EF)[i] == if times[i] == tb then EF else if times[i] == ta then SF else v[i]
  {
  }

  /**
   * With strictly increasing times, marking spans that start at the samples
   * `a` and end at the samples `b` leaves -1 exactly at `a`, +1 exactly at
   * `b` and 0 elsewhere.
   */
  lemma {:induction false} MarkedAt(times: seq<int>, spans: seq<LogEntry>, a: seq<nat>, b: seq<nat>)
    requires StrictlyIncreasing(times) && Spans(spans)
    requires Interleaved(a, b) && |a| == |spans|
    requires forall k :: 0 <= k < |b| ==> b[k] < |times|
    requires forall k :: 0 <= k < |spans| ==> spans[k].time == times[a[k]] && spans[k].time + spans[k].duration == times[b[k]]
    ensures forall i :: 0 <= i < |times| ==>
      MarkSpans(Zeros(|times|), times, spans)[i] == (if i in a then SF else if i in b then EF else 0)
  {
    if spans != [] {
      var n := |spans| - 1;
      var a', b' := a[..n], b[..n];
      MarkedAt(times, spans[..n], a', b');
      InterleavedFacts(a, b);
      var v' := MarkSpans(Zeros(|times|), times, spans[..n]);
      var v := MarkSpans(Zeros(|times|), times, spans);
      assert v == Mark(Mark(v', times, times[a[n]], SF), times, times[b[n]], EF);
      assert a == a' + [a[n]] && b == b' + [b[n]];
      forall i | 0 <= i < |times|
        ensures v[i] == (if i in a then SF else if i in b then EF else 0)
      {
        MarkTwice(v', times, times[a[n]], times[b[n]], i);
        if i == b[n] {
        } else if i == a[n] {
          assert times[i] != times[b[n]];
        } else {
          assert times[i] != times[a[n]] && times[i] != times[b[n]];
        }
      }
    }
  }

  /** Reading back a vector whose markers sit at alternating samples `a` and `b`. */
  lemma FixListAt(times: seq<int>, vec: seq<int>, x: seq<Num>, y: seq<Num>, et: EntryType, a: seq<nat>, b: seq<nat>)
    requires StrictlyIncreasing(times) && |times| > 0 && |vec| == |times| && |x| == |times| && |y| == |times|
    requires et == LFIX || et == RFIX
    requires Interleaved(a, b) && forall k :: 0 <= k < |b| ==> b[k] < |times|
    requires Positions(vec, SF) == a && Positions(vec, EF) == b
    ensures var r := FixList(times, vec, x, y, et);
      && r.Ok? && |r.value| == |a|
      && forall k :: 0 <= k < |a| ==> r.value[k] == FixationOver(times, x, y, et, times[a[k]], times[b[k]])
  {
    InterleavedFacts(a, b);
    PositionsSpec(vec, EF);
    var st := MarkerTimes(times, vec, SF);
    var en := MarkerTimes(times, vec, EF);
    assert forall k :: 0 <= k < |st| ==> st[k] == times[a[k]] && en[k] == times[b[k]] && st[k] <= en[k];
    var r := FixList(times, vec, x, y, et);
    assert r == Ok(seq(|st|, k requires 0 <= k < |st| => FixationOver(times, x, y, et, st[k], en[k])));
  }

  /** With strictly increasing times, the markers left by MarkSpans sit exactly at `a` and `b`. */
  lemma MarkedPositions(times: seq<int>, spans: seq<LogEntry>, a: seq<nat>, b: seq<nat>)
    requires StrictlyIncreasing(times) && Spans(spans)
    requires Interleaved(a, b) && |a| == |spans|
    requires forall k :: 0 <= k < |b| ==> b[k] < |times|
    requires forall k :: 0 <= k < |spans| ==> spans[k].time == times[a[k]] && spans[k].time + spans[k].duration == times[b[k]]
    ensures Positions(MarkSpans(Zeros(|times|), times, spans), SF) == a
    ensures Positions(MarkSpans(Zeros(|times|), times, spans), EF) == b
  {
    MarkedAt(times, spans, a, b);
    PositionsOfMarks(MarkSpans(Zeros(|times|), times, spans), a, b);
  }

  /** A vector holding -1 exactly at `a`, +1 exactly at `b` and 0 elsewhere has its markers at `a` and `b`. */
  lemma PositionsOfMarks(v: seq<int>, a: seq<nat>, b: seq<nat>)
    requires Interleaved(a, b) && forall k :: 0 <= k < |b| ==> b[k] < |v|
    requires forall i :: 0 <= i < |v| ==> v[i] == (if i in a then SF else if i in b then EF else 0)
    ensures Positions(v, SF) == a && Positions(v, EF) == b
  {
    InterleavedFacts(a, b);
    forall i | 0 <= i < |v|
      ensures v[i] == SF <==> i in a
    {
    }
    forall i | 0 <= i < |v|
      ensures v[i] == EF <==> i in b
    {
      InterleavedApart(a, b, i);
    }
    PositionsExactly(v, SF, a);
    PositionsExactly(v, EF, b);
  }

  lemma FixationSpans(times: seq<int>, x: seq<Num>, y: seq<Num>, et: EntryType, spans: seq<LogEntry>, a: seq<nat>, b: seq<nat>)
    requires |x| == |times| && |y| == |times| && |a| == |spans| && |b| == |spans|
    requires forall k :: 0 <= k < |b| ==> a[k] < |times| && b[k] < |times|
    requires forall k :: 0 <= k < |spans| ==> spans[k] == FixationOver(times, x, y, et, times[a[k]], times[b[k]])
    ensures Spans(spans)
    ensures forall k :: 0 <= k < |spans| ==> spans[k].time == times[a[k]] && spans[k].time + spans[k].duration == times[b[k]]
  {
  }

  /**
   * Marking fixations whose starts and ends are alternating samples, then
   * reading the markers back, gives the same fixations.
   */
  lemma FixListOfMarked(times: seq<int>, x: seq<Num>, y: seq<Num>, et: EntryType, spans: seq<LogEntry>, a: seq<nat>, b: seq<nat>)
    requires StrictlyIncreasing(times) && |times| > 0 && |x| == |times| && |y| == |times|
    requires et == LFIX || et == RFIX
    requires Interleaved(a, b) && |a| == |spans|
    requires forall k :: 0 <= k < |b| ==> b[k] < |times|
    requires forall k :: 0 <= k < |spans| ==> spans[k] == FixationOver(times, x, y, et, times[a[k]], times[b[k]])
    ensures Spans(spans)
    ensures FixList(times, MarkSpans(Zeros(|times|), times, spans), x, y, et) == Ok(spans)
    ensures Positions(MarkSpans(Zeros(|times|), times, spans), SF) == a
    ensures Positions(MarkSpans(Zeros(|times|), times, spans), EF) == b
  {
    FixationSpans(times, x, y, et, spans, a, b);
    MarkedPositions(times, spans, a, b);
    var v := MarkSpans(Zeros(|times|), times, spans);
    FixListAt(times, v, x, y, et, a, b);
    assert FixList(times, v, x, y, et).value == spans;
  }

  /** The long-enough list of fixations in the first fixation list. */
  lemma LongFixationsSurvive(times: seq<int>, vec: seq<int>, x: seq<Num>, y: seq<Num>, et: EntryType, minDur: real)
    requires StrictlyIncreasing(times) && |times| > 0 && |vec| == |times|
    requires Interleaved(Positions(vec, SF), Positions(vec, EF))
    requires FixList(times, vec, x, y, et).Ok?
    ensures Spans(FixList(times, vec, x, y, et).value)
    ensures var long := LongOnly(FixList(times, vec, x, y, et).value, minDur);
      var marked := MarkSpans(Zeros(|times|), times, long);
      && FixList(times, marked, x, y, et) == Ok(long)
      && Interleaved(Positions(marked, SF), Positions(marked, EF))
  {
    var fs := FixList(times, vec, x, y, et).value;
    var long := LongOnly(fs, minDur);
    var marked := MarkSpans(Zeros(|times|), times, long);
    if long == [] {
      assert marked == Zeros(|times|);
      NoMarks(times, x, y, et);
    } else {
      FixListShape(times, vec, x, y, et);
      PositionsSpec(vec, EF);
      LongAt(times, x, y, et, fs, Positions(vec, SF), Positions(vec, EF), minDur);
    }
  }

  /** A vector of zeros holds no fixation. */
  lemma NoMarks(times: seq<int>, x: seq<Num>, y: seq<Num>, et: EntryType)
    requires |times| > 0 && (et == LFIX || et == RFIX)
    ensures Positions(Zeros(|times|), SF) == [] && Positions(Zeros(|times|), EF) == []
    ensures FixList(times, Zeros(|times|), x, y, et) == Ok([])
  {
    ZerosNoPositions(|times|, SF);
    ZerosNoPositions(|times|, EF);
    var r := FixList(times, Zeros(|times|), x, y, et);
    assert MarkerTimes(times, Zeros(|times|), SF) == [];
    assert r.Ok? && |r.value| == 0;
  }

  lemma {:induction false} ZerosNoPositions(n: nat, val: int)
    requires val != 0
    ensures Positions(Zeros(n), val) == []
  {
    if n > 0 {
      ZerosNoPositions(n - 1, val);
      assert Zeros(n)[..n - 1] == Zeros(n - 1);
    }
  }

  /** The long fixations, marked and read back, are the long fixations. */
  lemma LongAt(times: seq<int>, x: seq<Num>, y: seq<Num>, et: EntryType, fs: seq<LogEntry>, a: seq<nat>, b: seq<nat>, minDur: real)
    requires StrictlyIncreasing(times) && |times| > 0 && |x| == |times| && |y| == |times|
    requires et == LFIX || et == RFIX
    requires Interleaved(a, b) && |a| == |fs| && forall k :: 0 <= k < |b| ==> b[k] < |times|
    requires forall k :: 0 <= k < |fs| ==> fs[k] == FixationOver(times, x, y, et, times[a[k]], times[b[k]])
    ensures Spans(fs)
    ensures var long := LongOnly(fs, minDur);
      var marked := MarkSpans(Zeros(|times|), times, long);
      && FixList(times, marked, x, y, et) == Ok(long)
      && Interleaved(Positions(marked, SF), Positions(marked, EF))
  {
    assert Spans(fs);
    var long := LongOnly(fs, minDur);
    var ks := LongIndices(fs, minDur);
    var a', b' := Subsequence(a, ks), Subsequence(b, ks);
    InterleavedPick(a, b, ks);
    assert forall j :: 0 <= j < |long| ==> long[j] == FixationOver(times, x, y, et, times[a'[j]], times[b'[j]]);
    FixListOfMarked(times, x, y, et, long, a', b');
  }

  /** s[ks], element by element. */
  function Subsequence(s: seq<nat>, ks: seq<nat>): (r: seq<nat>)
    requires forall j :: 0 <= j < |ks| ==> ks[j] < |s|
    ensures |r| == |ks| && forall j :: 0 <= j < |ks| ==> r[j] == s[ks[j]]
  {
    seq(|ks|, j requires 0 <= j < |ks| => s[ks[j]])
  }

  /** Dropping matching start/end pairs keeps the starts and ends alternating. */
  lemma InterleavedPick(a: seq<nat>, b: seq<nat>, ks: seq<nat>)
    requires Interleaved(a, b) && Increasing(ks) && forall j :: 0 <= j < |ks| ==> ks[j] < |a|
    ensures Interleaved(Subsequence(a, ks), Subsequence(b, ks))
  {
  }

  /** The fixations lasting at least `minDur` (the list comprehension of _fixFixSac). */
  function LongOnly(fs: seq<LogEntry>, minDur: real): (r: seq<LogEntry>)
    requires Spans(fs)
    ensures |r| <= |fs| && Spans(r)
    ensures forall k :: 0 <= k < |r| ==> r[k].duration as real >= minDur
  {
    if fs == [] then []
    else LongOnly(fs[..|fs| - 1], minDur) + (if fs[|fs| - 1].duration as real >= minDur then [fs[|fs| - 1]] else [])
  }

  /** Where the kept fixations come from: increasing indices into the full list. */
  function LongIndices(fs: seq<LogEntry>, minDur: real): (ks: seq<nat>)
    requires Spans(fs)
    ensures |ks| == |LongOnly(fs, minDur)| && Increasing(ks)
    ensures forall j :: 0 <= j < |ks| ==> ks[j] < |fs| && LongOnly(fs, minDur)[j] == fs[ks[j]]
  {
    if fs == [] then []
    else LongIndices(fs[..|fs| - 1], minDur) + (if fs[|fs| - 1].duration as real >= minDur then [|fs| - 1] else [])
  }

  /** Filtering a list that is already long enough changes nothing. */
  lemma {:induction false} LongOnlyKeepsLong(fs: seq<LogEntry>, minDur: real)
    requires Spans(fs) && forall k :: 0 <= k < |fs| ==> fs[k].duration as real >= minDur
    ensures LongOnly(fs, minDur) == fs
  {
    if fs != [] {
      LongOnlyKeepsLong(fs[..|fs| - 1], minDur);
      assert fs == fs[..|fs| - 1] + [fs[|fs| - 1]];
    }
  }

  // ---------------------------------------------------------------------
  // Saccades between consecutive fixations

  /** The first index holding `t` (np.where(...)[0][0]). */
  function IndexOf(times: seq<int>, t: int): (r: Option<nat>)
    ensures r.Some? ==> r.value < |times| && times[r.value] == t
    ensures r.Some? ==> forall j :: 0 <= j < r.value ==> times[j] != t
    ensures r.None? ==> forall j :: 0 <= j < |times| ==> times[j] != t
  {
    if times == [] then None
    else if times[0] == t then Some(0)
    else match IndexOf(times[1..], t)
      case None => None
      case Some(i) => Some(i + 1)
  }

  lemma IndexOfIncreasing(times: seq<int>, i: nat)
    requires StrictlyIncreasing(times) && i < |times|
    ensures IndexOf(times, times[i]) == Some(i)
  {
  }

  /** Some sample of `x` strictly between the times s and e is missing. */
  predicate GapBetween(times: seq<int>, x: seq<Num>, s: int, e: int)
    requires |x| == |times|
  {
    exists i :: 0 <= i < |times| && s < times[i] < e && x[i].Gap?
  }

  /**
   * The saccade between two fixations: it starts one sample after the first
   * fixation ends and ends one sample before the second starts (index -1
   * wraps to the last sample). A time that is not a sample, or a first
   * fixation ending at the last sample (numpy fancy indexing past the end),
   * is an IndexError; a missing sample in between gives no saccade.
   */
  function SaccadeBetween(times: seq<int>, x: seq<Num>, f0: LogEntry, f1: LogEntry, st: EntryType): Result<Option<LogEntry>>
    requires f0.Fixation? && f1.Fixation? && |x| == |times|
  {
    var i0 := IndexOf(times, f0.time + f0.duration);
    var i1 := IndexOf(times, f1.time);
    if i0.None? || times[|times| - 1] == f0.time + f0.duration then Err(IndexError)
    else if i1.None? then Err(IndexError)
    else
      var start := times[i0.value + 1];
      var end := if i1.value == 0 then times[|times| - 1] else times[i1.value - 1];
      if GapBetween(times, x, start, end) then Ok(None)
      else Ok(Some(Saccade(st, start, end - start, f0.x, f0.y, f1.x, f1.y)))
  }

  /** The saccades between every pair of consecutive fixations, stopping at the first error. */
  function Saccades(times: seq<int>, x: seq<Num>, fixes: seq<LogEntry>, st: EntryType): (r: Result<seq<LogEntry>>)
    requires forall k :: 0 <= k < |fixes| ==> fixes[k].Fixation?
    requires |fixes| >= 2 ==> |x| == |times|
    ensures r.Ok? ==> |r.value| < |fixes| || r.value == []
    ensures r.Ok? ==> forall k :: 0 <= k < |r.value| ==> r.value[k].Saccade? && r.value[k].etype == st
  {
    if |fixes| < 2 then Ok([])
    else
      var n := |fixes|;
      match Saccades(times, x, fixes[..n - 1], st)
      case Err(e) => Err(e)
      case Ok(prev) =>
        match SaccadeBetween(times, x, fixes[n - 2], fixes[n - 1], st)
        case Err(e) => Err(e)
        case Ok(o) => Ok(prev + (if o.Some? then [o.value] else []))
  }

  /** Between fixations at alternating samples, a saccade spans the samples strictly between them. */
  lemma SaccadeBetweenAt(times: seq<int>, x: seq<Num>, f0: LogEntry, f1: LogEntry, st: EntryType, b0: nat, a1: nat)
    requires StrictlyIncreasing(times) && |x| == |times| && f0.Fixation? && f1.Fixation?
    requires b0 < a1 < |times| && f0.time + f0.duration == times[b0] && f1.time == times[a1]
    ensures SaccadeBetween(times, x, f0, f1, st)
      == Ok(if GapBetween(times, x, times[b0 + 1], times[a1 - 1]) then None
            else Some(Saccade(st, times[b0 + 1], times[a1 - 1] - times[b0 + 1], f0.x, f0.y, f1.x, f1.y)))
  {
    IndexOfIncreasing(times, b0);
    IndexOfIncreasing(times, a1);
  }

  /** Fixations at alternating samples of increasing times always yield their saccades. */
  lemma {:induction false} SaccadesOk(times: seq<int>, x: seq<Num>, fixes: seq<LogEntry>, st: EntryType, a: seq<nat>, b: seq<nat>)
    requires StrictlyIncreasing(times) && |x| == |times|
    requires Interleaved(a, b) && |a| == |fixes| && forall k :: 0 <= k < |b| ==> b[k] < |times|
    requires forall k :: 0 <= k < |fixes| ==>
      fixes[k].Fixation? && fixes[k].time == times[a[k]] && fixes[k].time + fixes[k].duration == times[b[k]]
    ensures Saccades(times, x, fixes, st).Ok?
  {
    var n := |fixes|;
    if n >= 2 {
      SaccadesOk(times, x, fixes[..n - 1], st, a[..n - 1], b[..n - 1]);
      assert b[n - 2] < a[n - 1];
      SaccadeBetweenAt(times, x, fixes[n - 2], fixes[n - 1], st, b[n - 2], a[n - 1]);
    }
  }

  // ---------------------------------------------------------------------
  // One duration-correction pass (EyeData._fixFixSac)

  /** What a pass returns or raises, and the two vectors it leaves behind in either case. */
  datatype Pass = Pass(result: Result<(seq<LogEntry>, seq<LogEntry>)>, fixvec: seq<int>, sacvec: seq<int>)

  /** The saccade type that goes with a fixation type. */
  function SaccadeType(et: EntryType): Result<EntryType>
  {
    if et == RFIX then Ok(RSAC) else if et == LFIX then Ok(LSAC) else Err(ValueError)
  }

  /**
   * _fixFixSac as a function of the old vectors: fixations shorter than
   * minDur are dropped, the fixation vector is rewritten from the remaining
   * ones, and the saccades between consecutive fixations are rewritten into
   * the zeroed saccade vector. The vectors are changed in place before a
   * later step raises, so a failed pass still reports them.
   */
  function CorrectByDuration(fix0: seq<int>, sac0: seq<int>, times: seq<int>, x: seq<Num>, y: seq<Num>, et: EntryType, minDur: real): (p: Pass)
    ensures p.result.Ok? ==> |p.fixvec| == |times| && |p.sacvec| == |times|
  {
    if |fix0| != |sac0| || |sac0| != |times| || |times| == 0 then Pass(Err(ValueError), fix0, sac0)
    else match FixList(times, fix0, x, y, et)
      case Err(e) => Pass(Err(e), fix0, sac0)
      case Ok(fs) => Rewrite(LongOnly(fs, minDur), sac0, times, x, y, et)
  }

  /** The rest of the pass once the fixations to keep are known. */
  function Rewrite(long: seq<LogEntry>, sac0: seq<int>, times: seq<int>, x: seq<Num>, y: seq<Num>, et: EntryType): (p: Pass)
    requires Spans(long)
    ensures p.result.Ok? ==> |p.fixvec| == |times| && |p.sacvec| == |times|
  {
    var fix1 := MarkSpans(Zeros(|times|), times, long);
    match FixList(times, fix1, x, y, et)
    case Err(e) => Pass(Err(e), fix1, sac0)
    case Ok(fixes) =>
      var sac1 := Zeros(|times|);
      match SaccadeType(et)
      case Err(e) => Pass(Err(e), fix1, sac1)
      case Ok(st) =>
        match Saccades(times, x, fixes, st)
        case Err(e) => Pass(Err(e), fix1, sac1)
        case Ok(sacs) => Pass(Ok((fixes, sacs)), fix1, MarkSpans(sac1, times, sacs))
  }

  /** A fixation vector whose starts and ends alternate reads back without error. */
  lemma FixListOfInterleaved(times: seq<int>, vec: seq<int>, x: seq<Num>, y: seq<Num>, et: EntryType)
    requires StrictlyIncreasing(times) && |times| > 0 && |vec| == |times| && |x| == |times| && |y| == |times|
    requires et == LFIX || et == RFIX
    requires Interleaved(Positions(vec, SF), Positions(vec, EF))
    ensures FixList(times, vec, x, y, et).Ok?
  {
    PositionsSpec(vec, EF);
    FixListAt(times, vec, x, y, et, Positions(vec, SF), Positions(vec, EF));
  }

  /**
   * On increasing sample times, a pass over a fixation vector whose starts
   * and ends alternate never raises: it keeps exactly the fixations lasting
   * at least minDur, and the rewritten vector reads back as that list.
   */
  lemma CorrectByDurationOk(fix0: seq<int>, sac0: seq<int>, times: seq<int>, x: seq<Num>, y: seq<Num>, et: EntryType, minDur: real)
    requires StrictlyIncreasing(times) && |times| > 0
    requires |fix0| == |times| && |sac0| == |times| && |x| == |times| && |y| == |times|
    requires et == LFIX || et == RFIX
    requires Interleaved(Positions(fix0, SF), Positions(fix0, EF))
    ensures FixList(times, fix0, x, y, et).Ok?
    ensures var p := CorrectByDuration(fix0, sac0, times, x, y, et, minDur);
      && p.result.Ok?
      && p.result.value.0 == LongOnly(FixList(times, fix0, x, y, et).value, minDur)
      && FixList(times, p.fixvec, x, y, et) == Ok(p.result.value.0)
      && Interleaved(Positions(p.fixvec, SF), Positions(p.fixvec, EF))
      && forall k :: 0 <= k < |p.result.value.0| ==> p.result.value.0[k].duration as real >= minDur
  {
    FixListOfInterleaved(times, fix0, x, y, et);
    LongFixationsSurvive(times, fix0, x, y, et, minDur);
    var fs := FixList(times, fix0, x, y, et).value;
    var fix1 := MarkSpans(Zeros(|times|), times, LongOnly(fs, minDur));
    var fixes := LongOnly(fs, minDur);
    var st := SaccadeType(et).value;
    if fixes != [] {
      FixListShape(times, fix1, x, y, et);
      PositionsSpec(fix1, EF);
      SaccadesOk(times, x, fixes, st, Positions(fix1, SF), Positions(fix1, EF));
    }
  }

  /** Running the pass again on the vectors it produced changes nothing. */
  lemma CorrectByDurationIdempotent(fix0: seq<int>, sac0: seq<int>, times: seq<int>, x: seq<Num>, y: seq<Num>, et: EntryType, minDur: real)
    requires StrictlyIncreasing(times) && |times| > 0
    requires |fix0| == |times| && |sac0| == |times| && |x| == |times| && |y| == |times|
    requires et == LFIX || et == RFIX
    requires Interleaved(Positions(fix0, SF), Positions(fix0, EF))
    ensures var p := CorrectByDuration(fix0, sac0, times, x, y, et, minDur);
      CorrectByDuration(p.fixvec, p.sacvec, times, x, y, et, minDur) == p
  {
    CorrectByDurationOk(fix0, sac0, times, x, y, et, minDur);
    var p := CorrectByDuration(fix0, sac0, times, x, y, et, minDur);
    var fixes := p.result.value.0;
    assert p == Rewrite(fixes, sac0, times, x, y, et);
    LongOnlyKeepsLong(fixes, minDur);
    assert CorrectByDuration(p.fixvec, p.sacvec, times, x, y, et, minDur) == Rewrite(fixes, p.sacvec, times, x, y, et);
  }

  lemma AppendKeeps(s: seq<LogEntry>, e: LogEntry)
    ensures |s + [e]| == |s| + 1 && (s + [e])[|s|] == e
    ensures forall k :: 0 <= k < |s| ==> (s + [e])[k] == s[k]
  {
  }

  /** The loop of _getFixList: one fixation per start/end pair, checked as it goes. */
  method GetFixList(times: seq<int>, vec: seq<int>, x: seq<Num>, y: seq<Num>, et: EntryType) returns (r: Result<seq<LogEntry>>)
    ensures r == FixList(times, vec, x, y, et)
  {
    if et != LFIX && et != RFIX {
      return Err(ValueError);
    }
    if |times| == 0 {
      return Ok([]);
    }
    if |vec| != |times| {
      return Err(IndexError);
    }
    var starttimes := MarkerTimes(times, vec, SF);
    var endtimes := MarkerTimes(times, vec, EF);
    r := PairFixations(times, starttimes, endtimes, x, y, et);
  }

  /** The loop of _getFixList over the start and end times, k-th with k-th. */
  method PairFixations(times: seq<int>, starttimes: seq<int>, endtimes: seq<int>, x: seq<Num>, y: seq<Num>, et: EntryType)
    returns (r: Result<seq<LogEntry>>)
    ensures r == FixPairs(times, starttimes, endtimes, x, y, et)
  {
    if |starttimes| != |endtimes| {
      return Err(ValueError);
    }
    var fixations := [];
    for i := 0 to |starttimes|
      invariant forall k :: 0 <= k < i ==> starttimes[k] <= endtimes[k]
      invariant i > 0 ==> |x| == |times| && |y| == |times|
      invariant |fixations| == i
      invariant forall k :: 0 <= k < i ==> fixations[k] == FixationOver(times, x, y, et, starttimes[k], endtimes[k])
    {
      var start, end := starttimes[i], endtimes[i];
      if end - start < 0 {
        assert endtimes[i] < starttimes[i];
        return Err(ValueError);
      }
      if |x| != |times| || |y| != |times| {
        return Err(IndexError);
      }
      var f := FixationOver(times, x, y, et, start, end);
      AppendKeeps(fixations, f);
      fixations := fixations + [f];
    }
    r := Ok(fixations);
    assert !exists k :: 0 <= k < |starttimes| && endtimes[k] < starttimes[k];
    ghost var want := FixPairs(times, starttimes, endtimes, x, y, et);
    assert want == Ok(seq(|starttimes|, k requires 0 <= k < |starttimes| => FixationOver(times, x, y, et, starttimes[k], endtimes[k])));
    assert want.value == fixations;
  }

  /** Once the saccades of a prefix of the fixations fail, so do those of the whole list. */
  lemma {:induction false} SaccadesErrorSticks(times: seq<int>, x: seq<Num>, fixes: seq<LogEntry>, st: EntryType, i: nat)
    requires forall k :: 0 <= k < |fixes| ==> fixes[k].Fixation?
    requires |fixes| >= 2 ==> |x| == |times|
    requires i <= |fixes| && Saccades(times, x, fixes[..i], st).Err?
    ensures Saccades(times, x, fixes, st) == Saccades(times, x, fixes[..i], st)
  {
    if i < |fixes| {
      var n := |fixes|;
      assert fixes[..n - 1][..i] == fixes[..i];
      SaccadesErrorSticks(times, x, fixes[..n - 1], st, i);
    } else {
      assert fixes[..i] == fixes;
    }
  }

  /** Extends the saccades found so far by the outcome for the next pair. */
  function ExtendSaccades(prev: Result<seq<LogEntry>>, o: Result<Option<LogEntry>>): Result<seq<LogEntry>>
  {
    match prev
    case Err(e) => Err(e)
    case Ok(p) =>
      match o
      case Err(e) => Err(e)
      case Ok(v) => Ok(p + (if v.Some? then [v.value] else []))
  }

  lemma SaccadesUnfold(times: seq<int>, x: seq<Num>, fixes: seq<LogEntry>, st: EntryType)
    requires forall k :: 0 <= k < |fixes| ==> fixes[k].Fixation?
    requires |fixes| >= 2 && |x| == |times|
    ensures Saccades(times, x, fixes, st) == ExtendSaccades(Saccades(times, x, fixes[..|fixes| - 1], st),
      SaccadeBetween(times, x, fixes[|fixes| - 2], fixes[|fixes| - 1], st))
  {
  }

  /** One more fixation adds at most the saccade before it. */
  lemma SaccadesSnoc(times: seq<int>, x: seq<Num>, fixes: seq<LogEntry>, st: EntryType, i: nat, prev: seq<LogEntry>, o: Result<Option<LogEntry>>)
    requires forall k :: 0 <= k < |fixes| ==> fixes[k].Fixation?
    requires |fixes| >= 2 ==> |x| == |times|
    requires 1 <= i < |fixes| && Saccades(times, x, fixes[..i], st) == Ok(prev)
    requires o == SaccadeBetween(times, x, fixes[i - 1], fixes[i], st)
    ensures o.Err? ==> Saccades(times, x, fixes[..i + 1], st) == Err(o.error)
    ensures o == Ok(None) ==> Saccades(times, x, fixes[..i + 1], st) == Ok(prev)
    ensures o.Ok? && o.value.Some? ==> Saccades(times, x, fixes[..i + 1], st) == Ok(prev + [o.value.value])
  {
    var f := fixes[..i + 1];
    assert |f| == i + 1 && f[..|f| - 1] == fixes[..i];
    assert f[|f| - 2] == fixes[i - 1] && f[|f| - 1] == fixes[i];
    SaccadesUnfold(times, x, f, st);
    if o == Ok(None) {
      assert prev + [] == prev;
    }
  }

  /** The saccade loop of _fixFixSac. */
  method FindSaccades(times: seq<int>, x: seq<Num>, fixes: seq<LogEntry>, st: EntryType) returns (r: Result<seq<LogEntry>>)
    requires forall k :: 0 <= k < |fixes| ==> fixes[k].Fixation?
    requires |fixes| >= 2 ==> |x| == |times|
    ensures r == Saccades(times, x, fixes, st)
  {
    if |fixes| < 2 {
      return Ok([]);
    }
    var saccades := [];
    var i := 1;
    while i < |fixes|
      invariant 1 <= i <= |fixes|
      invariant Saccades(times, x, fixes[..i], st) == Ok(saccades)
    {
      var o := SaccadeBetween(times, x, fixes[i - 1], fixes[i], st);
      SaccadesSnoc(times, x, fixes, st, i, saccades, o);
      if o.Err? {
        SaccadesErrorSticks(times, x, fixes, st, i + 1);
        return Err(o.error);
      }
      if o.value.Some? {
        saccades := saccades + [o.value.value];
      }
      i := i + 1;
    }
    assert fixes[..i] == fixes;
    return Ok(saccades);
  }

  /** vec *= 0 */
  method Clear(v: array<int>)
    modifies v
    ensures v[..] == Zeros(v.Length)
  {
    forall i | 0 <= i < v.Length {
      v[i] := 0;
    }
  }

  /** The marking loop of _fixFixSac: -1 at every start time, then +1 at every end time, span by span. */
  method MarkAll(v: array<int>, times: seq<int>, spans: seq<LogEntry>)
    requires v.Length == |times| && Spans(spans)
    modifies v
    ensures v[..] == MarkSpans(old(v[..]), times, spans)
  {
    for k := 0 to |spans|
      invariant v[..] == MarkSpans(old(v[..]), times, spans[..k])
    {
      var s := spans[k];
      ghost var before := v[..];
      forall i | 0 <= i < v.Length && times[i] == s.time {
        v[i] := SF;
      }
      assert v[..] == Mark(before, times, s.time, SF);
      ghost var middle := v[..];
      forall i | 0 <= i < v.Length && times[i] == s.time + s.duration {
        v[i] := EF;
      }
      assert v[..] == Mark(middle, times, s.time + s.duration, EF);
      assert spans[..k + 1][..k] == spans[..k];
    }
    assert spans[..|spans|] == spans;
  }

  /**
   * EyeData._fixFixSac on the fixation and saccade vectors it rewrites in
   * place: the result and both arrays are what CorrectByDuration says, also
   * when it raises part way.
   */
  method FixFixSac(fixvec: array<int>, sacvec: array<int>, times: seq<int>, x: seq<Num>, y: seq<Num>, et: EntryType, minDur: real)
    returns (r: Result<(seq<LogEntry>, seq<LogEntry>)>)
    requires fixvec != sacvec
    modifies fixvec, sacvec
    ensures CorrectByDuration(old(fixvec[..]), old(sacvec[..]), times, x, y, et, minDur) == Pass(r, fixvec[..], sacvec[..])
  {
    if fixvec.Length != sacvec.Length || sacvec.Length != |times| || |times| == 0 {
      return Err(ValueError);
    }
    var first := GetFixList(times, fixvec[..], x, y, et);
    if first.Err? {
      return Err(first.error);
    }
    var long := LongOnly(first.value, minDur);
    Clear(fixvec);
    MarkAll(fixvec, times, long);
    var fixations := GetFixList(times, fixvec[..], x, y, et);
    if fixations.Err? {
      return Err(fixations.error);
    }
    Clear(sacvec);
    var st: EntryType;
    if et == RFIX {
      st := RSAC;
    } else if et == LFIX {
      st := LSAC;
    } else {
      return Err(ValueError);
    }
    var saccades := FindSaccades(times, x, fixations.value, st);
    if saccades.Err? {
      return Err(saccades.error);
    }
    Clear(sacvec);
    MarkAll(sacvec, times, saccades.value);
    return Ok((fixations.value, saccades.value));
  }

  // ---------------------------------------------------------------------
  // Samples, masking, velocity and statistics (EyeData.processTrial)

  predicate AllGaze(g: seq<LogEntry>) { forall i :: 0 <= i < |g| ==> g[i].Gaze? }

  /** getValueArray with generateXCoors, generateYCoors, generatePupilSize and generateEyeTimes. */
  function Xs(g: seq<LogEntry>): (r: seq<Num>)
    requires AllGaze(g)
    ensures |r| == |g| && forall i :: 0 <= i < |g| ==> r[i] == g[i].x
  {
    seq(|g|, i requires 0 <= i < |g| => g[i].x)
  }

  function Ys(g: seq<LogEntry>): (r: seq<Num>)
    requires AllGaze(g)
    ensures |r| == |g| && forall i :: 0 <= i < |g| ==> r[i] == g[i].y
  {
    seq(|g|, i requires 0 <= i < |g| => g[i].y)
  }

  function Pupils(g: seq<LogEntry>): (r: seq<Num>)
    requires AllGaze(g)
    ensures |r| == |g| && forall i :: 0 <= i < |g| ==> r[i] == g[i].pupil
  {
    seq(|g|, i requires 0 <= i < |g| => g[i].pupil)
  }

  function Times(g: seq<LogEntry>): (r: seq<int>)
    ensures |r| == |g| && forall i :: 0 <= i < |g| ==> r[i] == g[i].time
  {
    seq(|g|, i requires 0 <= i < |g| => g[i].time)
  }

  /** s[s == 0] = nan: a coordinate of exactly 0 is no data. */
  function MaskZeros(s: seq<Num>): (r: seq<Num>)
    ensures |r| == |s|
    ensures forall i :: 0 <= i < |s| ==> (r[i].Gap? <==> s[i].Gap? || s[i] == Val(0.0))
    ensures forall i :: 0 <= i < |s| ==> r[i].Val? ==> r[i] == s[i] && r[i].v != 0.0
  {
    seq(|s|, i requires 0 <= i < |s| => if s[i] == Val(0.0) then Gap else s[i])
  }

  /** Masking twice masks nothing more. */
  lemma MaskZerosIdempotent(s: seq<Num>)
    ensures MaskZeros(MaskZeros(s)) == MaskZeros(s)
  {
    var m := MaskZeros(s);
    assert forall i :: 0 <= i < |m| ==> MaskZeros(m)[i] == m[i];
  }

  /** numpy.diff */
  function Diff(s: seq<Num>): (r: seq<Num>)
    ensures |r| == if |s| == 0 then 0 else |s| - 1
    ensures forall i :: 0 <= i < |r| ==> (r[i].Val? <==> s[i].Val? && s[i + 1].Val?)
  {
    if |s| <= 1 then [] else seq(|s| - 1, i requires 0 <= i < |s| - 1 => Sub(s[i + 1], s[i]))
  }

  /** sp.median(sp.diff(times)): the typical time between samples; NaN for fewer than two samples. */
  function SampleDuration(times: seq<int>, num: Numerics): (r: Num)
    ensures r.Val? <==> |times| >= 2
  {
    if |times| < 2 then Gap
    else Val(num.median(seq(|times| - 1, i requires 0 <= i < |times| - 1 => (times[i + 1] - times[i]) as real)))
  }

  /** sqrt(dy*dy + dx*dx) for one step. */
  function Speed(dx: Num, dy: Num, num: Numerics): (r: Num)
    ensures r.Val? <==> dx.Val? && dy.Val?
  {
    if dx.Val? && dy.Val? then Val(num.sqrt(dy.v * dy.v + dx.v * dx.v)) else Gap
  }

  /** The velocity series of one eye: one speed per step, divided by the sample duration. */
  function Velocity(x: seq<Num>, y: seq<Num>, sd: Num, num: Numerics): (r: seq<Num>)
    requires |x| == |y|
    ensures |r| == |Diff(x)|
  {
    var dx, dy := Diff(x), Diff(y);
    seq(|dx|, i requires 0 <= i < |dx| => Quot(Speed(dx[i], dy[i], num), sd))
  }

  /** A velocity is known exactly when both samples around it are and the sample duration is non-zero. */
  lemma VelocityGaps(x: seq<Num>, y: seq<Num>, sd: Num, num: Numerics)
    requires |x| == |y|
    ensures forall i :: 0 <= i < |Velocity(x, y, sd, num)| ==>
      (Velocity(x, y, sd, num)[i].Val? <==>
        x[i].Val? && x[i + 1].Val? && y[i].Val? && y[i + 1].Val? && sd.Val? && sd.v != 0.0)
  {
    var dx, dy, v := Diff(x), Diff(y), Velocity(x, y, sd, num);
    forall i | 0 <= i < |v|
      ensures v[i].Val? <==> x[i].Val? && x[i + 1].Val? && y[i].Val? && y[i + 1].Val? && sd.Val? && sd.v != 0.0
    {
      assert v[i] == Quot(Speed(dx[i], dy[i], num), sd);
    }
  }

  /** The velocity of an eye: one fewer element than its samples, or nothing for an eye without data. */
  function EyeVelocity(x: seq<Num>, y: seq<Num>, times: seq<int>, num: Numerics): (r: seq<Num>)
    requires |x| == |y|
    ensures |x| > 0 ==> |r| == |x| - 1
    ensures |x| == 0 ==> r == []
  {
    if |x| > 0 then Velocity(x, y, SampleDuration(times, num), num) else []
  }

  /** nanmedian of the velocity, NaN for an empty one. */
  function MedianVelocity(vel: seq<Num>, num: Numerics): Num
  {
    if |vel| > 0 then NanMedian(vel, num) else Gap
  }

  /** nanmean of the velocity, NaN for an empty one. */
  function MeanVelocity(vel: seq<Num>): Num
  {
    if |vel| > 0 then NanMean(vel) else Gap
  }

  /** The median and mean velocity are numbers exactly when some velocity is. */
  lemma VelocityStatisticsDefined(vel: seq<Num>, num: Numerics)
    ensures MedianVelocity(vel, num).Val? <==> exists i :: 0 <= i < |vel| && vel[i].Val?
    ensures MeanVelocity(vel).Val? <==> exists i :: 0 <= i < |vel| && vel[i].Val?
  {
    NanStatisticsDefined(vel, num);
  }

  /** An eye without samples has an empty velocity whose mean and median are NaN. */
  lemma NoDataNoStatistics(x: seq<Num>, y: seq<Num>, times: seq<int>, num: Numerics)
    requires |x| == |y| && x == []
    ensures EyeVelocity(x, y, times, num) == []
    ensures MeanVelocity(EyeVelocity(x, y, times, num)).Gap?
    ensures MedianVelocity(EyeVelocity(x, y, times, num), num).Gap?
  {
  }

  // ---------------------------------------------------------------------
  // Threshold (EyeData._determineThreshold)

  predicate ValidMethod(name: string) { name == "mean" || name == "median" || name == "snr" }

  /** mean / std(finite velocities) * n, the signal-to-noise threshold of one eye. */
  function Snr(mean: Num, vel: seq<Num>, n: real, num: Numerics): Num
  {
    Scale(Quot(mean, Std(Finite(vel), num)), n)
  }

  /**
   * The velocity thresholds of the left and the right eye. "mean" and
   * "median" scale that statistic by n; "snr" scales mean / std and demands
   * a positive value for every eye with data (the right eye is checked
   * first); an eye without data gets NaN.
   */
  function Threshold(name: string, n: real, hasLeft: bool, hasRight: bool,
                     meanl: Num, meanr: Num, medl: Num, medr: Num,
                     vell: seq<Num>, velr: seq<Num>, num: Numerics): Result<(Num, Num)>
  {
    if !ValidMethod(name) then Err(ValueError)
    else if name == "mean" then Ok((Scale(meanl, n), Scale(meanr, n)))
    else if name == "snr" then
      var leftsnr := if hasLeft then Snr(meanl, vell, n, num) else Gap;
      var rightsnr := if hasRight then Snr(meanr, velr, n, num) else Gap;
      if hasRight && !Gt(rightsnr, Val(0.0)) then Err(ValueError)
      else if hasLeft && !Gt(leftsnr, Val(0.0)) then Err(ValueError)
      else Ok((leftsnr, rightsnr))
    else Ok((Scale(medl, n), Scale(medr, n)))
  }

  /** What each method yields: an error only as ValueError, never for a valid method other than "snr". */
  lemma ThresholdCases(name: string, n: real, hasLeft: bool, hasRight: bool,
                       meanl: Num, meanr: Num, medl: Num, medr: Num,
                       vell: seq<Num>, velr: seq<Num>, num: Numerics)
    ensures var r := Threshold(name, n, hasLeft, hasRight, meanl, meanr, medl, medr, vell, velr, num);
      && (r.Err? ==> r.error == ValueError)
      && (!ValidMethod(name) ==> r.Err?)
      && (name == "mean" ==> r == Ok((Scale(meanl, n), Scale(meanr, n))))
      && (name == "median" ==> r == Ok((Scale(medl, n), Scale(medr, n))))
      && (name == "snr" ==> (r.Ok? <==>
            (hasLeft ==> Gt(Snr(meanl, vell, n, num), Val(0.0))) && (hasRight ==> Gt(Snr(meanr, velr, n, num), Val(0.0)))))
      && (name == "snr" && r.Ok? ==>
            && r.value.0 == (if hasLeft then Snr(meanl, vell, n, num) else Gap)
            && r.value.1 == (if hasRight then Snr(meanr, velr, n, num) else Gap))
  {
  }

  // ---------------------------------------------------------------------
  // Fixation and saccade masks (EyeData._findFixations, _findSaccades)

  /** velocity < threshold */
  function FixMask(vel: seq<Num>, th: Num): (m: seq<bool>)
    ensures |m| == |vel|
  {
    seq(|vel|, i requires 0 <= i < |vel| => Lt(vel[i], th))
  }

  /** velocity > threshold */
  function SacMask(vel: seq<Num>, th: Num): (m: seq<bool>)
    ensures |m| == |vel|
  {
    seq(|vel|, i requires 0 <= i < |vel| => Gt(vel[i], th))
  }

  /**
   * No sample is both fixating and in a saccade, and a sample is in one of
   * the masks exactly when it and the threshold are known and differ.
   */
  lemma MasksSplit(vel: seq<Num>, th: Num)
    ensures forall i :: 0 <= i < |vel| ==> !(FixMask(vel, th)[i] && SacMask(vel, th)[i])
    ensures forall i :: 0 <= i < |vel| ==>
      (FixMask(vel, th)[i] || SacMask(vel, th)[i] <==> vel[i].Val? && th.Val? && vel[i].v != th.v)
  {
  }

  /**
   * The fixation vector of an eye: one longer than its velocity, -1 where a
   * run below the threshold starts, +1 just past where it ends, and the
   * markers alternate, starting with -1, as often as each other.
   */
  lemma FixationVector(vel: seq<Num>, th: Num)
    ensures |Edge(FixMask(vel, th))| == |vel| + 1
    ensures forall i :: 0 <= i < |Edge(FixMask(vel, th))| ==> -1 <= Edge(FixMask(vel, th))[i] <= 1
    ensures Interleaved(Positions(Edge(FixMask(vel, th)), SF), Positions(Edge(FixMask(vel, th)), EF))
  {
    EdgeMarks(FixMask(vel, th));
    EdgeRuns(FixMask(vel, th));
  }

  // ---------------------------------------------------------------------
  // Blinks (EyeData._findBlinks, _getBlinkList)

  /** isnan(pupil) | (pupil == 0) */
  predicate Blinking(p: Num) { p.Gap? || p == Val(0.0) }

  function BlinkMask(pupil: seq<Num>): (b: seq<bool>)
    ensures |b| == |pupil| && forall i :: 0 <= i < |pupil| ==> (b[i] <==> Blinking(pupil[i]))
  {
    seq(|pupil|, i requires 0 <= i < |pupil| => Blinking(pupil[i]))
  }

  /** np.diff(np.concatenate([[0], b])): +1 where a run starts, -1 where one has just ended. */
  function DiffSig(b: seq<bool>): (d: seq<int>)
    ensures |d| == |b|
  {
    seq(|b|, i requires 0 <= i < |b| => (if b[i] then 1 else 0) - (if i > 0 && b[i - 1] then 1 else 0))
  }

  /**
   * _getBlinkList: the k-th run start paired with the k-th run end; a run
   * still open at the last sample lasts until that sample plus one sample
   * duration. A type other than LBLINK/RBLINK is a ValueError, a signal
   * whose length differs from the times a numpy IndexError.
   */
  function BlinkList(times: seq<int>, b: seq<bool>, et: EntryType, sd: Num): (r: Result<seq<LogEntry>>)
  {
    if et != LBLINK && et != RBLINK then Err(ValueError)
    else if |b| != |times| then Err(IndexError)
    else
      BlinkPairs(times, MarkerTimes(times, DiffSig(b), 1), MarkerTimes(times, DiffSig(b), -1), et, sd)
  }

  /** The blinks for run start times `starts` and run end times `stops`, k-th with k-th. */
  function BlinkPairs(times: seq<int>, starts: seq<int>, stops: seq<int>, et: EntryType, sd: Num): (r: Result<seq<LogEntry>>)
  {
    var n := if |starts| < |stops| then |starts| else |stops|;
    var blinks := seq(n, k requires 0 <= k < n => Blink(et, starts[k], Val((stops[k] - starts[k]) as real)));
    if |starts| == |stops| then Ok(blinks)
    else if |starts| != |stops| + 1 || |times| == 0 then Err(AssertionError)
    else Ok(blinks + [Blink(et, starts[|starts| - 1], Add(Val((times[|times| - 1] - starts[|starts| - 1]) as real), sd))])
  }

  /** Positions depends only on where the value sits. */
  lemma {:induction false} PositionsAgree(v: seq<int>, w: seq<int>, val1: int, val2: int)
    requires |v| == |w| && forall i :: 0 <= i < |v| ==> (v[i] == val1 <==> w[i] == val2)
    ensures Positions(v, val1) == Positions(w, val2)
  {
    if v != [] {
      PositionsAgree(v[..|v| - 1], w[..|w| - 1], val1, val2);
    }
  }

  /** The markers of DiffSig are those of Edge, without the end of a run still open at the last sample. */
  lemma BlinkMarkers(b: seq<bool>)
    ensures Positions(DiffSig(b), 1) == Positions(Edge(b), SF)
    ensures var ends := Positions(Edge(b), EF);
      Positions(DiffSig(b), -1) == if |b| > 0 && b[|b| - 1] then ends[..|ends| - 1] else ends
  {
    var n := |b|;
    var e := Edge(b);
    var d := DiffSig(b);
    assert forall i :: 0 <= i < n ==> d[i] == -e[i];
    PositionsAgree(d, e[..n], 1, SF);
    PositionsAgree(d, e[..n], -1, EF);
    assert e[..n] == e[..|e| - 1];
    assert e[n] == (if n > 0 && b[n - 1] then 1 else 0);
    var ends := Positions(e, EF);
    if n > 0 && b[n - 1] {
      assert ends == Positions(e[..n], EF) + [n];
      assert ends[..|ends| - 1] == Positions(e[..n], EF);
    }
  }

  /** The blink list read back from run starts `a` and run ends `e` (an end of |times| is a run still open). */
  lemma BlinkPairsAt(times: seq<int>, starts: seq<int>, stops: seq<int>, et: EntryType, sd: Num, a: seq<nat>, e: seq<nat>)
    requires |starts| == |a| == |e| && forall k :: 0 <= k < |a| ==> a[k] < |times| && e[k] <= |times|
    requires forall k :: 0 <= k < |a| ==> starts[k] == times[a[k]]
    requires |stops| == |e| || (|stops| == |e| - 1 && e[|e| - 1] == |times|)
    requires forall k :: 0 <= k < |stops| ==> e[k] < |times| && stops[k] == times[e[k]]
    ensures var r := BlinkPairs(times, starts, stops, et, sd);
      && r.Ok? && |r.value| == |a|
      && forall k :: 0 <= k < |a| ==> r.value[k] == BlinkAt(times, a[k], e[k], et, sd)
  {
  }

  /** The blink from sample `s` to sample `e`; e == |times| means still blinking at the last sample. */
  function BlinkAt(times: seq<int>, s: nat, e: nat, et: EntryType, sd: Num): LogEntry
    requires s < |times| && e <= |times|
  {
    Blink(et, times[s],
      if e < |times| then Val((times[e] - times[s]) as real)
      else Add(Val((times[|times| - 1] - times[s]) as real), sd))
  }

  /**
   * On a blink signal as long as its times, _getBlinkList never fails its
   * assertion: there is one blink per run of blinking samples, starting at
   * the run's first sample and ending at the first sample after it, or,
   * for a run still open at the end, one sample duration after the last
   * sample.
   */
  lemma BlinkListOfRuns(times: seq<int>, b: seq<bool>, et: EntryType, sd: Num)
    requires |b| == |times| && (et == LBLINK || et == RBLINK)
    ensures PositionsBounded(Edge(b))
    ensures var r := BlinkList(times, b, et, sd);
      var a, e := Positions(Edge(b), SF), Positions(Edge(b), EF);
      && r.Ok? && |r.value| == |a| == |e|
      && forall k :: 0 <= k < |a| ==> (a[k] < |b| && r.value[k] == BlinkAt(times, a[k], e[k], et, sd))
  {
    BlinkTimes(times, b);
    var d := DiffSig(b);
    BlinkPairsAt(times, MarkerTimes(times, d, 1), MarkerTimes(times, d, -1), et, sd, Positions(Edge(b), SF), Positions(Edge(b), EF));
  }

  /** Run start and end times of a blink signal, in terms of the markers of its edge vector. */
  lemma BlinkTimes(times: seq<int>, b: seq<bool>)
    requires |b| == |times|
    ensures PositionsBounded(Edge(b))
    ensures var a, e := Positions(Edge(b), SF), Positions(Edge(b), EF);
      var starts, stops := MarkerTimes(times, DiffSig(b), 1), MarkerTimes(times, DiffSig(b), -1);
      && |starts| == |a| == |e| && (forall k :: 0 <= k < |a| ==> a[k] < |times| && e[k] <= |times|)
      && (forall k :: 0 <= k < |a| ==> starts[k] == times[a[k]])
      && (|stops| == |e| || (|stops| == |e| - 1 && e[|e| - 1] == |times|))
      && (forall k :: 0 <= k < |stops| ==> e[k] < |times| && stops[k] == times[e[k]])
  {
    EdgeRuns(b);
    PositionsSpec(Edge(b), SF);
    PositionsSpec(Edge(b), EF);
    BlinkStarts(times, b);
    BlinkStops(times, b);
  }

  lemma BlinkStarts(times: seq<int>, b: seq<bool>)
    requires |b| == |times|
    ensures var a, starts := Positions(Edge(b), SF), MarkerTimes(times, DiffSig(b), 1);
      |starts| == |a| && forall k :: 0 <= k < |a| ==> a[k] < |times| && starts[k] == times[a[k]]
  {
    BlinkMarkers(b);
    PositionsSpec(DiffSig(b), 1);
  }

  lemma BlinkStops(times: seq<int>, b: seq<bool>)
    requires |b| == |times|
    ensures var e, stops := Positions(Edge(b), EF), MarkerTimes(times, DiffSig(b), -1);
      && (|stops| == |e| || (|stops| == |e| - 1 && e[|e| - 1] == |times|))
      && (forall k :: 0 <= k < |stops| ==> e[k] < |times| && stops[k] == times[e[k]])
  {
    var n := |b|;
    var e := Positions(Edge(b), EF);
    BlinkMarkers(b);
    PositionsSpec(DiffSig(b), -1);
    if n > 0 && b[n - 1] {
      var v := Edge(b);
      assert v[..|v| - 1] == v[..n] && v[n] == EF;
      assert e == Positions(v[..n], EF) + [n];
    }
  }

  /**
   * For an eye with samples at increasing times and a velocity one shorter,
   * the duration pass over its fixation and saccade vectors never raises,
   * keeps exactly the long-enough fixations of the velocity runs below the
   * threshold, and is a fixed point when repeated.
   */
  lemma EyePassOk(times: seq<int>, x: seq<Num>, y: seq<Num>, vel: seq<Num>, th: Num, et: EntryType, minDur: real)
    requires StrictlyIncreasing(times) && |times| > 0 && |x| == |times| && |y| == |times| && |vel| + 1 == |times|
    requires et == LFIX || et == RFIX
    ensures FixList(times, Edge(FixMask(vel, th)), x, y, et).Ok?
    ensures var p := CorrectByDuration(Edge(FixMask(vel, th)), Edge(SacMask(vel, th)), times, x, y, et, minDur);
      && p.result.Ok?
      && p.result.value.0 == LongOnly(FixList(times, Edge(FixMask(vel, th)), x, y, et).value, minDur)
      && CorrectByDuration(p.fixvec, p.sacvec, times, x, y, et, minDur) == p
  {
    FixationVector(vel, th);
    CorrectByDurationOk(Edge(FixMask(vel, th)), Edge(SacMask(vel, th)), times, x, y, et, minDur);
    CorrectByDurationIdempotent(Edge(FixMask(vel, th)), Edge(SacMask(vel, th)), times, x, y, et, minDur);
  }

  // ---------------------------------------------------------------------
  // The EyeData object

  /** The Savitzky-Golay filter with the given window and polynomial order. */
  function Savgol(s: seq<Num>, win: int, order: int, num: Numerics): seq<Num>
  {
    num.savgol(s, win, order)
  }

  /** A signal longer than the window smoothed with the Savitzky-Golay filter, a shorter one as it is. */
  function Smoothed(s: seq<Num>, win: int, order: int, num: Numerics): seq<Num>
  {
    if |s| > win then Savgol(s, win, order, num) else s
  }

  /** What processTrial computes for one eye before the threshold is set. */
  datatype EyeSignals = EyeSignals(
    x: seq<Num>, y: seq<Num>, xs: seq<Num>, ys: seq<Num>, pup: seq<Num>, times: seq<int>,
    sampledur: Num, vel: seq<Num>, vels: seq<Num>, med: Num, mean: Num)

  /** The signals of an eye before any trial was loaded: no samples, gaps for the scalars. */
  const NoSignals := EyeSignals([], [], [], [], [], [], Gap, [], [], Gap, Gap)

  /**
   * processTrial's signal processing for one eye's gaze samples `g`:
   * coordinates of 0 masked, the sample duration, the smoothed signals, the
   * velocity over the masked (unsmoothed) signals, its median and mean, and
   * the smoothed velocity. An eye without samples keeps from `prev` its
   * sample duration, smoothed signals and smoothed velocity.
   */
  function LoadEye(g: seq<LogEntry>, smooth: bool, win: int, order: int, num: Numerics, prev: EyeSignals): EyeSignals
    requires AllGaze(g)
  {
    var x, y, times := MaskZeros(Xs(g)), MaskZeros(Ys(g)), Times(g);
    var has := |g| > 0;
    var vel := EyeVelocity(x, y, times, num);
    EyeSignals(
      x, y,
      if smooth && has then Smoothed(x, win, order, num) else prev.xs,
      if smooth && has then Smoothed(y, win, order, num) else prev.ys,
      Pupils(g), times,
      if has then SampleDuration(times, num) else prev.sampledur,
      vel,
      if smooth && has then Savgol(vel, win, order, num) else prev.vels,
      MedianVelocity(vel, num), MeanVelocity(vel))
  }

  /**
   * The signals of one eye: every series has one entry per sample; a
   * coordinate is a gap exactly when it was missing or 0 and is otherwise
   * the logged value; an eye with samples has one velocity fewer than
   * samples, an eye without has none and its median and mean velocity are
   * NaN; the median and mean are numbers exactly when some velocity is.
   */
  lemma LoadEyeFacts(g: seq<LogEntry>, smooth: bool, win: int, order: int, num: Numerics, prev: EyeSignals)
    requires AllGaze(g)
    ensures var e := LoadEye(g, smooth, win, order, num, prev);
      && |e.x| == |e.y| == |e.pup| == |e.times| == |g|
      && (forall i :: 0 <= i < |g| ==> (e.x[i].Gap? <==> g[i].x.Gap? || g[i].x == Val(0.0)))
      && (forall i :: 0 <= i < |g| ==> (e.y[i].Gap? <==> g[i].y.Gap? || g[i].y == Val(0.0)))
      && (forall i :: 0 <= i < |g| ==> (e.x[i].Val? ==> e.x[i] == g[i].x) && (e.y[i].Val? ==> e.y[i] == g[i].y))
      && (forall i :: 0 <= i < |g| ==> e.times[i] == g[i].time && e.pup[i] == g[i].pupil)
      && (|g| > 0 ==> |e.vel| == |g| - 1 && (e.sampledur.Val? <==> |g| >= 2))
      && (|g| == 0 ==> e.vel == [] && e.med.Gap? && e.mean.Gap?)
      && (|g| == 0 ==> e.sampledur == prev.sampledur && e.xs == prev.xs && e.ys == prev.ys && e.vels == prev.vels)
      && (e.med.Val? <==> exists i :: 0 <= i < |e.vel| && e.vel[i].Val?)
      && (e.mean.Val? <==> exists i :: 0 <= i < |e.vel| && e.vel[i].Val?)
  {
    var e := LoadEye(g, smooth, win, order, num, prev);
    VelocityStatisticsDefined(e.vel, num);
  }

  /** The minimum fixation duration processTrial uses (_correctFixationsByDuration's default). */
  const MinFixationDuration: real := 50.0

  /** What processTrial derives for one eye: edge vectors, blink signal and the three event lists. */
  datatype EyeEvents = EyeEvents(
    fixvec: seq<int>, sacvec: seq<int>, blink: seq<bool>,
    fixlist: seq<LogEntry>, saclist: seq<LogEntry>, blinklist: seq<LogEntry>)

  const NoEvents := EyeEvents([], [], [], [], [], [])

  /** Whether a stage went through, without its value. */
  function Done<T>(r: Result<T>): Result<()>
  {
    if r.Ok? then Ok(()) else Err(r.error)
  }

  /**
   * One eye's part of _correctFixationsByDuration: nothing for an eye
   * without data; otherwise the vectors the pass leaves, and its lists only
   * when it succeeds.
   */
  function DurationPass(ev: EyeEvents, sig: EyeSignals, et: EntryType, ms: real): (EyeEvents, Result<()>)
  {
    if |sig.x| == 0 then (ev, Ok(()))
    else
      var p := CorrectByDuration(ev.fixvec, ev.sacvec, sig.times, sig.x, sig.y, et, ms);
      var moved := ev.(fixvec := p.fixvec, sacvec := p.sacvec);
      if p.result.Ok? then (moved.(fixlist := p.result.value.0, saclist := p.result.value.1), Ok(()))
      else (moved, Err(p.result.error))
  }

  /** One eye's part of _createBlinks: nothing for an eye without data, the blink list when it can be built. */
  function BlinkStage(ev: EyeEvents, sig: EyeSignals, et: EntryType): (EyeEvents, Result<()>)
  {
    if |sig.x| == 0 then (ev, Ok(()))
    else
      var b := BlinkList(sig.times, ev.blink, et, sig.sampledur);
      if b.Ok? then (ev.(blinklist := b.value), Ok(())) else (ev, Err(b.error))
  }

  /**
   * scipy's savgol_filter raises ValueError when the polynomial order is not
   * below the window or when the signal is shorter than the window.
   */
  predicate SavgolRaises(n: int, win: int, order: int)
  {
    order >= win || n < win
  }

  /**
   * processTrial's smoothing raises for an eye with `n` samples: smoothing
   * its velocity (one value fewer than samples, with no length guard) hits
   * one of the filter's checks. The guarded smoothing of x and y only raises
   * on an order that the velocity's smoothing refuses as well.
   */
  predicate SmoothingRaises(n: int, smooth: bool, win: int, order: int)
  {
    smooth && n > 0 && SavgolRaises(n - 1, win, order)
  }

  /**
   * One eye's events after _findFixations, _findSaccades and _findBlinks
   * with velocity `vel` and threshold `th`: the fixation vector of an eye
   * without data is left alone, the saccade and blink vectors are always
   * recomputed.
   */
  function Classified(ev: EyeEvents, sig: EyeSignals, vel: seq<Num>, th: Num): (c: EyeEvents)
    ensures c.fixlist == ev.fixlist && c.saclist == ev.saclist && c.blinklist == ev.blinklist
    ensures |sig.x| > 0 ==> c.fixvec == Edge(FixMask(vel, th))
  {
    ev.(fixvec := if |sig.x| > 0 then Edge(FixMask(vel, th)) else ev.fixvec,
        sacvec := Edge(SacMask(vel, th)),
        blink := BlinkMask(sig.pup))
  }

  /** Whether the duration pass and the blink list of one eye both go through. */
  predicate EyeStagesOk(ev: EyeEvents, sig: EyeSignals, et: EntryType, bt: EntryType)
  {
    var p := DurationPass(ev, sig, et, MinFixationDuration);
    p.1.Ok? && BlinkStage(p.0, sig, bt).1.Ok?
  }

  /**
   * On an eye with strictly increasing times, one velocity fewer than
   * samples and aligned series, the stages after the threshold never raise,
   * whatever the threshold is.
   */
  lemma EyeStagesSucceed(ev: EyeEvents, sig: EyeSignals, vel: seq<Num>, th: Num, et: EntryType, bt: EntryType)
    requires (et == LFIX && bt == LBLINK) || (et == RFIX && bt == RBLINK)
    requires |sig.x| > 0 ==> StrictlyIncreasing(sig.times) && |sig.y| == |sig.x| == |sig.times| == |sig.pup|
    requires |sig.x| > 0 ==> |vel| + 1 == |sig.times|
    ensures EyeStagesOk(Classified(ev, sig, vel, th), sig, et, bt)
  {
    var c := Classified(ev, sig, vel, th);
    if |sig.x| > 0 {
      EyePassOk(sig.times, sig.x, sig.y, vel, th, et, MinFixationDuration);
      var p := DurationPass(c, sig, et, MinFixationDuration);
      assert p.0.blink == BlinkMask(sig.pup);
      BlinkListOfRuns(sig.times, p.0.blink, bt, sig.sampledur);
    }
  }

  /**
   * An eye loaded from samples with strictly increasing times meets what
   * EyeStagesSucceed needs, for the raw and, when the filter keeps the
   * length, for the smoothed velocity.
   */
  lemma LoadedEyeFits(g: seq<LogEntry>, smooth: bool, win: int, order: int, num: Numerics, prev: EyeSignals)
    requires AllGaze(g) && NumericsOk(num) && StrictlyIncreasing(Times(g))
    ensures var e := LoadEye(g, smooth, win, order, num, prev);
      |e.x| > 0 ==>
        && StrictlyIncreasing(e.times) && |e.y| == |e.x| == |e.times| == |e.pup|
        && |e.vel| + 1 == |e.times| && (smooth ==> |e.vels| + 1 == |e.times|)
  {
    LoadEyeFacts(g, smooth, win, order, num, prev);
    var e := LoadEye(g, smooth, win, order, num, prev);
    if |e.x| > 0 {
      assert e.times == Times(g);
      if smooth {
        assert e.vels == num.savgol(e.vel, win, order);
      }
    }
  }

  class EyeData {
    // configuration
    var smooth: bool
    var smoothwin: int
    var smoothorder: int
    var methodName: string
    var nmethod: real
    // the trial's stimulus and logged fixations
    var stimfile: Option<string>
    var loglfix: seq<LogEntry>
    var logrfix: seq<LogEntry>
    // per eye: samples, smoothed samples, pupil sizes, times, sample
    // duration, velocities and their statistics (xgazeleft ... meanvelol)
    var left: EyeSignals
    var right: EyeSignals
    var threshold: (Num, Num)
    // per eye: fixation and saccade vectors, blink signal and the lists
    // (fixl, sacl, lblink, lfixlist, lsaclist, lblinklist)
    var leftEvents: EyeEvents
    var rightEvents: EyeEvents

    /** A new analyser: no samples, no results. */
    constructor (methodName: string, n: real, smooth: bool, smoothwin: int, smoothorder: int)
      ensures this.methodName == methodName && nmethod == n && this.smooth == smooth
      ensures this.smoothwin == smoothwin && this.smoothorder == smoothorder
      ensures stimfile == None && loglfix == [] && logrfix == [] && threshold == (Gap, Gap)
      ensures left == NoSignals && right == NoSignals && !HasLeftGaze() && !HasRightGaze()
      ensures leftEvents == NoEvents && rightEvents == NoEvents
    {
      this.smooth, this.smoothwin, this.smoothorder := smooth, smoothwin, smoothorder;
      this.methodName, nmethod := methodName, n;
      stimfile, loglfix, logrfix := None, [], [];
      left, right := NoSignals, NoSignals;
      threshold := (Gap, Gap);
      leftEvents, rightEvents := NoEvents, NoEvents;
    }

    /** The left eye has data exactly when it has x samples. */
    predicate HasLeftGaze()
      reads this`left
    {
      |left.x| > 0
    }

    predicate HasRightGaze()
      reads this`right
    {
      |right.x| > 0
    }

    /** The velocities classification looks at: the smoothed ones when smoothing. */
    function LeftVelocity(): seq<Num>
      reads this`smooth, this`left
    {
      if smooth then left.vels else left.vel
    }

    function RightVelocity(): seq<Num>
      reads this`smooth, this`right
    {
      if smooth then right.vels else right.vel
    }

    /** The pass _correctFixationsByDuration runs on the left eye's vectors as _findFixations and _findSaccades leave them. */
    function LeftPass(): Pass
      reads this`smooth, this`left, this`threshold
    {
      CorrectByDuration(Edge(FixMask(LeftVelocity(), threshold.0)), Edge(SacMask(LeftVelocity(), threshold.0)),
                        left.times, left.x, left.y, LFIX, MinFixationDuration)
    }

    function RightPass(): Pass
      reads this`smooth, this`right, this`threshold
    {
      CorrectByDuration(Edge(FixMask(RightVelocity(), threshold.1)), Edge(SacMask(RightVelocity(), threshold.1)),
                        right.times, right.x, right.y, RFIX, MinFixationDuration)
    }

    /** The threshold _determineThreshold computes from the statistics in this object. */
    function ThresholdNow(num: Numerics): Result<(Num, Num)>
      reads this`methodName, this`nmethod, this`left, this`right
    {
      Threshold(methodName, nmethod, HasLeftGaze(), HasRightGaze(),
                left.mean, right.mean, left.med, right.med, left.vel, right.vel, num)
    }

    /**
     * processTrial up to the threshold: the stimulus, the logged fixations
     * and, per eye, the signals LoadEye computes from the trial's samples
     * and what this object held before.
     */
    method Prepare(trial: Trial, num: Numerics)
      requires AllGaze(trial.lgaze) && AllGaze(trial.rgaze)
      modifies this`stimfile, this`loglfix, this`logrfix, this`left, this`right
      ensures stimfile == trial.stimulus && loglfix == trial.loglfix && logrfix == trial.logrfix
      ensures left == LoadEye(trial.lgaze, smooth, smoothwin, smoothorder, num, old(left))
      ensures right == LoadEye(trial.rgaze, smooth, smoothwin, smoothorder, num, old(right))
    {
      stimfile, loglfix, logrfix := trial.stimulus, trial.loglfix, trial.logrfix;
      left := LoadEye(trial.lgaze, smooth, smoothwin, smoothorder, num, left);
      right := LoadEye(trial.rgaze, smooth, smoothwin, smoothorder, num, right);
    }

    /**
     * processTrial: Prepare, the smoothing, the threshold, then Analyse. It
     * raises ValueError when smoothing an eye's velocity does, otherwise the
     * threshold's error, otherwise the error of a later stage. On samples
     * whose times increase it succeeds exactly when the smoothing and the
     * threshold do. On success an eye with data ends with the vectors and
     * lists of the duration pass over the edge vectors of its velocity, and
     * the blinks of its pupil signal.
     */
    method ProcessTrial(trial: Trial, num: Numerics) returns (r: Result<()>)
      requires AllGaze(trial.lgaze) && AllGaze(trial.rgaze) && NumericsOk(num)
      modifies this`stimfile, this`loglfix, this`logrfix, this`left, this`right
      modifies this`threshold, this`leftEvents, this`rightEvents
      ensures stimfile == trial.stimulus && loglfix == trial.loglfix && logrfix == trial.logrfix
      ensures left == LoadEye(trial.lgaze, smooth, smoothwin, smoothorder, num, old(left))
      ensures right == LoadEye(trial.rgaze, smooth, smoothwin, smoothorder, num, old(right))
      ensures var raises := SmoothingRaises(|trial.lgaze|, smooth, smoothwin, smoothorder)
                         || SmoothingRaises(|trial.rgaze|, smooth, smoothwin, smoothorder);
        && (raises ==> r == Err(ValueError))
        && (!raises && ThresholdNow(num).Err? ==> r == Err(ThresholdNow(num).error))
        && (r.Ok? <==>
              && !raises && ThresholdNow(num).Ok?
              && EyeStagesOk(Classified(old(leftEvents), left, LeftVelocity(), ThresholdNow(num).value.0), left, LFIX, LBLINK)
              && EyeStagesOk(Classified(old(rightEvents), right, RightVelocity(), ThresholdNow(num).value.1), right, RFIX, RBLINK))
        && (StrictlyIncreasing(Times(trial.lgaze)) && StrictlyIncreasing(Times(trial.rgaze)) ==>
              (r.Ok? <==> !raises && ThresholdNow(num).Ok?))
      ensures r.Ok? ==> threshold == ThresholdNow(num).value
      ensures r.Ok? && |left.x| > 0 ==> LeftDone()
      ensures r.Ok? && |right.x| > 0 ==> RightDone()
    {
      Prepare(trial, num);
      if SmoothingRaises(|trial.lgaze|, smooth, smoothwin, smoothorder)
         || SmoothingRaises(|trial.rgaze|, smooth, smoothwin, smoothorder) {
        return Err(ValueError);
      }
      r := Run(num);
      if StrictlyIncreasing(Times(trial.lgaze)) && StrictlyIncreasing(Times(trial.rgaze)) && ThresholdNow(num).Ok? {
        LoadedEyeFits(trial.lgaze, smooth, smoothwin, smoothorder, num, old(left));
        LoadedEyeFits(trial.rgaze, smooth, smoothwin, smoothorder, num, old(right));
        var th := ThresholdNow(num).value;
        EyeStagesSucceed(old(leftEvents), left, LeftVelocity(), th.0, LFIX, LBLINK);
        EyeStagesSucceed(old(rightEvents), right, RightVelocity(), th.1, RFIX, RBLINK);
      }
    }

    /** The left eye's results are those of the duration pass over its edge vectors, and its blinks. */
    predicate LeftDone()
      reads this`smooth, this`left, this`threshold, this`leftEvents
    {
      && LeftPass() == Pass(Ok((leftEvents.fixlist, leftEvents.saclist)), leftEvents.fixvec, leftEvents.sacvec)
      && leftEvents.blink == BlinkMask(left.pup)
      && BlinkList(left.times, leftEvents.blink, LBLINK, left.sampledur) == Ok(leftEvents.blinklist)
    }

    predicate RightDone()
      reads this`smooth, this`right, this`threshold, this`rightEvents
    {
      && RightPass() == Pass(Ok((rightEvents.fixlist, rightEvents.saclist)), rightEvents.fixvec, rightEvents.sacvec)
      && rightEvents.blink == BlinkMask(right.pup)
      && BlinkList(right.times, rightEvents.blink, RBLINK, right.sampledur) == Ok(rightEvents.blinklist)
    }

    /** processTrial once the signals are loaded: the threshold, then Analyse. */
    method Run(num: Numerics) returns (r: Result<()>)
      modifies this`threshold, this`leftEvents, this`rightEvents
      ensures ThresholdNow(num).Err? ==> r == Err(ThresholdNow(num).error)
      ensures r.Ok? <==>
        && ThresholdNow(num).Ok?
        && EyeStagesOk(Classified(old(leftEvents), left, LeftVelocity(), ThresholdNow(num).value.0), left, LFIX, LBLINK)
        && EyeStagesOk(Classified(old(rightEvents), right, RightVelocity(), ThresholdNow(num).value.1), right, RFIX, RBLINK)
      ensures r.Ok? ==> threshold == ThresholdNow(num).value
      ensures r.Ok? && |left.x| > 0 ==> LeftDone()
      ensures r.Ok? && |right.x| > 0 ==> RightDone()
    {
      r := DetermineThreshold(num);
      if r.Err? {
        return;
      }
      r := Analyse();
    }

    /** processTrial once the threshold is set: Classify, then BuildLists. */
    method Analyse() returns (r: Result<()>)
      modifies this`leftEvents, this`rightEvents
      ensures r.Ok? <==>
        && EyeStagesOk(Classified(old(leftEvents), left, LeftVelocity(), threshold.0), left, LFIX, LBLINK)
        && EyeStagesOk(Classified(old(rightEvents), right, RightVelocity(), threshold.1), right, RFIX, RBLINK)
      ensures r.Ok? && |left.x| > 0 ==> LeftDone()
      ensures r.Ok? && |right.x| > 0 ==> RightDone()
    {
      Classify();
      r := BuildLists();
    }

    /** _determineThreshold: on success both thresholds are set, otherwise nothing changes. */
    method DetermineThreshold(num: Numerics) returns (r: Result<()>)
      modifies this`threshold
      ensures var t := Threshold(methodName, nmethod, |left.x| > 0, |right.x| > 0,
                                 left.mean, right.mean, left.med, right.med, left.vel, right.vel, num);
        && (t.Ok? ==> r == Ok(()) && threshold == t.value)
        && (t.Err? ==> r == Err(t.error) && threshold == old(threshold))
    {
      var t := Threshold(methodName, nmethod, |left.x| > 0, |right.x| > 0,
                         left.mean, right.mean, left.med, right.med, left.vel, right.vel, num);
      if t.Err? {
        return Err(t.error);
      }
      threshold := t.value;
      return Ok(());
    }

    /**
     * processTrial's classification once the threshold is set: the fixation,
     * saccade and blink vectors. The fixation vector of an eye without data
     * is left alone, while its saccade vector is still recomputed.
     */
    method Classify()
      modifies this`leftEvents, this`rightEvents
      ensures leftEvents == Classified(old(leftEvents), left, LeftVelocity(), threshold.0)
      ensures rightEvents == Classified(old(rightEvents), right, RightVelocity(), threshold.1)
    {
      FindFixations();
      FindSaccades();
      FindBlinks();
    }

    /** _findFixations: the edge vector of velocity < threshold, for the eyes with data. */
    method FindFixations()
      modifies this`leftEvents, this`rightEvents
      ensures leftEvents == if |left.x| > 0 then old(leftEvents).(fixvec := Edge(FixMask(LeftVelocity(), threshold.0))) else old(leftEvents)
      ensures rightEvents == if |right.x| > 0 then old(rightEvents).(fixvec := Edge(FixMask(RightVelocity(), threshold.1))) else old(rightEvents)
    {
      if |left.x| > 0 {
        leftEvents := leftEvents.(fixvec := Edge(FixMask(LeftVelocity(), threshold.0)));
      }
      if |right.x| > 0 {
        rightEvents := rightEvents.(fixvec := Edge(FixMask(RightVelocity(), threshold.1)));
      }
    }

    /** _findSaccades: the edge vector of velocity > threshold, for both eyes whether they have data or not. */
    method FindSaccades()
      modifies this`leftEvents, this`rightEvents
      ensures leftEvents == old(leftEvents).(sacvec := Edge(SacMask(LeftVelocity(), threshold.0)))
      ensures rightEvents == old(rightEvents).(sacvec := Edge(SacMask(RightVelocity(), threshold.1)))
    {
      leftEvents := leftEvents.(sacvec := Edge(SacMask(LeftVelocity(), threshold.0)));
      rightEvents := rightEvents.(sacvec := Edge(SacMask(RightVelocity(), threshold.1)));
    }

    /** _findBlinks: a sample blinks when its pupil size is 0 or missing. */
    method FindBlinks()
      modifies this`leftEvents, this`rightEvents
      ensures leftEvents == old(leftEvents).(blink := BlinkMask(left.pup))
      ensures rightEvents == old(rightEvents).(blink := BlinkMask(right.pup))
    {
      leftEvents := leftEvents.(blink := BlinkMask(left.pup));
      rightEvents := rightEvents.(blink := BlinkMask(right.pup));
    }

    /**
     * processTrial's last two stages: the duration pass (minimum 50) and the
     * blink lists, stopping at the first that raises. It succeeds exactly
     * when every stage of every eye does.
     */
    method BuildLists() returns (r: Result<()>)
      modifies this`leftEvents, this`rightEvents
      ensures var l1 := DurationPass(old(leftEvents), left, LFIX, MinFixationDuration);
        var r1 := DurationPass(old(rightEvents), right, RFIX, MinFixationDuration);
        var l2 := BlinkStage(l1.0, left, LBLINK);
        var r2 := BlinkStage(r1.0, right, RBLINK);
        && (r.Ok? <==> l1.1.Ok? && r1.1.Ok? && l2.1.Ok? && r2.1.Ok?)
        && (r.Ok? ==> leftEvents == l2.0 && rightEvents == r2.0)
    {
      r := CorrectFixationsByDuration(MinFixationDuration);
      if r.Err? {
        return;
      }
      r := CreateBlinks();
    }

    /**
     * _correctFixationsByDuration: the duration pass for the left eye, then
     * for the right; a raise in the left pass skips the right eye.
     */
    method CorrectFixationsByDuration(ms: real) returns (r: Result<()>)
      modifies this`leftEvents, this`rightEvents
      ensures var l := DurationPass(old(leftEvents), left, LFIX, ms);
        var rt := DurationPass(old(rightEvents), right, RFIX, ms);
        && leftEvents == l.0
        && (l.1.Err? ==> r == l.1 && rightEvents == old(rightEvents))
        && (l.1.Ok? ==> r == rt.1 && rightEvents == rt.0)
    {
      r := CorrectLeft(ms);
      if r.Err? {
        return;
      }
      r := CorrectRight(ms);
    }

    /** The duration pass over the left eye's vectors. */
    method CorrectLeft(ms: real) returns (r: Result<()>)
      modifies this`leftEvents
      ensures (leftEvents, r) == DurationPass(old(leftEvents), left, LFIX, ms)
    {
      if |left.x| == 0 {
        return Ok(());
      }
      var res, f, s := RunPass(leftEvents.fixvec, leftEvents.sacvec, left.times, left.x, left.y, LFIX, ms);
      leftEvents := leftEvents.(fixvec := f, sacvec := s);
      if res.Err? {
        return Err(res.error);
      }
      leftEvents := leftEvents.(fixlist := res.value.0, saclist := res.value.1);
      return Ok(());
    }

    method CorrectRight(ms: real) returns (r: Result<()>)
      modifies this`rightEvents
      ensures (rightEvents, r) == DurationPass(old(rightEvents), right, RFIX, ms)
    {
      if |right.x| == 0 {
        return Ok(());
      }
      var res, f, s := RunPass(rightEvents.fixvec, rightEvents.sacvec, right.times, right.x, right.y, RFIX, ms);
      rightEvents := rightEvents.(fixvec := f, sacvec := s);
      if res.Err? {
        return Err(res.error);
      }
      rightEvents := rightEvents.(fixlist := res.value.0, saclist := res.value.1);
      return Ok(());
    }

    /** _createBlinks: the blink list of the left eye, then of the right, for the eyes with data. */
    method CreateBlinks() returns (r: Result<()>)
      modifies this`leftEvents, this`rightEvents
      ensures var l := BlinkStage(old(leftEvents), left, LBLINK);
        var rt := BlinkStage(old(rightEvents), right, RBLINK);
        && leftEvents == l.0
        && (l.1.Err? ==> r == l.1 && rightEvents == old(rightEvents))
        && (l.1.Ok? ==> r == rt.1 && rightEvents == rt.0)
    {
      if |left.x| > 0 {
        var lb := BlinkList(left.times, leftEvents.blink, LBLINK, left.sampledur);
        if lb.Err? {
          return Err(lb.error);
        }
        leftEvents := leftEvents.(blinklist := lb.value);
      }
      if |right.x| > 0 {
        var rb := BlinkList(right.times, rightEvents.blink, RBLINK, right.sampledur);
        if rb.Err? {
          return Err(rb.error);
        }
        rightEvents := rightEvents.(blinklist := rb.value);
      }
      return Ok(());
    }
  }

  /** _fixFixSac on copies of the two vectors: the pass's outcome and the vectors it leaves. */
  method RunPass(fix0: seq<int>, sac0: seq<int>, times: seq<int>, x: seq<Num>, y: seq<Num>, et: EntryType, minDur: real)
    returns (r: Result<(seq<LogEntry>, seq<LogEntry>)>, fix1: seq<int>, sac1: seq<int>)
    ensures CorrectByDuration(fix0, sac0, times, x, y, et, minDur) == Pass(r, fix1, sac1)
  {
    var f := ToArray(fix0);
    var s := ToArray(sac0);
    r := FixFixSac(f, s, times, x, y, et, minDur);
    fix1, sac1 := f[..], s[..];
  }

  method ToArray(s: seq<int>) returns (a: array<int>)
    ensures fresh(a) && a[..] == s
  {
    a := new int[|s|];
    forall i | 0 <= i < |s| {
      a[i] := s[i];
    }
  }
}
