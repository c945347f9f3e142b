// log/parseeyefile.py: reading a list of lines as an iSpector .csv log or,
// failing that, as an Eyelink .asc log. Python's int() and float() and the
// compiled regular expressions of extractAscLog are parameters: a
// conversion is None where Python raises ValueError, a matcher None where
// the regular expression finds no match, and otherwise it hands over the
// groups the code reads.

module ParseEyeFile {
  import opened Base
  import opened Num
  import opened Text
  import opened EyeLog

  /** int(s), float(s) for a time or a duration (whole milliseconds), and float(s). */
  datatype Conversions = Conversions(
    toInt: string -> Option<int>,
    toTime: string -> Option<int>,
    toNum: string -> Option<Num>)

  /** The numeric codes of the first column of a .csv log. */
  const CODE_LGAZE: int := 0
  const CODE_RGAZE: int := 1
  const CODE_LFIX: int := 2
  const CODE_RFIX: int := 3
  const CODE_STIMULUS: int := 4
  const CODE_MESSAGE: int := 5

  /** l[k] read as a time: IndexError past the end, ValueError when it is no number. */
  function TimeAt(l: seq<string>, k: nat, c: Conversions): Result<int>
  {
    if k >= |l| then Err(IndexError)
    else if c.toTime(l[k]).None? then Err(ValueError)
    else Ok(c.toTime(l[k]).value)
  }

  /** l[k] read with float(). */
  function NumAt(l: seq<string>, k: nat, c: Conversions): Result<Num>
  {
    if k >= |l| then Err(IndexError)
    else if c.toNum(l[k]).None? then Err(ValueError)
    else Ok(c.toNum(l[k]).value)
  }

  /** The entry type a code of the first column announces. */
  function CodeType(n: int): Option<EntryType>
  {
    if n == CODE_LGAZE then Some(LGAZE)
    else if n == CODE_RGAZE then Some(RGAZE)
    else if n == CODE_LFIX then Some(LFIX)
    else if n == CODE_RFIX then Some(RFIX)
    else if n == CODE_MESSAGE then Some(MESSAGE)
    else None
  }

  /**
   * getLogEntry(splitline). A gaze is code, time, x, y, pupil; a fixation is
   * code, time, x, y, duration; a message is code, time and the text, whose
   * tabs are put back and whose line ends are stripped. Fields are read left
   * to right, so a missing field raises IndexError and an unreadable one
   * ValueError, whichever comes first. The error raised for an unknown code
   * names LogEntry.SEPARATOR, which log/eyelog.py does not define, so it is
   * an AttributeError.
   */
  function GetLogEntry(l: seq<string>, c: Conversions): (r: Result<LogEntry>)
    ensures r.Ok? ==> l != [] && c.toInt(l[0]).Some? && CodeType(c.toInt(l[0]).value) == Some(TypeOf(r.value))
    ensures l != [] && c.toInt(l[0]) == Some(CODE_STIMULUS) ==> r == Err(RuntimeError)
  {
    if l == [] then Err(IndexError)
    else if c.toInt(l[0]).None? then Err(ValueError)
    else
      var n := c.toInt(l[0]).value;
      if n == CODE_LGAZE || n == CODE_RGAZE then
        var time :- TimeAt(l, 1, c);
        var x :- NumAt(l, 2, c);
        var y :- NumAt(l, 3, c);
        var pupil :- NumAt(l, 4, c);
        Ok(Gaze(if n == CODE_LGAZE then LGAZE else RGAZE, time, x, y, pupil))
      else if n == CODE_LFIX || n == CODE_RFIX then
        var time :- TimeAt(l, 1, c);
        var x :- NumAt(l, 2, c);
        var y :- NumAt(l, 3, c);
        var dur :- TimeAt(l, 4, c);
        Ok(Fixation(if n == CODE_LFIX then LFIX else RFIX, time, dur, x, y))
      else if n == CODE_STIMULUS then Err(RuntimeError)
      else if n == CODE_MESSAGE then
        var text := StripCrLf(Join(SEP, if |l| >= 2 then l[2..] else []));
        var time :- TimeAt(l, 1, c);
        Ok(Message(time, text))
      else Err(AttributeError)
  }

  /** The five-column records: which columns they read, and that nothing else makes them fail. */
  lemma GazeAndFixationColumns(l: seq<string>, c: Conversions)
    requires l != [] && c.toInt(l[0]).Some?
    ensures var n := c.toInt(l[0]).value;
      var r := GetLogEntry(l, c);
      (n == CODE_LGAZE || n == CODE_RGAZE || n == CODE_LFIX || n == CODE_RFIX) ==>
        (r.Ok? <==> |l| >= 5 && c.toTime(l[1]).Some? && c.toNum(l[2]).Some? && c.toNum(l[3]).Some?
                    && (if n == CODE_LFIX || n == CODE_RFIX then c.toTime(l[4]).Some? else c.toNum(l[4]).Some?))
        && ((|l| < 5 && (|l| < 2 || c.toTime(l[1]).Some?) && (|l| < 3 || c.toNum(l[2]).Some?)
             && (|l| < 4 || c.toNum(l[3]).Some?)) ==> r == Err(IndexError))
    ensures var n := c.toInt(l[0]).value;
      var r := GetLogEntry(l, c);
      (n == CODE_LGAZE || n == CODE_RGAZE) && r.Ok? ==>
        r.value == Gaze(r.value.etype, c.toTime(l[1]).value, c.toNum(l[2]).value, c.toNum(l[3]).value, c.toNum(l[4]).value)
    ensures var n := c.toInt(l[0]).value;
      var r := GetLogEntry(l, c);
      (n == CODE_LFIX || n == CODE_RFIX) && r.Ok? ==>
        r.value == Fixation(r.value.etype, c.toTime(l[1]).value, c.toTime(l[4]).value, c.toNum(l[2]).value, c.toNum(l[3]).value)
  {
  }

  /** A line whose first two fields hold no tab splits into those two fields and the fields of the rest. */
  lemma SplitTwoFields(code: string, time: string, text: string)
    requires '\t' !in code && '\t' !in time
    ensures Split(code + SEP + time + SEP + text, '\t') == [code, time] + Split(text, '\t')
  {
    assert code + SEP + time + SEP + text == code + ['\t'] + (time + ['\t'] + text);
    SplitLeadingField(code, '\t', time + ['\t'] + text);
    SplitLeadingField(time, '\t', text);
  }

  /** A message line comes back with its text whole, tabs included, only its line ends stripped. */
  lemma MessageText(code: string, time: string, text: string, c: Conversions)
    requires '\t' !in code && '\t' !in time
    requires c.toInt(code) == Some(CODE_MESSAGE) && c.toTime(time).Some?
    ensures GetLogEntry(Split(code + SEP + time + SEP + text, '\t'), c) == Ok(Message(c.toTime(time).value, StripCrLf(text)))
  {
    var line := code + SEP + time + SEP + text;
    SplitTwoFields(code, time, text);
    var l := Split(line, '\t');
    assert l[2..] == Split(text, '\t');
    JoinSplit(text, '\t');
  }

  /** What extractCsvLog produces: all entries, or the 1-based number of the first bad line. */
  datatype CsvOutcome = CsvEntries(entries: seq<LogEntry>) | CsvFailure(line: nat)

  /** One line of a .csv log: its tab-separated fields given to getLogEntry. */
  function LineEntry(c: Conversions): string -> Result<LogEntry>
  {
    line => GetLogEntry(Split(line, '\t'), c)
  }

  /** The lines read one after the other; the first failing line ends the reading. */
  function CsvLog(lines: seq<string>, parse: string -> Result<LogEntry>): (r: CsvOutcome)
  {
    if lines == [] then CsvEntries([])
    else
      var prev := CsvLog(lines[..|lines| - 1], parse);
      if prev.CsvFailure? then prev
      else
        var e := parse(lines[|lines| - 1]);
        if e.Ok? then CsvEntries(prev.entries + [e.value]) else CsvFailure(|lines|)
  }

  /** One entry per line when every line reads, each the entry of its own line. */
  lemma {:induction false} CsvLogEntries(lines: seq<string>, parse: string -> Result<LogEntry>)
    ensures var r := CsvLog(lines, parse);
      r.CsvEntries? <==> forall i :: 0 <= i < |lines| ==> parse(lines[i]).Ok?
    ensures var r := CsvLog(lines, parse);
      r.CsvEntries? ==> (|r.entries| == |lines|
        && forall i :: 0 <= i < |lines| ==> r.entries[i] == parse(lines[i]).value)
  {
    if lines != [] {
      var init := lines[..|lines| - 1];
      CsvLogEntries(init, parse);
      assert forall i :: 0 <= i < |init| ==> init[i] == lines[i];
      var prev := CsvLog(init, parse);
      if prev.CsvEntries? && parse(lines[|lines| - 1]).Ok? {
        var r := CsvLog(lines, parse);
        assert r.entries[..|init|] == prev.entries;
      }
    }
  }

  /** When a line does not read, the reading fails at the first such line. */
  lemma {:induction false} CsvLogFirstFailure(lines: seq<string>, parse: string -> Result<LogEntry>)
    ensures var r := CsvLog(lines, parse);
      r.CsvFailure? ==> (1 <= r.line <= |lines| && parse(lines[r.line - 1]).Err?
        && forall i :: 0 <= i < r.line - 1 ==> parse(lines[i]).Ok?)
  {
    if lines != [] {
      var init := lines[..|lines| - 1];
      CsvLogFirstFailure(init, parse);
      CsvLogEntries(init, parse);
      assert forall i :: 0 <= i < |init| ==> init[i] == lines[i];
    }
  }

  /** After a failing line, the lines that follow are not read. */
  lemma {:induction false} CsvFailureSticks(lines: seq<string>, parse: string -> Result<LogEntry>, n: nat)
    requires n <= |lines| && CsvLog(lines[..n], parse).CsvFailure?
    ensures CsvLog(lines, parse) == CsvLog(lines[..n], parse)
    decreases |lines| - n
  {
    if n < |lines| {
      assert lines[..n + 1][..n] == lines[..n];
      CsvFailureSticks(lines, parse, n + 1);
    } else {
      assert lines[..n] == lines;
    }
  }

  /** extractCsvLog(lines) */
  method ExtractCsvLog(lines: seq<string>, c: Conversions) returns (r: CsvOutcome)
    ensures r == CsvLog(lines, LineEntry(c))
  {
    var logentries: seq<LogEntry> := [];
    var n := 1;
    while n <= |lines|
      invariant 1 <= n <= |lines| + 1
      invariant CsvLog(lines[..n - 1], LineEntry(c)) == CsvEntries(logentries)
    {
      assert lines[..n][..n - 1] == lines[..n - 1];
      var splitline := Split(lines[n - 1], '\t');
      var e := GetLogEntry(splitline, c);
      if e.Err? {
        CsvFailureSticks(lines, LineEntry(c), n);
        return CsvFailure(n);
      }
      logentries := logentries + [e.value];
      n := n + 1;
    }
    assert lines[..n - 1] == lines;
    return CsvEntries(logentries);
  }

  /** The groups of the regular expressions of extractAscLog that the code reads. */
  datatype MsgGroups = MsgGroups(time: string, text: string)
  datatype DuoGroups = DuoGroups(time: string, lx: string, ly: string, lp: string, rx: string, ry: string, rp: string)
  datatype MonoGroups = MonoGroups(time: string, x: string, y: string, p: string)
  datatype EfixGroups = EfixGroups(eye: string, start: string, end: string, duration: string, x: string, y: string)

  /** msgre, duosample, sampleformat (its word), monosample and endfix, as searches on one line. */
  datatype AscMatchers = AscMatchers(
    msg: string -> Option<MsgGroups>,
    duo: string -> Option<DuoGroups>,
    sampleFormat: string -> Option<string>,
    mono: string -> Option<MonoGroups>,
    endFix: string -> Option<EfixGroups>)

  /**
   * The word of a SAMPLES header that makes the monocular samples after it
   * left gazes. extractAscLog as written tests `lorr.lower() == "right"`, so
   * a header naming the left eye makes them right gazes; the corrected
   * reading tests for "left".
   */
  const AS_WRITTEN_LEFT_WORD: string := "right"
  const LEFT_WORD: string := "left"

  /** The entries so far and the `isleft` flag of the latest SAMPLES header. */
  datatype AscState = AscState(entries: seq<LogEntry>, isLeft: bool)

  /** The binocular sample's two gazes, or None when a group does not convert (the line is skipped). */
  function DuoGazes(g: DuoGroups, c: Conversions): Option<seq<LogEntry>>
  {
    var t, lx, ly, lp := c.toTime(g.time), c.toNum(g.lx), c.toNum(g.ly), c.toNum(g.lp);
    var rx, ry, rp := c.toNum(g.rx), c.toNum(g.ry), c.toNum(g.rp);
    if t.Some? && lx.Some? && ly.Some? && lp.Some? && rx.Some? && ry.Some? && rp.Some? then
      Some([Gaze(LGAZE, t.value, lx.value, ly.value, lp.value), Gaze(RGAZE, t.value, rx.value, ry.value, rp.value)])
    else None
  }

  function Convert<T>(o: Option<T>): Result<T>
  {
    if o.Some? then Ok(o.value) else Err(ValueError)
  }

  /**
   * One line of extractAscLog: a message, a binocular sample, a SAMPLES
   * header, a monocular sample or the end of a fixation, the first that
   * matches; any other line is skipped.
   */
  function AscLine(st: AscState, line: string, m: AscMatchers, c: Conversions, leftWord: string): Result<AscState>
  {
    if m.msg(line).Some? then
      var g := m.msg(line).value;
      var t :- Convert(c.toTime(g.time));
      Ok(st.(entries := st.entries + [Message(t, g.text)]))
    else if m.duo(line).Some? then
      var gazes := DuoGazes(m.duo(line).value, c);
      Ok(if gazes.Some? then st.(entries := st.entries + gazes.value) else st)
    else if m.sampleFormat(line).Some? then
      Ok(st.(isLeft := ToLower(m.sampleFormat(line).value) == leftWord))
    else if m.mono(line).Some? then
      var g := m.mono(line).value;
      var t :- Convert(c.toInt(g.time));
      var x :- Convert(c.toNum(g.x));
      var y :- Convert(c.toNum(g.y));
      var p :- Convert(c.toNum(g.p));
      Ok(st.(entries := st.entries + [Gaze(if st.isLeft then LGAZE else RGAZE, t, x, y, p)]))
    else if m.endFix(line).Some? then
      var g := m.endFix(line).value;
      var start :- Convert(c.toTime(g.start));
      var dur :- Convert(c.toTime(g.duration));
      var x :- Convert(c.toNum(g.x));
      var y :- Convert(c.toNum(g.y));
      if g.eye == "R" then Ok(st.(entries := st.entries + [Fixation(RFIX, start, dur, x, y)]))
      else if g.eye == "L" then Ok(st.(entries := st.entries + [Fixation(LFIX, start, dur, x, y)]))
      else Err(ValueError)
    else Ok(st)
  }

  /**
   * extractAscLog as a fold over the lines; an exception ends it. A SAMPLES
   * header sets `isleft` when its word, lowered, is `leftWord`.
   */
  function AscLog(lines: seq<string>, m: AscMatchers, c: Conversions, leftWord: string): Result<AscState>
  {
    if lines == [] then Ok(AscState([], false))
    else
      var prev :- AscLog(lines[..|lines| - 1], m, c, leftWord);
      AscLine(prev, lines[|lines| - 1], m, c, leftWord)
  }

  /** extractAscLog(lines), with `leftWord` the header word that `isleft` tests for. */
  method ExtractAscLog(lines: seq<string>, m: AscMatchers, c: Conversions, leftWord: string) returns (r: Result<seq<LogEntry>>)
    ensures AscLog(lines, m, c, leftWord).Ok? <==> r.Ok?
    ensures r.Ok? ==> r.value == AscLog(lines, m, c, leftWord).value.entries
    ensures r.Err? ==> r.error == AscLog(lines, m, c, leftWord).error
  {
    var logentries: seq<LogEntry> := [];
    var isleft := false;
    var i := 0;
    while i < |lines|
      invariant 0 <= i <= |lines|
      invariant AscLog(lines[..i], m, c, leftWord) == Ok(AscState(logentries, isleft))
    {
      assert lines[..i + 1][..i] == lines[..i];
      var line := lines[i];
      var st := AscLine(AscState(logentries, isleft), line, m, c, leftWord);
      if st.Err? {
        AscErrorSticks(lines, m, c, i + 1, leftWord);
        return Err(st.error);
      }
      logentries, isleft := st.value.entries, st.value.isLeft;
      i := i + 1;
    }
    assert lines[..i] == lines;
    return Ok(logentries);
  }

  /** Once a line raises, extractAscLog raises that exception. */
  lemma {:induction false} AscErrorSticks(lines: seq<string>, m: AscMatchers, c: Conversions, n: nat, leftWord: string)
    requires n <= |lines| && AscLog(lines[..n], m, c, leftWord).Err?
    ensures AscLog(lines, m, c, leftWord) == Err(AscLog(lines[..n], m, c, leftWord).error)
    decreases |lines| - n
  {
    if n < |lines| {
      assert lines[..n + 1][..n] == lines[..n];
      AscErrorSticks(lines, m, c, n + 1, leftWord);
    } else {
      assert lines[..n] == lines;
    }
  }

  /** extractAscLog only appends: the entries of a prefix of the lines start the entries of all of them. */
  lemma {:induction false} AscAppends(lines: seq<string>, n: nat, m: AscMatchers, c: Conversions, leftWord: string)
    requires n <= |lines| && AscLog(lines, m, c, leftWord).Ok?
    ensures AscLog(lines[..n], m, c, leftWord).Ok?
    ensures var pre := AscLog(lines[..n], m, c, leftWord).value.entries;
      var all := AscLog(lines, m, c, leftWord).value.entries;
      |pre| <= |all| && all[..|pre|] == pre
    decreases |lines|
  {
    if n < |lines| {
      var init := lines[..|lines| - 1];
      assert init[..n] == lines[..n];
      AscAppends(init, n, m, c, leftWord);
    } else {
      assert lines[..n] == lines;
    }
  }

  /** A line no expression matches is skipped. */
  lemma AscSkipsUnmatched(lines: seq<string>, line: string, m: AscMatchers, c: Conversions, leftWord: string)
    requires m.msg(line).None? && m.duo(line).None? && m.sampleFormat(line).None?
    requires m.mono(line).None? && m.endFix(line).None?
    ensures AscLog(lines + [line], m, c, leftWord) == AscLog(lines, m, c, leftWord)
  {
    assert (lines + [line])[..|lines|] == lines;
  }

  /** A message wins over every other expression and is kept with its time and text. */
  lemma AscMessage(lines: seq<string>, line: string, m: AscMatchers, c: Conversions, leftWord: string)
    requires AscLog(lines, m, c, leftWord).Ok? && m.msg(line).Some?
    ensures var g := m.msg(line).value;
      var r := AscLog(lines + [line], m, c, leftWord);
      c.toTime(g.time).Some? <==> r.Ok?
    ensures var g := m.msg(line).value;
      var r := AscLog(lines + [line], m, c, leftWord);
      r.Ok? ==> r.value.entries == AscLog(lines, m, c, leftWord).value.entries + [Message(c.toTime(g.time).value, g.text)]
  {
    assert (lines + [line])[..|lines|] == lines;
  }

  /**
   * A binocular sample that is not a message adds a left gaze and then a
   * right gaze with the same time; a group that does not convert skips the
   * line and raises nothing.
   */
  lemma AscBinocular(lines: seq<string>, line: string, m: AscMatchers, c: Conversions, leftWord: string)
    requires AscLog(lines, m, c, leftWord).Ok? && m.msg(line).None? && m.duo(line).Some?
    ensures var r := AscLog(lines + [line], m, c, leftWord);
      var before := AscLog(lines, m, c, leftWord).value.entries;
      r.Ok? && r.value.isLeft == AscLog(lines, m, c, leftWord).value.isLeft
      && (r.value.entries == before || |r.value.entries| == |before| + 2)
    ensures var r := AscLog(lines + [line], m, c, leftWord);
      var before := AscLog(lines, m, c, leftWord).value.entries;
      |r.value.entries| == |before| + 2 ==>
        var l, rr := r.value.entries[|before|], r.value.entries[|before| + 1];
        l.Gaze? && l.etype == LGAZE && rr.Gaze? && rr.etype == RGAZE && l.time == rr.time
        && l.time == c.toTime(m.duo(line).value.time).value
  {
    assert (lines + [line])[..|lines|] == lines;
  }

  /**
   * The word of the latest line taken as a SAMPLES header: one that matches
   * sampleformat but neither the message nor the binocular expression.
   */
  function LatestFormat(lines: seq<string>, m: AscMatchers): Option<string>
  {
    if lines == [] then None
    else
      var line := lines[|lines| - 1];
      if m.msg(line).None? && m.duo(line).None? && m.sampleFormat(line).Some? then m.sampleFormat(line)
      else LatestFormat(lines[..|lines| - 1], m)
  }

  /** `isleft` holds exactly when the latest SAMPLES header's word, in any case, is `leftWord`; before any header it is false. */
  lemma {:induction false} AscIsLeft(lines: seq<string>, m: AscMatchers, c: Conversions, leftWord: string)
    requires AscLog(lines, m, c, leftWord).Ok?
    ensures AscLog(lines, m, c, leftWord).value.isLeft <==>
      LatestFormat(lines, m).Some? && ToLower(LatestFormat(lines, m).value) == leftWord
  {
    if lines != [] {
      AscIsLeft(lines[..|lines| - 1], m, c, leftWord);
    }
  }

  /**
   * A monocular sample, when no earlier expression matches, is a left gaze
   * exactly when the latest SAMPLES header's word is `leftWord` ("right" as
   * written), and a right gaze otherwise, also before any header.
   */
  lemma AscMonocularEye(lines: seq<string>, line: string, m: AscMatchers, c: Conversions, leftWord: string)
    requires AscLog(lines + [line], m, c, leftWord).Ok?
    requires m.msg(line).None? && m.duo(line).None? && m.sampleFormat(line).None? && m.mono(line).Some?
    ensures var all := AscLog(lines + [line], m, c, leftWord).value.entries;
      all != [] && all[|all| - 1].Gaze?
      && (all[|all| - 1].etype == LGAZE <==> LatestFormat(lines, m).Some? && ToLower(LatestFormat(lines, m).value) == leftWord)
      && (all[|all| - 1].etype == RGAZE <==> !(LatestFormat(lines, m).Some? && ToLower(LatestFormat(lines, m).value) == leftWord))
  {
    assert (lines + [line])[..|lines|] == lines;
    AscIsLeft(lines, m, c, leftWord);
  }

  /**
   * An end of fixation, when no earlier expression matches, adds a fixation
   * whose start, duration, x and y are groups 2, 4, 5 and 6 (the end time in
   * group 3 is not read), for eye R or L; another eye raises ValueError.
   */
  lemma AscEndFixation(lines: seq<string>, line: string, m: AscMatchers, c: Conversions, leftWord: string)
    requires AscLog(lines, m, c, leftWord).Ok?
    requires m.msg(line).None? && m.duo(line).None? && m.sampleFormat(line).None? && m.mono(line).None?
    requires m.endFix(line).Some?
    ensures var g := m.endFix(line).value;
      var r := AscLog(lines + [line], m, c, leftWord);
      var readable := c.toTime(g.start).Some? && c.toTime(g.duration).Some? && c.toNum(g.x).Some? && c.toNum(g.y).Some?;
      (r.Ok? <==> readable && (g.eye == "R" || g.eye == "L"))
      && (readable && g.eye != "R" && g.eye != "L" ==> r == Err(ValueError))
    ensures var g := m.endFix(line).value;
      var r := AscLog(lines + [line], m, c, leftWord);
      r.Ok? ==> (r.value.entries == AscLog(lines, m, c, leftWord).value.entries
        + [Fixation(if g.eye == "R" then RFIX else LFIX, c.toTime(g.start).value, c.toTime(g.duration).value,
                    c.toNum(g.x).value, c.toNum(g.y).value)])
  {
    assert (lines + [line])[..|lines|] == lines;
  }

  /** Whether extractAscLog raises, and the number of entries it finds, do not depend on the header word. */
  lemma {:induction false} AscOutcomeAnyWord(lines: seq<string>, m: AscMatchers, c: Conversions, w1: string, w2: string)
    ensures AscLog(lines, m, c, w1).Ok? <==> AscLog(lines, m, c, w2).Ok?
    ensures AscLog(lines, m, c, w1).Ok? ==>
      |AscLog(lines, m, c, w1).value.entries| == |AscLog(lines, m, c, w2).value.entries|
  {
    if lines != [] {
      AscOutcomeAnyWord(lines[..|lines| - 1], m, c, w1, w2);
    }
  }

  /**
   * The header word as written: after "SAMPLES GAZE LEFT ...", a monocular
   * sample becomes a right gaze, while the corrected reading makes it a
   * left gaze.
   */
  lemma LeftHeaderAsWrittenGivesRightGaze(lines: seq<string>, line: string, m: AscMatchers, c: Conversions)
    requires LatestFormat(lines, m).Some? && ToLower(LatestFormat(lines, m).value) == LEFT_WORD
    requires m.msg(line).None? && m.duo(line).None? && m.sampleFormat(line).None? && m.mono(line).Some?
    requires AscLog(lines + [line], m, c, AS_WRITTEN_LEFT_WORD).Ok?
    ensures var all := AscLog(lines + [line], m, c, AS_WRITTEN_LEFT_WORD).value.entries;
      all != [] && all[|all| - 1].Gaze? && all[|all| - 1].etype == RGAZE
    ensures AscLog(lines + [line], m, c, LEFT_WORD).Ok?
    ensures var all := AscLog(lines + [line], m, c, LEFT_WORD).value.entries;
      all != [] && all[|all| - 1].Gaze? && all[|all| - 1].etype == LGAZE
  {
    AscMonocularEye(lines, line, m, c, AS_WRITTEN_LEFT_WORD);
    AscOutcomeAnyWord(lines + [line], m, c, AS_WRITTEN_LEFT_WORD, LEFT_WORD);
    AscMonocularEye(lines, line, m, c, LEFT_WORD);
  }

  /** The errors parseEyeFile records: the .csv failure, the .asc failure and the final verdict. */
  datatype ParseError = CsvWarning(line: nat) | AscWarning(error: PyError) | Unparsable

  datatype ParseResult = ParseResult(entries: seq<LogEntry>, errors: seq<ParseError>)

  /**
   * One call of parseEyeFile on the lines of the file, with an error list of
   * its own: the .csv entries when there are any; otherwise the .asc
   * entries, with an error recorded for a .csv line that did not read, and
   * two more when the .asc reading raises or finds nothing.
   */
  function Fresh(lines: seq<string>, m: AscMatchers, c: Conversions, leftWord: string): ParseResult
  {
    var csv := CsvLog(lines, LineEntry(c));
    var errors := if csv.CsvFailure? then [CsvWarning(csv.line)] else [];
    if csv.CsvEntries? && csv.entries != [] then ParseResult(csv.entries, [])
    else
      var asc := AscLog(lines, m, c, leftWord);
      if asc.Err? then ParseResult([], errors + [AscWarning(asc.error), Unparsable])
      else if asc.value.entries == [] then ParseResult([], errors + [AscWarning(RuntimeError), Unparsable])
      else ParseResult(asc.value.entries, errors)
  }

  /**
   * parseEyeFile as written: ParseResult's default `errors=[]` is one list
   * that every ParseResult() shares, so the errors of the calls before,
   * `previous`, stay in front of this call's.
   */
  function Parsed(previous: seq<ParseError>, lines: seq<string>, m: AscMatchers, c: Conversions, leftWord: string): (pr: ParseResult)
    ensures |previous| <= |pr.errors| && pr.errors[..|previous|] == previous
  {
    var own := Fresh(lines, m, c, leftWord);
    ParseResult(own.entries, previous + own.errors)
  }

  /**
   * What one call finds: the non-empty .csv entries, else the .asc entries;
   * a .csv warning first when a .csv line failed; and no entries exactly
   * when its errors end with "unable to parse".
   */
  lemma FreshFacts(lines: seq<string>, m: AscMatchers, c: Conversions, leftWord: string)
    ensures var pr, csv := Fresh(lines, m, c, leftWord), CsvLog(lines, LineEntry(c));
      && (csv.CsvEntries? && csv.entries != [] ==> pr == ParseResult(csv.entries, []))
      && (!(csv.CsvEntries? && csv.entries != []) ==>
            && pr.entries == (if AscLog(lines, m, c, leftWord).Ok? then AscLog(lines, m, c, leftWord).value.entries else [])
            && (csv.CsvFailure? ==> |pr.errors| > 0 && pr.errors[0] == CsvWarning(csv.line))
            && (csv.CsvEntries? ==> forall e :: e in pr.errors ==> !e.CsvWarning?))
      && (pr.entries == [] <==> |pr.errors| > 0 && pr.errors[|pr.errors| - 1] == Unparsable)
  {
  }

  /**
   * The shared list in action: after a file that did not parse, a file that
   * parses as .csv still reports the earlier "unable to parse" as its last
   * error, although it has entries.
   */
  lemma SharedErrorsOutliveSuccess(bad: seq<string>, good: seq<string>, m: AscMatchers, c: Conversions, leftWord: string)
    requires Parsed([], bad, m, c, leftWord).entries == []
    requires CsvLog(good, LineEntry(c)).CsvEntries? && CsvLog(good, LineEntry(c)).entries != []
    ensures var second := Parsed(Parsed([], bad, m, c, leftWord).errors, good, m, c, leftWord);
      && second.entries != []
      && |second.errors| > 0 && second.errors[|second.errors| - 1] == Unparsable
  {
    FreshFacts(bad, m, c, leftWord);
    var first := Parsed([], bad, m, c, leftWord);
    assert first.errors == Fresh(bad, m, c, leftWord).errors;
  }

  /** parseEyeFile as written, with the shared error list passed in and out. */
  method ParseLines(previous: seq<ParseError>, lines: seq<string>, m: AscMatchers, c: Conversions, leftWord: string) returns (pr: ParseResult)
    ensures pr == Parsed(previous, lines, m, c, leftWord)
  {
    var errors := previous;
    var csv := ExtractCsvLog(lines, c);
    if csv.CsvFailure? {
      errors := errors + [CsvWarning(csv.line)];
    }
    if csv.CsvEntries? && csv.entries != [] {
      return ParseResult(csv.entries, previous);
    }
    var asc := ExtractAscLog(lines, m, c, leftWord);
    if asc.Err? {
      return ParseResult([], errors + [AscWarning(asc.error), Unparsable]);
    }
    if asc.value == [] {
      return ParseResult([], errors + [AscWarning(RuntimeError), Unparsable]);
    }
    return ParseResult(asc.value, errors);
  }

  /**
   * parseEyeFile as intended: a fresh error list per call, so the errors
   * are this file's only and there are no entries exactly when the last of
   * them is "unable to parse"; and a SAMPLES header naming the left eye
   * makes the monocular samples after it left gazes.
   */
  method ParseEyeFile(lines: seq<string>, m: AscMatchers, c: Conversions) returns (pr: ParseResult)
    ensures var csv := CsvLog(lines, LineEntry(c));
      csv.CsvEntries? && csv.entries != [] ==> pr == ParseResult(csv.entries, [])
    ensures var csv := CsvLog(lines, LineEntry(c));
      var asc := AscLog(lines, m, c, LEFT_WORD);
      !(csv.CsvEntries? && csv.entries != []) ==>
        && pr.entries == (if asc.Ok? then asc.value.entries else [])
        && (csv.CsvFailure? ==> |pr.errors| > 0 && pr.errors[0] == CsvWarning(csv.line))
        && (csv.CsvEntries? ==> forall e :: e in pr.errors ==> !e.CsvWarning?)
    ensures pr.entries == [] <==> |pr.errors| > 0 && pr.errors[|pr.errors| - 1] == Unparsable
  {
    pr := ParseLines([], lines, m, c, LEFT_WORD);
    FreshFacts(lines, m, c, LEFT_WORD);
    assert pr == Fresh(lines, m, c, LEFT_WORD);
  }
}
