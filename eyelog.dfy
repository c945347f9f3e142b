// Log entries of an eye-tracking session and their conversion to the
// Eyelink ".asc" text that the external "Fixation" tool reads.

module EyeLog {
  import opened Base
  import opened Num
  import opened Text

  datatype EntryType =
    | LGAZE | RGAZE | LFIX | RFIX | STIMULUS | MESSAGE | LSAC | RSAC
    | ASCGAZE | FIXENDL | FIXENDR | SACCENDL | SACCENDR | BEGIN | END
    | LBLINK | RBLINK | AVGFIX | AVGSAC

  /** Which eyes the begin marker of a Fixation-compatible log announces. */
  const LEFT: int := 1
  const RIGHT: int := 2
  const BINO: int := 3

  const SEP: string := "\t"

  /**
   * One entry. Times are eye-tracker milliseconds, modelled as whole numbers;
   * coordinates and pupil sizes may be gaps (NaN).
   */
  datatype LogEntry =
    | Gaze(etype: EntryType, time: int, x: Num, y: Num, pupil: Num)
    | Fixation(etype: EntryType, time: int, duration: int, x: Num, y: Num)
    | Saccade(etype: EntryType, time: int, duration: int, xstart: Num, ystart: Num, xend: Num, yend: Num)
    | Blink(etype: EntryType, time: int, blinkDuration: Num)
    | Message(time: int, text: string)
    | AscGaze(time: int, lgaze: Option<LogEntry>, rgaze: Option<LogEntry>)
    | FixationEnd(etype: EntryType, time: int, fixation: LogEntry)
    | SaccadeEnd(etype: EntryType, time: int, saccade: LogEntry)
    | Start(time: int, eye: int)
    | End(time: int)

  function TypeOf(e: LogEntry): EntryType
  {
    match e
    case Message(_, _) => MESSAGE
    case AscGaze(_, _, _) => ASCGAZE
    case Start(_, _) => BEGIN
    case End(_) => END
    case _ => e.etype
  }

  predicate IsLGaze(e: LogEntry) { TypeOf(e) == LGAZE }
  predicate IsRGaze(e: LogEntry) { TypeOf(e) == RGAZE }
  predicate IsGaze(e: LogEntry) { IsLGaze(e) || IsRGaze(e) }
  predicate IsFixation(e: LogEntry) { TypeOf(e) == LFIX || TypeOf(e) == RFIX }
  predicate IsSaccade(e: LogEntry) { TypeOf(e) == LSAC || TypeOf(e) == RSAC }
  predicate IsMessage(e: LogEntry) { TypeOf(e) == MESSAGE }

  /** LogEntry.removeEyeEvents: drops fixations and saccades, keeps the rest in order. */
  function RemoveEyeEvents(entries: seq<LogEntry>): (r: seq<LogEntry>)
    ensures forall e :: e in r <==> e in entries && !IsFixation(e) && !IsSaccade(e)
    ensures forall e :: e in entries ==> multiset(r)[e] == if !IsFixation(e) && !IsSaccade(e) then multiset(entries)[e] else 0
  {
    FilterCount(entries, e => !(IsFixation(e) || IsSaccade(e)));
    Filter(entries, e => !(IsFixation(e) || IsSaccade(e)))
  }

  /** LogEntry.removeLeftGaze */
  function RemoveLeftGaze(entries: seq<LogEntry>): (r: seq<LogEntry>)
    ensures forall e :: e in r <==> e in entries && TypeOf(e) != LGAZE
    ensures forall e :: e in entries ==> multiset(r)[e] == if TypeOf(e) != LGAZE then multiset(entries)[e] else 0
  {
    FilterCount(entries, e => TypeOf(e) != LGAZE);
    Filter(entries, e => TypeOf(e) != LGAZE)
  }

  /** LogEntry.removeRightGaze */
  function RemoveRightGaze(entries: seq<LogEntry>): (r: seq<LogEntry>)
    ensures forall e :: e in r <==> e in entries && TypeOf(e) != RGAZE
    ensures forall e :: e in entries ==> multiset(r)[e] == if TypeOf(e) != RGAZE then multiset(entries)[e] else 0
  {
    FilterCount(entries, e => TypeOf(e) != RGAZE);
    Filter(entries, e => TypeOf(e) != RGAZE)
  }

  // ---------------------------------------------------------------------
  // Entries built from other entries (the constructors that may raise)

  /** AscGazeEntry(lgaze, rgaze): one sample line carrying both eyes. */
  function MakeAscGaze(l: Option<LogEntry>, r: Option<LogEntry>): (res: Result<LogEntry>)
    ensures res.Ok? <==> l.Some? || r.Some?
    ensures res.Ok? ==> res.value.AscGaze? && res.value.lgaze == l && res.value.rgaze == r
    ensures res.Ok? ==> res.value.time == (if l.Some? then l.value.time else r.value.time)
  {
    if l.Some? then Ok(AscGaze(l.value.time, l, r))
    else if r.Some? then Ok(AscGaze(r.value.time, l, r))
    else Err(ValueError)
  }

  /** FixationEndEntry(fix): an end marker at start + duration. */
  function MakeFixationEnd(fix: LogEntry): (res: Result<LogEntry>)
    ensures res.Ok? <==> fix.Fixation? && (fix.etype == LFIX || fix.etype == RFIX)
    ensures res.Ok? ==> res.value.FixationEnd? && res.value.time == fix.time + fix.duration && res.value.fixation == fix
    ensures res.Ok? ==> (TypeOf(res.value) == FIXENDL <==> fix.etype == LFIX)
  {
    if !fix.Fixation? then Err(AttributeError)
    else if fix.etype == LFIX then Ok(FixationEnd(FIXENDL, fix.time + fix.duration, fix))
    else if fix.etype == RFIX then Ok(FixationEnd(FIXENDR, fix.time + fix.duration, fix))
    else Err(ValueError)
  }

  /** SaccadeEndEntry(sac): an end marker at start + duration. */
  function MakeSaccadeEnd(sac: LogEntry): (res: Result<LogEntry>)
    ensures res.Ok? <==> sac.Saccade? && (sac.etype == LSAC || sac.etype == RSAC)
    ensures res.Ok? ==> res.value.SaccadeEnd? && res.value.time == sac.time + sac.duration && res.value.saccade == sac
    ensures res.Ok? ==> (TypeOf(res.value) == SACCENDL <==> sac.etype == LSAC)
  {
    if !sac.Saccade? then Err(AttributeError)
    else if sac.etype == RSAC then Ok(SaccadeEnd(SACCENDR, sac.time + sac.duration, sac))
    else if sac.etype == LSAC then Ok(SaccadeEnd(SACCENDL, sac.time + sac.duration, sac))
    else Err(ValueError)
  }

  // ---------------------------------------------------------------------
  // toAsc: the text of one entry in the .asc format

  function GazeColumns(o: Option<LogEntry>, show: Num -> string): Result<string>
  {
    if o.None? then Ok("")
    else if !o.value.Gaze? then Err(AttributeError)
    else Ok(SEP + show(o.value.x) + SEP + show(o.value.y) + SEP + show(o.value.pupil))
  }

  /** The eyes a begin marker names, in order. */
  function EyeNames(eye: int): seq<string>
  {
    if eye == LEFT then ["LEFT"] else if eye == RIGHT then ["RIGHT"] else if eye == BINO then ["LEFT", "RIGHT"] else []
  }

  /** The first line of StartEntry.toAsc() exactly as the source builds it. */
  function StartHeaderAsWritten(time: int, eye: int): string
  {
    var start := "START" + SEP + IntToString(time) + SEP;
    if eye == LEFT then start + "LEFT" + SEP + Join(SEP, ["SAMPLES", "EVENTS"])
    else if eye == RIGHT then start + "RIGHT" + SEP + Join(SEP, ["SAMPLES", "EVENTS"])
    else start + Join(SEP, ["LEFT", "RIGHT"]) + Join(SEP, ["SAMPLES", "EVENTS"])
  }

  /** The first line of StartEntry.toAsc() with the separator the binocular branch lacks. */
  function StartHeader(time: int, eye: int): string
  {
    var start := "START" + SEP + IntToString(time) + SEP;
    if eye == LEFT then start + "LEFT" + SEP + Join(SEP, ["SAMPLES", "EVENTS"])
    else if eye == RIGHT then start + "RIGHT" + SEP + Join(SEP, ["SAMPLES", "EVENTS"])
    else start + Join(SEP, ["LEFT", "RIGHT"]) + SEP + Join(SEP, ["SAMPLES", "EVENTS"])
  }

  lemma JoinSnoc(sep: string, parts: seq<string>, x: string)
    requires parts != []
    ensures Join(sep, parts + [x]) == Join(sep, parts) + sep + x
  {
    assert (parts + [x])[..|parts|] == parts;
  }

  lemma JoinPair(sep: string, a: string, b: string)
    ensures Join(sep, [a, b]) == a + sep + b
  {
    JoinSnoc(sep, [a], b);
    assert [a] + [b] == [a, b];
  }

  /** Every begin header is the tab-separated fields START, time, the eyes, SAMPLES, EVENTS. */
  lemma StartHeaderFields(time: int, eye: int)
    requires eye == LEFT || eye == RIGHT || eye == BINO
    ensures StartHeader(time, eye) == Join(SEP, ["START", IntToString(time)] + EyeNames(eye) + ["SAMPLES", "EVENTS"])
  {
    var t := IntToString(time);
    JoinPair(SEP, "START", t);
    JoinPair(SEP, "SAMPLES", "EVENTS");
    JoinPair(SEP, "LEFT", "RIGHT");
    var names := EyeNames(eye);
    var p2 := ["START", t];
    var p3 := if eye == BINO then p2 + ["LEFT"] else p2 + names;
    JoinSnoc(SEP, p2, p3[2]);
    var p4 := if eye == BINO then p3 + ["RIGHT"] else p3;
    if eye == BINO {
      JoinSnoc(SEP, p3, "RIGHT");
    }
    JoinSnoc(SEP, p4, "SAMPLES");
    JoinSnoc(SEP, p4 + ["SAMPLES"], "EVENTS");
    assert p4 + ["SAMPLES"] + ["EVENTS"] == ["START", t] + names + ["SAMPLES", "EVENTS"];
  }

  /**
   * As written, the binocular header glues RIGHT to SAMPLES, where the
   * corrected header keeps them apart.
   */
  lemma BinoHeaderAsWrittenMissesSeparator(time: int)
    ensures StartHeaderAsWritten(time, BINO)
      == "START" + SEP + IntToString(time) + SEP + "LEFT" + SEP + "RIGHT" + "SAMPLES" + SEP + "EVENTS"
    ensures StartHeader(time, BINO)
      == "START" + SEP + IntToString(time) + SEP + "LEFT" + SEP + "RIGHT" + SEP + "SAMPLES" + SEP + "EVENTS"
  {
    JoinPair(SEP, "SAMPLES", "EVENTS");
    JoinPair(SEP, "LEFT", "RIGHT");
  }

  /** The as-written header has the field layout for one eye, but not for both. */
  lemma StartHeaderAsWrittenFields(time: int, eye: int)
    requires eye == LEFT || eye == RIGHT || eye == BINO
    ensures StartHeaderAsWritten(time, eye) == Join(SEP, ["START", IntToString(time)] + EyeNames(eye) + ["SAMPLES", "EVENTS"])
      <==> eye != BINO
  {
    StartHeaderFields(time, eye);
    if eye == BINO {
      BinoHeaderAsWrittenMissesSeparator(time);
      assert |StartHeaderAsWritten(time, eye)| < |StartHeader(time, eye)|;
    }
  }

  function StartLines(time: int, eye: int): Result<string>
  {
    var postfix := Join(SEP, ["TRACKING", "CR", "FILTER", "2"]);
    var samples := "SAMPLES" + SEP + "GAZE" + SEP;
    var events := "EVENTS" + SEP + "GAZE" + SEP;
    if eye == LEFT || eye == RIGHT || eye == BINO then
      Ok(Join("\r\n", [StartHeader(time, eye),
                       events + Join(SEP, EyeNames(eye) + ["RATE", "250", postfix]),
                       samples + Join(SEP, EyeNames(eye) + ["HTARGET", "RATE", "250", postfix])]))
    else Err(ValueError)
  }

  /**
   * entry.toAsc(): `show` renders a float as Python's str() does. Raw gaze
   * samples refuse to be written; blinks are not part of the format.
   */
  function ToAsc(e: LogEntry, show: Num -> string): (r: Result<string>)
    ensures e.Gaze? || e.Blink? ==> r.Err?
    ensures e.Message? || e.End? || e.Fixation? ==> r.Ok?
    ensures e.Saccade? ==> (r.Ok? <==> e.etype == LSAC || e.etype == RSAC)
    ensures e.Start? ==> (r.Ok? <==> e.eye in {LEFT, RIGHT, BINO})
  {
    match e
    case Gaze(_, _, _, _, _) => Err(ValueError)
    case Blink(_, _, _) => Err(ValueError)
    case AscGaze(t, l, rg) =>
      var lc := GazeColumns(l, show);
      var rc := GazeColumns(rg, show);
      if lc.Err? then Err(lc.error) else if rc.Err? then Err(rc.error)
      else Ok(IntToString(t) + lc.value + rc.value)
    case Fixation(et, t, _, _, _) =>
      Ok((if et == LFIX then "SFIX\tL\t" else "SFIX\tR\t") + IntToString(t))
    case FixationEnd(et, t, fix) =>
      if et != FIXENDL && et != FIXENDR then Err(ValueError)
      else if !fix.Fixation? then Err(AttributeError)
      else
        Ok((if et == FIXENDL then "EFIX\tL" else "EFIX\tR")
           + SEP + IntToString(fix.time) + SEP + IntToString(t)
           + SEP + IntToString(fix.duration) + SEP + show(fix.x) + SEP + show(fix.y)
           + SEP + IntToString(fix.duration))
    case Message(t, msg) => Ok("MSG\t" + IntToString(t) + "\t" + msg)
    case Saccade(et, t, _, _, _, _, _) =>
      if et == RSAC then Ok("SSAC" + SEP + "R" + SEP + IntToString(t))
      else if et == LSAC then Ok("SSAC" + SEP + "L" + SEP + IntToString(t))
      else Err(ValueError)
    case SaccadeEnd(et, t, sac) =>
      if et != SACCENDR && et != SACCENDL then Err(ValueError)
      else if !sac.Saccade? then Err(AttributeError)
      else
        Ok("ESAC" + SEP + (if et == SACCENDR then "R" else "L") + SEP
           + IntToString(sac.time) + SEP + IntToString(t) + SEP
           + IntToString(sac.duration) + SEP
           + show(sac.xstart) + SEP + show(sac.ystart) + SEP
           + show(sac.xend) + SEP + show(sac.yend) + SEP
           + IntToString(sac.duration) + SEP)
    case Start(t, eye) => StartLines(t, eye)
    case End(t) => Ok("END" + SEP + IntToString(t) + SEP + "SAMPLES" + SEP + "RES")
  }

  // ---------------------------------------------------------------------
  // SortFixationLog: order by time, then by the rank of the entry type

  /** The tie-breaking rank of an entry type; None for types the table lacks. */
  function Rank(t: EntryType): Option<int>
  {
    match t
    case END => Some(0)
    case MESSAGE => Some(1)
    case LFIX => Some(2)
    case RFIX => Some(3)
    case LSAC => Some(4)
    case RSAC => Some(5)
    case ASCGAZE => Some(6)
    case FIXENDR => Some(7)
    case FIXENDL => Some(8)
    case SACCENDR => Some(9)
    case SACCENDL => Some(10)
    case BEGIN => Some(11)
    case _ => None
  }

  predicate Ranked(e: LogEntry) { Rank(TypeOf(e)).Some? }

  /**
   * The comparison callback: negative, zero or positive. Equal times with a
   * type missing from the rank table compare as equal (the KeyError is caught).
   */
  function Compare(a: LogEntry, b: LogEntry): int
  {
    if a.time < b.time then -1
    else if a.time > b.time then 1
    else if Ranked(a) && Ranked(b) then Rank(TypeOf(a)).value - Rank(TypeOf(b)).value
    else 0
  }

  /** The order the log is meant to have: by time, then by rank. */
  predicate InOrder(a: LogEntry, b: LogEntry)
    requires Ranked(a) && Ranked(b)
  {
    a.time < b.time || (a.time == b.time && Rank(TypeOf(a)).value <= Rank(TypeOf(b)).value)
  }

  predicate AllRanked(s: seq<LogEntry>) { forall i :: 0 <= i < |s| ==> Ranked(s[i]) }

  predicate Sorted(s: seq<LogEntry>)
    requires AllRanked(s)
  {
    forall i, j :: 0 <= i < j < |s| ==> InOrder(s[i], s[j])
  }

  /** Inserts `x` after every element that does not compare greater than it. */
  function Insert(x: LogEntry, s: seq<LogEntry>): (r: seq<LogEntry>)
    ensures multiset(r) == multiset(s) + multiset{x}
  {
    if s == [] then [x]
    else
      assert s == s[..|s| - 1] + [s[|s| - 1]];
      if Compare(x, s[|s| - 1]) < 0 then Insert(x, s[..|s| - 1]) + [s[|s| - 1]]
      else s + [x]
  }

  /** list.sort(SortFixationLog()), as a stable insertion sort. */
  function SortLog(s: seq<LogEntry>): (r: seq<LogEntry>)
    ensures multiset(r) == multiset(s)
  {
    if s == [] then []
    else
      assert s == s[..|s| - 1] + [s[|s| - 1]];
      Insert(s[|s| - 1], SortLog(s[..|s| - 1]))
  }

  lemma CompareDecides(a: LogEntry, b: LogEntry)
    requires Ranked(a) && Ranked(b)
    ensures Compare(a, b) < 0 ==> InOrder(a, b)
    ensures Compare(a, b) >= 0 ==> InOrder(b, a)
  {
  }

  lemma InOrderTransitive(a: LogEntry, b: LogEntry, c: LogEntry)
    requires Ranked(a) && Ranked(b) && Ranked(c)
    requires InOrder(a, b) && InOrder(b, c)
    ensures InOrder(a, c)
  {
  }

  lemma {:induction false} InsertSorted(x: LogEntry, s: seq<LogEntry>)
    requires Ranked(x) && AllRanked(s) && Sorted(s)
    ensures AllRanked(Insert(x, s)) && Sorted(Insert(x, s))
  {
    if s == [] {
      return;
    }
    var init, last := s[..|s| - 1], s[|s| - 1];
    var r := Insert(x, s);
    CompareDecides(x, last);
    if Compare(x, last) < 0 {
      assert AllRanked(init) && Sorted(init);
      InsertSorted(x, init);
      var ri := Insert(x, init);
      assert r == ri + [last];
      forall i | 0 <= i < |ri| ensures InOrder(ri[i], last) {
        assert ri[i] in multiset(ri);
        if ri[i] != x {
          assert ri[i] in init;
        }
      }
    } else {
      assert r == s + [x];
      forall i | 0 <= i < |s| ensures InOrder(s[i], x) {
        if i < |s| - 1 {
          InOrderTransitive(s[i], last, x);
        }
      }
    }
  }

  /** Sorting entries whose types all have a rank leaves them ordered by time, then rank. */
  lemma {:induction false} SortLogSorted(s: seq<LogEntry>)
    requires AllRanked(s)
    ensures AllRanked(SortLog(s)) && Sorted(SortLog(s))
  {
    if s != [] {
      SortLogSorted(s[..|s| - 1]);
      InsertSorted(s[|s| - 1], SortLog(s[..|s| - 1]));
    }
  }

  // ---------------------------------------------------------------------
  // Trial begin / end markers: ^trialbeg\s+\d+\s+\d+\s+\d+\s+([a-zA-Z]+)$

  /** What follows a non-empty run of characters satisfying `p`, if `s` starts with one. */
  function SkipRun(s: string, p: char -> bool): (r: Option<string>)
    ensures r.Some? ==> |r.value| < |s|
  {
    var k := RunLength(s, p);
    if k == 0 then None else Some(s[k..])
  }

  /**
   * The group of the marker pattern for `keyword`, when `msg` matches it.
   * The character classes follow one another without overlap, so the greedy
   * reading below is the only way the pattern can match. `$` also matches
   * before a final line feed.
   */
  function MarkerWord(msg: string, keyword: string): (w: Option<string>)
    ensures w.Some? ==> w.value != [] && forall i :: 0 <= i < |w.value| ==> IsAsciiLetter(w.value[i])
  {
    if |msg| < |keyword| || msg[..|keyword|] != keyword then None
    else
      var s1 := SkipRun(msg[|keyword|..], IsSpace);
      if s1.None? then None else
      var s2 := SkipRun(s1.value, IsDigit);
      if s2.None? then None else
      var s3 := SkipRun(s2.value, IsSpace);
      if s3.None? then None else
      var s4 := SkipRun(s3.value, IsDigit);
      if s4.None? then None else
      var s5 := SkipRun(s4.value, IsSpace);
      if s5.None? then None else
      var s6 := SkipRun(s5.value, IsDigit);
      if s6.None? then None else
      var s7 := SkipRun(s6.value, IsSpace);
      if s7.None? then None else
      var k := RunLength(s7.value, IsAsciiLetter);
      if k > 0 && (s7.value[k..] == "" || s7.value[k..] == "\n") then Some(s7.value[..k]) else None
  }

  /** FilterTrialBegin / FilterTrialEnd: a matching marker whose condition is not "FILL". */
  predicate IsMarker(e: LogEntry, keyword: string)
  {
    e.Message? && var w := MarkerWord(e.text, keyword); w.Some? && w.value != "FILL"
  }

  // ---------------------------------------------------------------------
  // saveForFixation, step by step

  /** One FixationEndEntry per fixation, in order. */
  function FixationEnds(s: seq<LogEntry>): (r: Result<seq<LogEntry>>)
    ensures r.Ok? <==> forall i :: 0 <= i < |s| && IsFixation(s[i]) ==> MakeFixationEnd(s[i]).Ok?
    ensures r.Ok? ==> |r.value| == |Filter(s, IsFixation)|
    ensures r.Ok? ==> forall i :: 0 <= i < |r.value| ==> Some(r.value[i]) == Ok2Option(MakeFixationEnd(Filter(s, IsFixation)[i]))
  {
    if s == [] then Ok([])
    else
      var init := FixationEnds(s[..|s| - 1]);
      var e := s[|s| - 1];
      if init.Err? then init
      else if !IsFixation(e) then init
      else
        var end := MakeFixationEnd(e);
        if end.Err? then Err(end.error) else Ok(init.value + [end.value])
  }

  /** One SaccadeEndEntry per saccade, in order. */
  function SaccadeEnds(s: seq<LogEntry>): (r: Result<seq<LogEntry>>)
    ensures r.Ok? <==> forall i :: 0 <= i < |s| && IsSaccade(s[i]) ==> MakeSaccadeEnd(s[i]).Ok?
    ensures r.Ok? ==> |r.value| == |Filter(s, IsSaccade)|
    ensures r.Ok? ==> forall i :: 0 <= i < |r.value| ==> Some(r.value[i]) == Ok2Option(MakeSaccadeEnd(Filter(s, IsSaccade)[i]))
  {
    if s == [] then Ok([])
    else
      var init := SaccadeEnds(s[..|s| - 1]);
      var e := s[|s| - 1];
      if init.Err? then init
      else if !IsSaccade(e) then init
      else
        var end := MakeSaccadeEnd(e);
        if end.Err? then Err(end.error) else Ok(init.value + [end.value])
  }

  function Ok2Option<T>(r: Result<T>): Option<T>
  {
    if r.Ok? then Some(r.value) else None
  }

  function Max(a: int, b: int): int { if a < b then b else a }

  function At(s: seq<LogEntry>, i: nat): (o: Option<LogEntry>)
  {
    if i < |s| then Some(s[i]) else None
  }

  /** izip_longest(left samples, right samples), one AscGazeEntry per pair. */
  function AscGazes(ls: seq<LogEntry>, rs: seq<LogEntry>): (r: seq<LogEntry>)
    ensures |r| == Max(|ls|, |rs|)
    ensures forall i :: 0 <= i < |r| ==> r[i].AscGaze? && r[i].lgaze == At(ls, i) && r[i].rgaze == At(rs, i)
  {
    seq(Max(|ls|, |rs|), i requires 0 <= i < Max(|ls|, |rs|) => MakeAscGaze(At(ls, i), At(rs, i)).value)
  }

  /** The last AscGazeEntry of `s`, if any. */
  function LastAscGaze(s: seq<LogEntry>): (r: Option<LogEntry>)
    ensures r.Some? ==> r.value in s && r.value.AscGaze?
    ensures r.None? <==> forall i :: 0 <= i < |s| ==> !s[i].AscGaze?
  {
    if s == [] then None
    else if s[|s| - 1].AscGaze? then Some(s[|s| - 1])
    else LastAscGaze(s[..|s| - 1])
  }

  /** The eye type the begin markers announce: decided by the last AscGazeEntry, LEFT without one. */
  function EyeType(s: seq<LogEntry>): Result<int>
  {
    var last := LastAscGaze(s);
    if last.None? then Ok(LEFT)
    else if last.value.lgaze.Some? && last.value.rgaze.Some? then Ok(BINO)
    else if last.value.lgaze.Some? then Ok(LEFT)
    else if last.value.rgaze.Some? then Ok(RIGHT)
    else Err(ValueError)
  }

  /** _appendBeginEndEntries: a StartEntry per begin marker, then an EndEntry per end marker. */
  function BeginEnds(s: seq<LogEntry>, eye: int): (r: seq<LogEntry>)
    ensures forall i :: 0 <= i < |r| ==> r[i].Start? || r[i].End?
  {
    var messages := Filter(s, IsMessage);
    var begins := Filter(messages, e => IsMarker(e, "trialbeg"));
    var ends := Filter(messages, e => IsMarker(e, "trialend"));
    Map(begins, (e: LogEntry) => Start(e.time, eye)) + Map(ends, (e: LogEntry) => End(e.time))
  }

  /** The .asc lines of `s`, each closed by "\r\n". */
  function AscLines(s: seq<LogEntry>, show: Num -> string): (r: Result<seq<string>>)
    ensures r.Ok? ==> |r.value| == |s|
  {
    if s == [] then Ok([])
    else
      var init := AscLines(s[..|s| - 1], show);
      var line := ToAsc(s[|s| - 1], show);
      if init.Err? then init
      else if line.Err? then Err(line.error)
      else Ok(init.value + [line.value + "\r\n"])
  }

  /** The entries saveForFixation sorts: the input, end events, both-eye samples and markers, without raw gaze. */
  function FixationEntries(entries: seq<LogEntry>): Result<seq<LogEntry>>
  {
    var fe := FixationEnds(entries);
    var se := SaccadeEnds(entries);
    if fe.Err? then Err(fe.error)
    else if se.Err? then Err(se.error)
    else
      var withEnds := entries + fe.value + se.value;
      var withGaze := withEnds + AscGazes(Filter(withEnds, IsLGaze), Filter(withEnds, IsRGaze));
      var eye := EyeType(withGaze);
      if eye.Err? then Err(eye.error)
      else Ok(Filter(withGaze + BeginEnds(withGaze, eye.value), e => !IsGaze(e)))
  }

  /** The text saveForFixation writes, line by line. */
  function FixationLog(entries: seq<LogEntry>, show: Num -> string): Result<seq<string>>
  {
    var kept := FixationEntries(entries);
    if kept.Err? then Err(kept.error) else AscLines(SortLog(kept.value), show)
  }

  /**
   * saveForFixation(entries, filename) without the file: the lines it writes.
   * `show` renders a float as str() does.
   */
  method SaveForFixation(entries: seq<LogEntry>, show: Num -> string) returns (lines: Result<seq<string>>)
    ensures lines == FixationLog(entries, show)
  {
    var endFixations := CollectFixationEnds(entries);
    if endFixations.Err? {
      return Err(endFixations.error);
    }
    var endSaccades := CollectSaccadeEnds(entries);
    if endSaccades.Err? {
      return Err(endSaccades.error);
    }
    var all := entries + endFixations.value + endSaccades.value;
    var pairs := PairSamples(Filter(all, IsLGaze), Filter(all, IsRGaze));
    all := all + pairs;
    var eye := FindEyeType(all);
    if eye.Err? {
      return Err(eye.error);
    }
    all := all + BeginEnds(all, eye.value);
    lines := Render(SortLog(Filter(all, e => !IsGaze(e))), show);
  }

  /** The loop creating a FixationEndEntry per fixation. */
  method CollectFixationEnds(entries: seq<LogEntry>) returns (r: Result<seq<LogEntry>>)
    ensures r == FixationEnds(entries)
  {
    var ends: seq<LogEntry> := [];
    for i := 0 to |entries|
      invariant FixationEnds(entries[..i]) == Ok(ends)
    {
      FixationEndsStep(entries, i);
      if IsFixation(entries[i]) {
        var end := MakeFixationEnd(entries[i]);
        if end.Err? {
          ErrorSticksFix(entries, i + 1);
          return Err(end.error);
        }
        ends := ends + [end.value];
      }
    }
    assert entries[..|entries|] == entries;
    r := Ok(ends);
  }

  /** The loop creating a SaccadeEndEntry per saccade. */
  method CollectSaccadeEnds(entries: seq<LogEntry>) returns (r: Result<seq<LogEntry>>)
    ensures r == SaccadeEnds(entries)
  {
    var ends: seq<LogEntry> := [];
    for i := 0 to |entries|
      invariant SaccadeEnds(entries[..i]) == Ok(ends)
    {
      SaccadeEndsStep(entries, i);
      if IsSaccade(entries[i]) {
        var end := MakeSaccadeEnd(entries[i]);
        if end.Err? {
          ErrorSticksSac(entries, i + 1);
          return Err(end.error);
        }
        ends := ends + [end.value];
      }
    }
    assert entries[..|entries|] == entries;
    r := Ok(ends);
  }

  /** The izip_longest loop pairing left and right samples. */
  method PairSamples(ls: seq<LogEntry>, rs: seq<LogEntry>) returns (pairs: seq<LogEntry>)
    ensures pairs == AscGazes(ls, rs)
  {
    pairs := [];
    for i := 0 to Max(|ls|, |rs|)
      invariant pairs == AscGazes(ls, rs)[..i]
    {
      var pair := MakeAscGaze(At(ls, i), At(rs, i));
      pairs := pairs + [pair.value];
    }
  }

  /** The loop over the reversed entries that stops at the last AscGazeEntry. */
  method FindEyeType(all: seq<LogEntry>) returns (eye: Result<int>)
    ensures eye == EyeType(all)
  {
    var k := |all|;
    assert all[..k] == all;
    while k > 0
      invariant 0 <= k <= |all|
      invariant LastAscGaze(all) == LastAscGaze(all[..k])
    {
      var e := all[k - 1];
      assert all[..k][..k - 1] == all[..k - 1];
      if e.AscGaze? {
        if e.lgaze.Some? && e.rgaze.Some? {
          return Ok(BINO);
        } else if e.lgaze.Some? {
          return Ok(LEFT);
        } else if e.rgaze.Some? {
          return Ok(RIGHT);
        } else {
          return Err(ValueError);
        }
      }
      k := k - 1;
    }
    eye := Ok(LEFT);
  }

  /** The loop writing entry.toAsc() + "\r\n" for every entry. */
  method Render(sorted: seq<LogEntry>, show: Num -> string) returns (lines: Result<seq<string>>)
    ensures lines == AscLines(sorted, show)
  {
    var out: seq<string> := [];
    for i := 0 to |sorted|
      invariant AscLines(sorted[..i], show) == Ok(out)
    {
      assert sorted[..i + 1][..i] == sorted[..i];
      var line := ToAsc(sorted[i], show);
      if line.Err? {
        LinesErrorSticks(sorted, i + 1, show);
        return Err(line.error);
      }
      out := out + [line.value + "\r\n"];
    }
    assert sorted[..|sorted|] == sorted;
    lines := Ok(out);
  }

  /** One more entry extends the ends of the prefix before it. */
  lemma FixationEndsStep(s: seq<LogEntry>, i: nat)
    requires i < |s| && FixationEnds(s[..i]).Ok?
    ensures !IsFixation(s[i]) ==> FixationEnds(s[..i + 1]) == FixationEnds(s[..i])
    ensures IsFixation(s[i]) && MakeFixationEnd(s[i]).Err? ==> FixationEnds(s[..i + 1]) == Err(MakeFixationEnd(s[i]).error)
    ensures IsFixation(s[i]) && MakeFixationEnd(s[i]).Ok? ==> FixationEnds(s[..i + 1]) == Ok(FixationEnds(s[..i]).value + [MakeFixationEnd(s[i]).value])
  {
    assert s[..i + 1][..i] == s[..i];
  }

  lemma {:induction false} ErrorSticksFix(s: seq<LogEntry>, i: nat)
    requires i <= |s| && FixationEnds(s[..i]).Err?
    ensures FixationEnds(s) == FixationEnds(s[..i])
    decreases |s| - i
  {
    if i < |s| {
      assert s[..i + 1][..i] == s[..i];
      ErrorSticksFix(s, i + 1);
    } else {
      assert s[..i] == s;
    }
  }

  /** One more entry extends the ends of the prefix before it. */
  lemma SaccadeEndsStep(s: seq<LogEntry>, i: nat)
    requires i < |s| && SaccadeEnds(s[..i]).Ok?
    ensures !IsSaccade(s[i]) ==> SaccadeEnds(s[..i + 1]) == SaccadeEnds(s[..i])
    ensures IsSaccade(s[i]) && MakeSaccadeEnd(s[i]).Err? ==> SaccadeEnds(s[..i + 1]) == Err(MakeSaccadeEnd(s[i]).error)
    ensures IsSaccade(s[i]) && MakeSaccadeEnd(s[i]).Ok? ==> SaccadeEnds(s[..i + 1]) == Ok(SaccadeEnds(s[..i]).value + [MakeSaccadeEnd(s[i]).value])
  {
    assert s[..i + 1][..i] == s[..i];
  }

  lemma {:induction false} ErrorSticksSac(s: seq<LogEntry>, i: nat)
    requires i <= |s| && SaccadeEnds(s[..i]).Err?
    ensures SaccadeEnds(s) == SaccadeEnds(s[..i])
    decreases |s| - i
  {
    if i < |s| {
      assert s[..i + 1][..i] == s[..i];
      ErrorSticksSac(s, i + 1);
    } else {
      assert s[..i] == s;
    }
  }

  lemma {:induction false} LinesErrorSticks(s: seq<LogEntry>, i: nat, show: Num -> string)
    requires i <= |s| && AscLines(s[..i], show).Err?
    ensures AscLines(s, show) == AscLines(s[..i], show)
    decreases |s| - i
  {
    if i < |s| {
      assert s[..i + 1][..i] == s[..i];
      LinesErrorSticks(s, i + 1, show);
    } else {
      assert s[..i] == s;
    }
  }

  // ---------------------------------------------------------------------
  // What saveForFixation guarantees

  lemma {:induction false} LastAscGazeAppend(a: seq<LogEntry>, b: seq<LogEntry>)
    ensures LastAscGaze(a + b) == if LastAscGaze(b).Some? then LastAscGaze(b) else LastAscGaze(a)
    decreases |b|
  {
    if b == [] {
      assert a + b == a;
    } else {
      assert (a + b)[..|a + b| - 1] == a + b[..|b| - 1];
      LastAscGazeAppend(a, b[..|b| - 1]);
    }
  }

  /**
   * For input without both-eye samples of its own, the begin markers announce
   * BINO when there are as many left as right samples (and some), RIGHT when
   * right samples outnumber left ones, and LEFT otherwise.
   */
  lemma EyeTypeRule(entries: seq<LogEntry>, ends: seq<LogEntry>)
    requires forall i :: 0 <= i < |entries| ==> !entries[i].AscGaze?
    requires forall i :: 0 <= i < |ends| ==> !ends[i].AscGaze?
    ensures var all := entries + ends;
      var ls, rs := Filter(all, IsLGaze), Filter(all, IsRGaze);
      EyeType(all + AscGazes(ls, rs)) ==
        if |ls| == |rs| && |ls| > 0 then Ok(BINO)
        else if |rs| > |ls| then Ok(RIGHT)
        else Ok(LEFT)
  {
    var all := entries + ends;
    var ls, rs := Filter(all, IsLGaze), Filter(all, IsRGaze);
    var pairs := AscGazes(ls, rs);
    LastAscGazeAppend(all, pairs);
    if pairs == [] {
      assert LastAscGaze(pairs) == None;
      assert forall i :: 0 <= i < |all| ==> !all[i].AscGaze? by {
        forall i | 0 <= i < |all| ensures !all[i].AscGaze? {
          if i >= |entries| { assert all[i] == ends[i - |entries|]; }
        }
      }
    } else {
      assert LastAscGaze(pairs) == Some(pairs[|pairs| - 1]);
    }
  }

  /** Every non-gaze input entry reaches the sorted log, and no raw gaze sample does. */
  lemma FixationEntriesContents(entries: seq<LogEntry>)
    requires FixationEntries(entries).Ok?
    ensures forall e :: e in entries && !IsGaze(e) ==> e in FixationEntries(entries).value
    ensures forall e :: e in FixationEntries(entries).value ==> !IsGaze(e)
  {
  }

  predicate RankedOrGaze(s: seq<LogEntry>) { forall i :: 0 <= i < |s| ==> IsGaze(s[i]) || Ranked(s[i]) }

  lemma RankedOrGazeConcat(a: seq<LogEntry>, b: seq<LogEntry>)
    requires RankedOrGaze(a) && RankedOrGaze(b)
    ensures RankedOrGaze(a + b)
  {
    forall i | 0 <= i < |a + b| ensures IsGaze((a + b)[i]) || Ranked((a + b)[i]) {
      if i >= |a| { assert (a + b)[i] == b[i - |a|]; }
    }
  }

  lemma {:induction false} FilterNonGazeRanked(s: seq<LogEntry>)
    requires RankedOrGaze(s)
    ensures AllRanked(Filter(s, e => !IsGaze(e)))
  {
    var r := Filter(s, e => !IsGaze(e));
    forall i | 0 <= i < |r| ensures Ranked(r[i]) {
      assert r[i] in s;
    }
  }

  lemma FixationEndsRanked(entries: seq<LogEntry>)
    requires FixationEnds(entries).Ok?
    ensures RankedOrGaze(FixationEnds(entries).value)
  {
    var fe, fx := FixationEnds(entries).value, Filter(entries, IsFixation);
    forall i | 0 <= i < |fe| ensures Ranked(fe[i]) {
      var m := MakeFixationEnd(fx[i]);
      assert Some(fe[i]) == Ok2Option(m);
      assert TypeOf(m.value) == FIXENDL || TypeOf(m.value) == FIXENDR;
    }
  }

  lemma SaccadeEndsRanked(entries: seq<LogEntry>)
    requires SaccadeEnds(entries).Ok?
    ensures RankedOrGaze(SaccadeEnds(entries).value)
  {
    var se, sx := SaccadeEnds(entries).value, Filter(entries, IsSaccade);
    forall i | 0 <= i < |se| ensures Ranked(se[i]) {
      var m := MakeSaccadeEnd(sx[i]);
      assert Some(se[i]) == Ok2Option(m);
      assert TypeOf(m.value) == SACCENDL || TypeOf(m.value) == SACCENDR;
    }
  }

  lemma AscGazesRanked(ls: seq<LogEntry>, rs: seq<LogEntry>)
    ensures RankedOrGaze(AscGazes(ls, rs))
  {
    var pairs := AscGazes(ls, rs);
    forall i | 0 <= i < |pairs| ensures Ranked(pairs[i]) {
      assert pairs[i].AscGaze?;
    }
  }

  lemma BeginEndsRanked(s: seq<LogEntry>, eye: int)
    ensures RankedOrGaze(BeginEnds(s, eye))
  {
    var markers := BeginEnds(s, eye);
    forall i | 0 <= i < |markers| ensures Ranked(markers[i]) {
      assert markers[i].Start? || markers[i].End?;
    }
  }

  lemma AddedRanked(withEnds: seq<LogEntry>, eye: int)
    requires RankedOrGaze(withEnds)
    ensures var withGaze := withEnds + AscGazes(Filter(withEnds, IsLGaze), Filter(withEnds, IsRGaze));
      RankedOrGaze(withGaze + BeginEnds(withGaze, eye))
  {
    var pairs := AscGazes(Filter(withEnds, IsLGaze), Filter(withEnds, IsRGaze));
    AscGazesRanked(Filter(withEnds, IsLGaze), Filter(withEnds, IsRGaze));
    RankedOrGazeConcat(withEnds, pairs);
    var withGaze := withEnds + pairs;
    BeginEndsRanked(withGaze, eye);
    RankedOrGazeConcat(withGaze, BeginEnds(withGaze, eye));
  }

  /**
   * When every entry that is not a raw gaze sample has a type in the rank
   * table, the written log is a reordering of the kept entries by time and,
   * at equal times, by rank.
   */
  lemma WrittenInOrder(entries: seq<LogEntry>)
    requires RankedOrGaze(entries)
    requires FixationEntries(entries).Ok?
    ensures var kept := FixationEntries(entries).value;
      AllRanked(kept) && multiset(SortLog(kept)) == multiset(kept)
      && AllRanked(SortLog(kept)) && Sorted(SortLog(kept))
  {
    var kept := FixationEntries(entries).value;
    var fe, se := FixationEnds(entries).value, SaccadeEnds(entries).value;
    var withEnds := entries + fe + se;
    FixationEndsRanked(entries);
    SaccadeEndsRanked(entries);
    RankedOrGazeConcat(entries, fe);
    RankedOrGazeConcat(entries + fe, se);
    var withGaze := withEnds + AscGazes(Filter(withEnds, IsLGaze), Filter(withEnds, IsRGaze));
    AddedRanked(withEnds, EyeType(withGaze).value);
    FilterNonGazeRanked(withGaze + BeginEnds(withGaze, EyeType(withGaze).value));
    SortLogSorted(kept);
  }
}
