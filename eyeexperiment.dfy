// Splitting an ordered eye-tracking log into trials: the state machine of
// the experiment constructor, the routing of samples and events into a
// trial, the alignment of a trial's first logged fixation with its first
// sample, and copying.

module EyeExperiment {
  import opened Base
  import opened Num
  import opened Text
  import opened EyeLog

  /**
   * One trial. The first eight sequences after the stimulus are filled by
   * AddEntry; the fixations, saccades and blinks found by the detector
   * (lfix, rfix, avgfix, lsac, rsac, avgsac, lblink, rblink) start empty.
   */
  datatype Trial = Trial(
    stimulus: Option<string>,
    lgaze: seq<LogEntry>, rgaze: seq<LogEntry>,
    loglfix: seq<LogEntry>, logrfix: seq<LogEntry>,
    loglsac: seq<LogEntry>, logrsac: seq<LogEntry>,
    loglblink: seq<LogEntry>, logrblink: seq<LogEntry>,
    lfix: seq<LogEntry>, rfix: seq<LogEntry>, avgfix: seq<LogEntry>, logavgfix: seq<LogEntry>,
    lsac: seq<LogEntry>, rsac: seq<LogEntry>, avgsac: seq<LogEntry>, logavgsac: seq<LogEntry>,
    lblink: seq<LogEntry>, rblink: seq<LogEntry>,
    meta: seq<LogEntry>)

  const NewTrial: Trial :=
    Trial(None, [], [], [], [], [], [], [], [], [], [], [], [], [], [], [], [], [], [], [])

  datatype Experiment = Experiment(trials: seq<Trial>, meta: seq<LogEntry>)

  /** The entry kinds a trial stores once its SYNCTIME has been seen. */
  predicate IsTrialEntry(e: LogEntry)
  {
    TypeOf(e) in {RGAZE, LGAZE, RFIX, LFIX, RSAC, LSAC, LBLINK, RBLINK}
  }

  /** The list of `t` that AddEntry extends for entries of type `k`. */
  function Bucket(t: Trial, k: EntryType): seq<LogEntry>
  {
    match k
    case LGAZE => t.lgaze
    case RGAZE => t.rgaze
    case LFIX => t.loglfix
    case RFIX => t.logrfix
    case LSAC => t.loglsac
    case RSAC => t.logrsac
    case LBLINK => t.loglblink
    case RBLINK => t.logrblink
    case _ => []
  }

  /** Everything of `t` that AddEntry does not touch. */
  function Rest(t: Trial): Trial
  {
    t.(lgaze := [], rgaze := [], loglfix := [], logrfix := [], loglsac := [], logrsac := [],
       loglblink := [], logrblink := [])
  }

  /** EyeTrial.addEntry: appends `e` to the list of its type; other types are refused. */
  function AddEntry(t: Trial, e: LogEntry): (r: Result<Trial>)
    ensures r.Ok? <==> IsTrialEntry(e)
    ensures r.Ok? ==> Bucket(r.value, TypeOf(e)) == Bucket(t, TypeOf(e)) + [e]
    ensures r.Ok? ==> forall k :: k != TypeOf(e) ==> Bucket(r.value, k) == Bucket(t, k)
    ensures r.Ok? ==> Rest(r.value) == Rest(t)
    ensures r.Err? ==> r.error == ValueError
  {
    match TypeOf(e)
    case LGAZE => Ok(t.(lgaze := t.lgaze + [e]))
    case RGAZE => Ok(t.(rgaze := t.rgaze + [e]))
    case LFIX => Ok(t.(loglfix := t.loglfix + [e]))
    case RFIX => Ok(t.(logrfix := t.logrfix + [e]))
    case LSAC => Ok(t.(loglsac := t.loglsac + [e]))
    case RSAC => Ok(t.(logrsac := t.logrsac + [e]))
    case LBLINK => Ok(t.(loglblink := t.loglblink + [e]))
    case RBLINK => Ok(t.(logrblink := t.logrblink + [e]))
    case _ => Err(ValueError)
  }

  predicate ContainsGazeData(t: Trial) { t.lgaze != [] || t.rgaze != [] }
  predicate ContainsLogFixations(t: Trial) { t.loglfix != [] || t.logrfix != [] }

  /**
   * EyeTrial._fixFirstFixation: a fixation that starts before `sample` is
   * moved to the sample's time and shortened by as much. Only fixation
   * entries carry a duration; any other entry is returned as it is.
   */
  function FixFirstFixation(fix: LogEntry, sample: LogEntry): (r: LogEntry)
    ensures fix.Fixation? ==> r.Fixation? && r.etype == fix.etype && r.x == fix.x && r.y == fix.y
    ensures fix.Fixation? ==> r.time == Max(fix.time, sample.time)
    ensures fix.Fixation? ==> r.time + r.duration == fix.time + fix.duration
    ensures !fix.Fixation? || sample.time <= fix.time ==> r == fix
  {
    var diff := sample.time - fix.time;
    if !fix.Fixation? || diff <= 0 then fix
    else Fixation(fix.etype, fix.time + diff, fix.duration - diff, fix.x, fix.y)
  }

  /**
   * EyeTrial.fixFirstFix: aligns each eye's first logged fixation with that
   * eye's first sample, or with the other eye's first sample when the eye
   * has none. Fails without any samples.
   */
  function FixFirstFix(t: Trial): (r: Result<Trial>)
    ensures r.Err? <==> !ContainsGazeData(t)
    ensures r.Err? ==> r.error == RuntimeError
    ensures r.Ok? ==> r.value.(loglfix := t.loglfix, logrfix := t.logrfix) == t
    ensures r.Ok? ==> |r.value.loglfix| == |t.loglfix| && |r.value.logrfix| == |t.logrfix|
    ensures r.Ok? && t.loglfix != [] ==>
      r.value.loglfix == t.loglfix[0 := FixFirstFixation(t.loglfix[0], if t.lgaze != [] then t.lgaze[0] else t.rgaze[0])]
    ensures r.Ok? && t.logrfix != [] ==>
      r.value.logrfix == t.logrfix[0 := FixFirstFixation(t.logrfix[0], if t.rgaze != [] then t.rgaze[0] else t.lgaze[0])]
  {
    if t.lgaze == [] && t.rgaze == [] then Err(RuntimeError)
    else
      var refgaze := if t.lgaze != [] then t.lgaze else t.rgaze;
      var lf :=
        if t.loglfix == [] then t.loglfix
        else if t.lgaze == [] then t.loglfix[0 := FixFirstFixation(t.loglfix[0], refgaze[0])]
        else if t.loglfix[0].time < t.lgaze[0].time then t.loglfix[0 := FixFirstFixation(t.loglfix[0], t.lgaze[0])]
        else t.loglfix;
      var rf :=
        if t.logrfix == [] then t.logrfix
        else if t.rgaze == [] then t.logrfix[0 := FixFirstFixation(t.logrfix[0], refgaze[0])]
        else if t.logrfix[0].time < t.rgaze[0].time then t.logrfix[0 := FixFirstFixation(t.logrfix[0], t.rgaze[0])]
        else t.logrfix;
      Ok(t.(loglfix := lf, logrfix := rf))
  }

  /** The lists EyeTrial.getEntries concatenates, in its order; blinks are not among them. */
  function EntryLists(t: Trial): seq<seq<LogEntry>>
  {
    [t.lgaze, t.rgaze, t.lfix, t.rfix, t.avgfix, t.loglfix, t.logrfix, t.logavgfix,
     t.lsac, t.rsac, t.avgsac, t.loglsac, t.logrsac, t.logavgsac, t.meta]
  }

  /** EyeTrial.getEntries */
  function TrialEntries(t: Trial): seq<LogEntry>
  {
    Concat(EntryLists(t))
  }

  lemma {:induction false} ConcatGrow(ls: seq<seq<LogEntry>>, j: nat, e: LogEntry)
    requires j < |ls|
    ensures multiset(Concat(ls[j := ls[j] + [e]])) == multiset(Concat(ls)) + multiset{e}
  {
    var m := ls[j := ls[j] + [e]];
    var n := |ls| - 1;
    assert Concat(m) == Concat(m[..n]) + m[n];
    assert Concat(ls) == Concat(ls[..n]) + ls[n];
    if j == n {
      assert m[..n] == ls[..n];
      assert m[n] == ls[n] + [e];
    } else {
      assert m[..n] == ls[..n][j := ls[j] + [e]];
      assert m[n] == ls[n];
      ConcatGrow(ls[..n], j, e);
    }
  }

  /**
   * Adding a sample or event to a trial adds it to the trial's entries,
   * except for blinks, which getEntries does not return.
   */
  lemma EntriesAfterAdd(t: Trial, e: LogEntry)
    requires IsTrialEntry(e)
    ensures multiset(TrialEntries(AddEntry(t, e).value)) ==
      multiset(TrialEntries(t)) + (if TypeOf(e) in {LBLINK, RBLINK} then multiset{} else multiset{e})
  {
    var ls := EntryLists(t);
    var u := AddEntry(t, e).value;
    match TypeOf(e)
    case LGAZE => assert EntryLists(u) == ls[0 := ls[0] + [e]]; ConcatGrow(ls, 0, e);
    case RGAZE => assert EntryLists(u) == ls[1 := ls[1] + [e]]; ConcatGrow(ls, 1, e);
    case LFIX => assert EntryLists(u) == ls[5 := ls[5] + [e]]; ConcatGrow(ls, 5, e);
    case RFIX => assert EntryLists(u) == ls[6 := ls[6] + [e]]; ConcatGrow(ls, 6, e);
    case LSAC => assert EntryLists(u) == ls[11 := ls[11] + [e]]; ConcatGrow(ls, 11, e);
    case RSAC => assert EntryLists(u) == ls[12 := ls[12] + [e]]; ConcatGrow(ls, 12, e);
    case LBLINK => assert EntryLists(u) == ls;
    case RBLINK => assert EntryLists(u) == ls;
  }

  /** EyeExperiment.getEntries: the experiment's meta, then every trial's entries. */
  function ExperimentEntries(x: Experiment): seq<LogEntry>
  {
    x.meta + Concat(Map(x.trials, TrialEntries))
  }

  // ---------------------------------------------------------------------
  // Copying

  /** Python's str() of the optional stimulus name: a missing one becomes "None". */
  function StrOf(s: Option<string>): string
  {
    if s.Some? then s.value else "None"
  }

  /** EyeTrial.copy as written: the stimulus goes through str(). */
  function CopyTrialAsWritten(t: Trial): Trial
  {
    t.(stimulus := Some(StrOf(t.stimulus)))
  }

  function CopyExperimentAsWritten(x: Experiment): Experiment
  {
    Experiment(Map(x.trials, CopyTrialAsWritten), x.meta)
  }

  /** A trial without a stimulus does not survive the as-written copy. */
  lemma CopyAsWrittenLosesMissingStimulus(t: Trial)
    ensures CopyTrialAsWritten(t) == t <==> t.stimulus.Some?
  {
  }

  /** The as-written copy of an experiment equals it exactly when every trial names a stimulus. */
  lemma {:induction false} CopyExperimentAsWrittenEqualIff(x: Experiment)
    ensures CopyExperimentAsWritten(x) == x <==> forall k :: 0 <= k < |x.trials| ==> x.trials[k].stimulus.Some?
  {
    var c := Map(x.trials, CopyTrialAsWritten);
    if forall k :: 0 <= k < |x.trials| ==> x.trials[k].stimulus.Some? {
      assert c == x.trials;
    } else {
      var k :| 0 <= k < |x.trials| && x.trials[k].stimulus.None?;
      assert c[k].stimulus == Some("None");
      assert c[k] != x.trials[k];
    }
  }

  /** EyeTrial.copy as intended: the stimulus is copied as it is. */
  function CopyTrial(t: Trial): (r: Trial)
    ensures r == t
  {
    t.(stimulus := t.stimulus)
  }

  /** EyeExperiment.copy with the corrected trial copy: equal to the original. */
  function CopyExperiment(x: Experiment): (r: Experiment)
    ensures r == x
  {
    var ts := Map(x.trials, CopyTrial);
    assert ts == x.trials;
    Experiment(ts, x.meta)
  }

  // ---------------------------------------------------------------------
  // The constructor's scan over the log

  /** The loop variables of EyeExperiment.__init__ (plus the lists it builds). */
  datatype Scan = Scan(
    havestart: bool, foundsync: bool, trial: Option<Trial>,
    tempmeta: seq<LogEntry>, trials: seq<Trial>, meta: seq<LogEntry>)

  const Initial: Scan := Scan(false, false, None, [], [], [])

  /** A message with no words: split()[0] raises IndexError on it. */
  predicate Wordless(e: LogEntry) { e.Message? && Words(e.text) == [] }

  predicate Keyword(e: LogEntry, w: string)
  {
    e.Message? && Words(e.text) != [] && Words(e.text)[0] == w
  }

  predicate IsBegin(e: LogEntry) { Keyword(e, "trialbeg") }
  predicate IsEnd(e: LogEntry) { Keyword(e, "trialend") }
  predicate IsPla(e: LogEntry) { Keyword(e, "plafile") }
  predicate IsSync(e: LogEntry) { Keyword(e, "SYNCTIME") }

  /** One iteration of the constructor's loop. */
  function Step(st: Scan, e: LogEntry): Result<Scan>
  {
    if st.trial.Some? && IsTrialEntry(e) && st.foundsync then
      Ok(st.(trial := Some(AddEntry(st.trial.value, e).value)))
    else
      var st1 :=
        if st.trial.None? then st.(tempmeta := st.tempmeta + [e])
        else st.(trial := Some(st.trial.value.(meta := st.trial.value.meta + st.tempmeta + [e])), tempmeta := []);
      if Wordless(e) then Err(IndexError)
      else if !st1.havestart && !IsBegin(e) then
        Ok(if IsMessage(e) then st1.(meta := st1.meta + [e]) else st1)
      else Markers(st1.(havestart := true), e)
  }

  /** The part of an iteration that reacts to trialbeg, trialend, plafile and SYNCTIME. */
  function Markers(st: Scan, e: LogEntry): Result<Scan>
    requires !Wordless(e)
  {
    var st2 := if IsBegin(e) then st.(trial := Some(NewTrial)) else st;
    if IsEnd(e) then
      if st2.trial.None? then Err(RuntimeError)
      else Ok(st2.(trials := st2.trials + [st2.trial.value.(meta := st2.trial.value.meta + [e])],
                   trial := None, foundsync := false))
    else if IsPla(e) && st2.trial.None? then Err(RuntimeError)
    else if IsPla(e) && |Words(e.text)| < 2 then Err(IndexError)
    else
      var st3 := if IsPla(e) then st2.(trial := Some(st2.trial.value.(stimulus := Some(Words(e.text)[1])))) else st2;
      Ok(if IsSync(e) then st3.(foundsync := true) else st3)
  }

  /** The loop over the whole log. */
  function Segment(entries: seq<LogEntry>): Result<Scan>
  {
    if entries == [] then Ok(Initial)
    else
      match Segment(entries[..|entries| - 1])
      case Err(err) => Err(err)
      case Ok(st) => Step(st, entries[|entries| - 1])
  }

  /** A trial the constructor aligns, and how. */
  function Aligned(t: Trial): Trial
  {
    if ContainsLogFixations(t) && ContainsGazeData(t) then FixFirstFix(t).value else t
  }

  /** EyeExperiment(entries): the scan, then the first-fixation alignment of every trial. */
  function Build(entries: seq<LogEntry>): Result<Experiment>
  {
    match Segment(entries)
    case Err(err) => Err(err)
    case Ok(st) => Ok(Experiment(Map(st.trials, Aligned), st.meta))
  }

  lemma {:induction false} SegmentErrorSticks(entries: seq<LogEntry>, i: nat)
    requires i <= |entries| && Segment(entries[..i]).Err?
    ensures Segment(entries) == Segment(entries[..i])
    decreases |entries| - i
  {
    if i < |entries| {
      assert entries[..i + 1][..i] == entries[..i];
      SegmentErrorSticks(entries, i + 1);
    } else {
      assert entries[..i] == entries;
    }
  }

  /** EyeExperiment.__init__: the scan over the log, then the alignment of every trial. */
  method NewExperiment(entries: seq<LogEntry>) returns (r: Result<Experiment>)
    ensures r == Build(entries)
  {
    var scan := ScanLog(entries);
    if scan.Err? {
      return Err(scan.error);
    }
    var trials := AlignTrials(scan.value.trials);
    return Ok(Experiment(trials, scan.value.meta));
  }

  /** The constructor's loop over the entries. */
  method ScanLog(entries: seq<LogEntry>) returns (r: Result<Scan>)
    ensures r == Segment(entries)
  {
    var havestart, foundsync := false, false;
    var trial: Option<Trial> := None;
    var tempmeta: seq<LogEntry> := [];
    var trials: seq<Trial> := [];
    var meta: seq<LogEntry> := [];
    var i := 0;
    while i < |entries|
      invariant 0 <= i <= |entries|
      invariant Segment(entries[..i]) == Ok(Scan(havestart, foundsync, trial, tempmeta, trials, meta))
    {
      var e := entries[i];
      ghost var st := Scan(havestart, foundsync, trial, tempmeta, trials, meta);
      assert entries[..i + 1][..i] == entries[..i];
      assert Segment(entries[..i + 1]) == Step(st, e);
      i := i + 1;
      if trial.Some? && IsTrialEntry(e) && foundsync {
        trial := Some(AddEntry(trial.value, e).value);
        continue;
      }
      if trial.None? {
        tempmeta := tempmeta + [e];
      } else {
        trial := Some(trial.value.(meta := trial.value.meta + tempmeta + [e]));
        tempmeta := [];
      }
      ghost var st1 := Scan(havestart, foundsync, trial, tempmeta, trials, meta);
      if Wordless(e) {
        SegmentErrorSticks(entries, i);
        return Err(IndexError);
      }
      if !havestart {
        if IsBegin(e) {
          havestart := true;
        } else {
          if IsMessage(e) {
            meta := meta + [e];
          }
          continue;
        }
      }
      assert Segment(entries[..i]) == Markers(st1.(havestart := true), e);
      if IsBegin(e) {
        trial := Some(NewTrial);
      }
      if IsEnd(e) {
        if trial.None? {
          SegmentErrorSticks(entries, i);
          return Err(RuntimeError);
        }
        trials := trials + [trial.value.(meta := trial.value.meta + [e])];
        trial := None;
        foundsync := false;
        continue;
      }
      if IsPla(e) {
        if trial.None? {
          SegmentErrorSticks(entries, i);
          return Err(RuntimeError);
        }
        var words := Words(e.text);
        if |words| < 2 {
          SegmentErrorSticks(entries, i);
          return Err(IndexError);
        }
        trial := Some(trial.value.(stimulus := Some(words[1])));
      }
      if IsSync(e) {
        foundsync := true;
      }
    }
    assert entries[..i] == entries;
    return Ok(Scan(havestart, foundsync, trial, tempmeta, trials, meta));
  }

  /** The loop after the scan: every trial with logged fixations and samples is aligned in place. */
  method AlignTrials(scanned: seq<Trial>) returns (trials: seq<Trial>)
    ensures trials == Map(scanned, Aligned)
  {
    trials := scanned;
    var k := 0;
    while k < |trials|
      invariant 0 <= k <= |trials| == |scanned|
      invariant forall j :: 0 <= j < k ==> trials[j] == Aligned(scanned[j])
      invariant forall j :: k <= j < |trials| ==> trials[j] == scanned[j]
    {
      if ContainsLogFixations(trials[k]) && ContainsGazeData(trials[k]) {
        var fixed := FixFirstFix(trials[k]);
        trials := trials[k := fixed.value];
      }
      k := k + 1;
    }
  }

  // ---------------------------------------------------------------------
  // Properties of the scan

  /** What one iteration does to the flags and to the closed trials. */
  lemma StepFlags(st: Scan, e: LogEntry)
    requires Step(st, e).Ok?
    ensures Step(st, e).value.havestart == (st.havestart || IsBegin(e))
    ensures Step(st, e).value.foundsync ==
      (if st.havestart && IsEnd(e) then false else if st.havestart && IsSync(e) then true else st.foundsync)
    ensures st.trials <= Step(st, e).value.trials
    ensures |Step(st, e).value.trials| == |st.trials| + (if st.havestart && IsEnd(e) then 1 else 0)
  {
    if st.trial.Some? && IsTrialEntry(e) && st.foundsync {
      assert !e.Message?;
    } else if !Wordless(e) && (st.havestart || IsBegin(e)) {
      var st1 :=
        if st.trial.None? then st.(tempmeta := st.tempmeta + [e])
        else st.(trial := Some(st.trial.value.(meta := st.trial.value.meta + st.tempmeta + [e])), tempmeta := []);
      assert Step(st, e) == Markers(st1.(havestart := true), e);
      MarkersFlags(st1.(havestart := true), e);
    }
  }

  /** The markers keep the start flag, clear the sync flag at trialend and set it at SYNCTIME, and close a trial at trialend. */
  lemma MarkersFlags(st: Scan, e: LogEntry)
    requires !Wordless(e) && Markers(st, e).Ok?
    ensures Markers(st, e).value.havestart == st.havestart
    ensures Markers(st, e).value.foundsync == (if IsEnd(e) then false else if IsSync(e) then true else st.foundsync)
    ensures st.trials <= Markers(st, e).value.trials
    ensures |Markers(st, e).value.trials| == |st.trials| + (if IsEnd(e) then 1 else 0)
  {
    if IsEnd(e) {
      assert !IsSync(e);
    }
  }

  /** Whether a trialbeg message occurs in `s`. */
  function Begun(s: seq<LogEntry>): bool
  {
    if s == [] then false else Begun(s[..|s| - 1]) || IsBegin(s[|s| - 1])
  }

  /** The number of trialend messages that follow some trialbeg message. */
  function Closed(s: seq<LogEntry>): nat
  {
    if s == [] then 0
    else Closed(s[..|s| - 1]) + (if Begun(s[..|s| - 1]) && IsEnd(s[|s| - 1]) then 1 else 0)
  }

  /**
   * Whether a SYNCTIME message has been seen since the first trialbeg and
   * no trialend came after it.
   */
  function SyncSeen(s: seq<LogEntry>): bool
  {
    if s == [] then false
    else
      var p := s[..|s| - 1];
      if Begun(p) && IsEnd(s[|s| - 1]) then false
      else if Begun(p) && IsSync(s[|s| - 1]) then true
      else SyncSeen(p)
  }

  /**
   * After a successful scan: the start flag records whether a trialbeg was
   * seen, there is one trial per trialend after it, and the sync flag is
   * set exactly when a SYNCTIME came after the last trialend.
   */
  lemma {:induction false} ScanCounts(entries: seq<LogEntry>)
    requires Segment(entries).Ok?
    ensures Segment(entries).value.havestart == Begun(entries)
    ensures |Segment(entries).value.trials| == Closed(entries)
    ensures Segment(entries).value.foundsync == SyncSeen(entries)
  {
    if entries != [] {
      var p := entries[..|entries| - 1];
      var e := entries[|entries| - 1];
      assert Segment(p).Ok?;
      ScanCounts(p);
      StepFlags(Segment(p).value, e);
    }
  }

  /** Trials are only ever appended: what an earlier point of the scan closed stays in place. */
  lemma {:induction false} TrialsOnlyAppended(entries: seq<LogEntry>, i: nat)
    requires i <= |entries| && Segment(entries).Ok?
    ensures Segment(entries[..i]).Ok?
    ensures Segment(entries[..i]).value.trials <= Segment(entries).value.trials
    decreases |entries| - i
  {
    if i == |entries| {
      assert entries[..i] == entries;
    } else {
      TrialsOnlyAppended(entries, i + 1);
      var q := entries[..i + 1];
      assert q[..|q| - 1] == entries[..i];
      assert Segment(entries[..i]).Ok?;
      StepFlags(Segment(entries[..i]).value, entries[i]);
    }
  }

  /** A sample or event reaches the open trial's lists exactly when a SYNCTIME has been seen. */
  lemma TrialEntryGate(st: Scan, e: LogEntry)
    requires IsTrialEntry(e) && st.trial.Some?
    ensures Step(st, e).Ok? && Step(st, e).value.trial.Some?
    ensures st.foundsync ==> Step(st, e).value.trial == Some(AddEntry(st.trial.value, e).value)
    ensures !st.foundsync ==> forall k :: Bucket(Step(st, e).value.trial.value, k) == Bucket(st.trial.value, k)
    ensures !st.foundsync ==> Step(st, e).value.trial.value.meta == st.trial.value.meta + st.tempmeta + [e]
  {
  }

  /** A trialend or plafile message after the first trialbeg, with no trial open, aborts the scan. */
  lemma UnopenedMarkerRaises(entries: seq<LogEntry>, i: nat)
    requires i < |entries| && Segment(entries[..i]).Ok?
    requires Segment(entries[..i]).value.havestart && Segment(entries[..i]).value.trial.None?
    requires IsEnd(entries[i]) || IsPla(entries[i])
    ensures Build(entries) == Err(RuntimeError)
  {
    var q := entries[..i + 1];
    assert q[..|q| - 1] == entries[..i];
    assert Segment(q) == Err(RuntimeError);
    SegmentErrorSticks(entries, i + 1);
  }

  /** A plafile message inside an open trial names the trial's stimulus by its second word. */
  lemma PlaSetsStimulus(st: Scan, e: LogEntry)
    requires st.havestart && st.trial.Some? && IsPla(e)
    ensures |Words(e.text)| >= 2 ==>
      (Step(st, e).Ok? && Step(st, e).value.trial.Some? &&
       Step(st, e).value.trial.value.stimulus == Some(Words(e.text)[1]))
    ensures |Words(e.text)| < 2 ==> Step(st, e) == Err(IndexError)
  {
  }

  /** Before the first trialbeg every entry is held back, and messages also go to the experiment's meta. */
  lemma StepBeforeBegin(st: Scan, e: LogEntry)
    requires !st.havestart && st.trial.None? && !Wordless(e) && !IsBegin(e)
    ensures Step(st, e) == Ok(st.(tempmeta := st.tempmeta + [e], meta := st.meta + if IsMessage(e) then [e] else []))
  {
    if !IsMessage(e) {
      assert st.meta + [] == st.meta;
    }
  }

  /**
   * A log without any trialbeg message (and without empty messages) gives
   * no trials, and its messages become the experiment's meta data.
   */
  lemma {:induction false} NoBeginNoTrials(entries: seq<LogEntry>)
    requires forall k :: 0 <= k < |entries| ==> !Wordless(entries[k]) && !IsBegin(entries[k])
    ensures Segment(entries) == Ok(Scan(false, false, None, entries, [], Filter(entries, IsMessage)))
    ensures Build(entries) == Ok(Experiment([], Filter(entries, IsMessage)))
  {
    if entries != [] {
      var p := entries[..|entries| - 1];
      var e := entries[|entries| - 1];
      NoBeginNoTrials(p);
      StepBeforeBegin(Segment(p).value, e);
      assert p + [e] == entries;
    }
  }
}
