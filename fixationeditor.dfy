// The fixation editor of gui/fixationeditor.py: saccades strung between
// consecutive fixations, the translation of fixations by a dragged vector,
// and the FixationEditModel, which keeps a selection of fixations and pushes
// each saved edit onto the undo history of its EditDataModel.

module FixationEditor {
  import opened Base
  import opened Num
  import opened EyeLog
  import opened EyeExperiment
  import opened DataModels

  /** Every entry of `s` is a fixation: what the editor's lists of fixations hold. */
  predicate AllFixations(s: seq<LogEntry>)
  {
    forall f :: f in s ==> f.Fixation?
  }

  /**
   * `_selected`: every entry is a fixation, or None, which selectNearest and
   * addNearest append when a click finds no visible fixation.
   */
  predicate SelectionOk(sel: seq<Option<LogEntry>>)
  {
    forall f :: f in sel && f.Some? ==> f.value.Fixation?
  }

  // ---------------------------------------------------------------------
  // connectFixations

  /** The type of the saccade that leaves a fixation of type `et`. */
  function SaccadeType(et: EntryType): EntryType
  {
    if et == LFIX then LSAC else if et == RFIX then RSAC else AVGSAC
  }

  /** The saccade connectFixations builds from one fixation to the next. */
  function ConnectPair(first: LogEntry, second: LogEntry): LogEntry
    requires first.Fixation? && second.Fixation?
  {
    var start := first.time + first.duration;
    Saccade(SaccadeType(first.etype), start, second.time - start, first.x, first.y, second.x, second.y)
  }

  /** The saccades of connectFixations, one for every pair of consecutive fixations. */
  function Connected(fixations: seq<LogEntry>): (sacs: seq<LogEntry>)
    requires AllFixations(fixations)
    ensures |sacs| == if fixations == [] then 0 else |fixations| - 1
    ensures forall i :: 0 <= i < |sacs| ==> sacs[i] == ConnectPair(fixations[i], fixations[i + 1])
  {
    if |fixations| < 2 then []
    else
      var init := fixations[..|fixations| - 1];
      assert forall i :: 0 <= i < |init| ==> init[i] == fixations[i];
      Connected(init) + [ConnectPair(fixations[|fixations| - 2], fixations[|fixations| - 1])]
  }

  /**
   * Saccade i leaves fixation i when it ends, at its position, and reaches
   * fixation i + 1 when it starts, at its position; its type follows the
   * eye of fixation i.
   */
  lemma ConnectedSaccades(fixations: seq<LogEntry>)
    requires AllFixations(fixations)
    ensures var sacs := Connected(fixations);
      forall i :: 0 <= i < |sacs| ==>
        && sacs[i].Saccade?
        && sacs[i].etype == SaccadeType(fixations[i].etype)
        && sacs[i].time == fixations[i].time + fixations[i].duration
        && sacs[i].time + sacs[i].duration == fixations[i + 1].time
        && sacs[i].xstart == fixations[i].x && sacs[i].ystart == fixations[i].y
        && sacs[i].xend == fixations[i + 1].x && sacs[i].yend == fixations[i + 1].y
  {
  }

  /**
   * The saccades form one path: each ends where the next starts, and the
   * time between them is the duration of the fixation they surround.
   */
  lemma ConnectedIsPath(fixations: seq<LogEntry>)
    requires AllFixations(fixations)
    ensures var sacs := Connected(fixations);
      && (forall i :: 0 <= i < |sacs| ==> sacs[i].Saccade?)
      && forall i :: 0 <= i < |sacs| - 1 ==>
        && sacs[i].xend == sacs[i + 1].xstart && sacs[i].yend == sacs[i + 1].ystart
        && sacs[i + 1].time - (sacs[i].time + sacs[i].duration) == fixations[i + 1].duration
  {
    ConnectedSaccades(fixations);
  }

  /** connectFixations(fixations): the loop over range(1, len(fixations)). */
  method ConnectFixations(fixations: seq<LogEntry>) returns (saccades: seq<LogEntry>)
    requires AllFixations(fixations)
    ensures saccades == Connected(fixations)
  {
    saccades := [];
    if fixations == [] {
      return;
    }
    for i := 1 to |fixations|
      invariant saccades == Connected(fixations[..i])
    {
      var first := fixations[i - 1];
      var second := fixations[i];
      var start := first.time + first.duration;
      var end := second.time;
      var et := if first.etype == LFIX then LSAC else if first.etype == RFIX then RSAC else AVGSAC;
      var sac := Saccade(et, start, end - start, first.x, first.y, second.x, second.y);
      assert sac == ConnectPair(first, second);
      ghost var prefix := fixations[..i + 1];
      assert prefix[..i] == fixations[..i] && prefix[i - 1] == first && prefix[i] == second;
      saccades := saccades + [sac];
    }
    assert fixations[..|fixations|] == fixations;
  }

  // ---------------------------------------------------------------------
  // _TranslateFix

  /** _TranslateFix(dx, dy, ref)(fix): moves the fixation when there is no reference or it equals the reference. */
  function TranslateFix(f: LogEntry, dx: real, dy: real, ref: Option<LogEntry>): (r: LogEntry)
    requires f.Fixation?
    ensures r.Fixation? && r.etype == f.etype && r.time == f.time && r.duration == f.duration
    ensures ref.None? || f == ref.value ==> r.x == Add(f.x, Val(dx)) && r.y == Add(f.y, Val(dy))
    ensures ref.Some? && f != ref.value ==> r == f
  {
    if ref.None? || f == ref.value then Fixation(f.etype, f.time, f.duration, Add(f.x, Val(dx)), Add(f.y, Val(dy))) else f
  }

  /** list(map(_TranslateFix(dx, dy, ref), fixations)) */
  function TranslateAll(s: seq<LogEntry>, dx: real, dy: real, ref: Option<LogEntry>): (r: seq<LogEntry>)
    requires AllFixations(s)
    ensures |r| == |s| && AllFixations(r)
    ensures forall i :: 0 <= i < |s| ==> r[i] == TranslateFix(s[i], dx, dy, ref)
  {
    if s == [] then [] else [TranslateFix(s[0], dx, dy, ref)] + TranslateAll(s[1..], dx, dy, ref)
  }

  /** Translating by a zero vector changes no fixation. */
  lemma TranslateZero(s: seq<LogEntry>, ref: Option<LogEntry>)
    requires AllFixations(s)
    ensures TranslateAll(s, 0.0, 0.0, ref) == s
  {
    var r := TranslateAll(s, 0.0, 0.0, ref);
    forall i | 0 <= i < |s|
      ensures r[i] == s[i]
    {
      assert Add(s[i].x, Val(0.0)) == s[i].x && Add(s[i].y, Val(0.0)) == s[i].y;
    }
  }

  // ---------------------------------------------------------------------
  // The edits of the editor

  /**
   * FixationDataEdit: the fixations and saccades of each eye. The source
   * stores None for an empty list; both are false in its tests, so the
   * empty sequence stands for both.
   */
  datatype FixationEdit = FixationEdit(
    lfix: seq<LogEntry>, rfix: seq<LogEntry>, avgfix: seq<LogEntry>,
    lsac: seq<LogEntry>, rsac: seq<LogEntry>, avgsac: seq<LogEntry>)

  predicate EditOk(e: FixationEdit)
  {
    AllFixations(e.lfix) && AllFixations(e.rfix) && AllFixations(e.avgfix)
  }

  /**
   * One eye's fixations after the translations of saveEdit, one per selected
   * entry, in selection order. A selected None is a translation without a
   * reference, which moves every fixation.
   */
  function MoveList(s: seq<LogEntry>, sel: seq<Option<LogEntry>>, dx: real, dy: real): (r: seq<LogEntry>)
    requires AllFixations(s)
    ensures |r| == |s| && AllFixations(r)
    ensures forall i :: 0 <= i < |s| ==> r[i].etype == s[i].etype && r[i].time == s[i].time && r[i].duration == s[i].duration
  {
    if sel == [] then s else TranslateAll(MoveList(s, sel[..|sel| - 1], dx, dy), dx, dy, sel[|sel| - 1])
  }

  /** Without a selected None, a fixation equal to none of the selected ones stays where it is. */
  lemma {:induction false} MoveListUnselected(s: seq<LogEntry>, sel: seq<Option<LogEntry>>, dx: real, dy: real)
    requires AllFixations(s) && None !in sel
    ensures forall i :: 0 <= i < |s| && Some(s[i]) !in sel ==> MoveList(s, sel, dx, dy)[i] == s[i]
  {
    if sel != [] {
      var init := sel[..|sel| - 1];
      assert None !in init;
      MoveListUnselected(s, init, dx, dy);
      forall i | 0 <= i < |s| && Some(s[i]) !in sel
        ensures MoveList(s, sel, dx, dy)[i] == s[i]
      {
        assert Some(s[i]) !in init && Some(s[i]) != sel[|sel| - 1];
      }
    }
  }

  /** A selected None alone moves every fixation by the vector. */
  lemma MoveListNone(s: seq<LogEntry>, dx: real, dy: real)
    requires AllFixations(s)
    ensures var r := MoveList(s, [None], dx, dy);
      forall i :: 0 <= i < |s| ==> r[i].x == Add(s[i].x, Val(dx)) && r[i].y == Add(s[i].y, Val(dy))
  {
    var sel: seq<Option<LogEntry>> := [None];
    assert sel[..0] == [];
  }

  /** With one selected fixation, exactly the fixations equal to it move, by the vector. */
  lemma MoveListSingle(s: seq<LogEntry>, t: LogEntry, dx: real, dy: real)
    requires AllFixations(s)
    ensures var r := MoveList(s, [Some(t)], dx, dy);
      forall i :: 0 <= i < |s| ==>
        if s[i] == t then r[i].x == Add(s[i].x, Val(dx)) && r[i].y == Add(s[i].y, Val(dy)) else r[i] == s[i]
  {
    assert [Some(t)][..0] == [];
  }

  /** A zero vector leaves every fixation in place, whatever is selected. */
  lemma {:induction false} MoveListZero(s: seq<LogEntry>, sel: seq<Option<LogEntry>>)
    requires AllFixations(s)
    ensures MoveList(s, sel, 0.0, 0.0) == s
  {
    if sel != [] {
      MoveListZero(s, sel[..|sel| - 1]);
      TranslateZero(s, sel[|sel| - 1]);
    }
  }

  /** The edit after the translation loop of saveEdit. */
  function MoveSelected(e: FixationEdit, sel: seq<Option<LogEntry>>, dx: real, dy: real): (r: FixationEdit)
    requires EditOk(e)
    ensures EditOk(r)
  {
    e.(lfix := MoveList(e.lfix, sel, dx, dy), rfix := MoveList(e.rfix, sel, dx, dy),
       avgfix := MoveList(e.avgfix, sel, dx, dy))
  }

  /** Each eye that has fixations gets its saccades rebuilt from them. */
  function Reconnected(e: FixationEdit): (r: FixationEdit)
    requires EditOk(e)
    ensures EditOk(r)
  {
    e.(lsac := if e.lfix != [] then Connected(e.lfix) else e.lsac,
       rsac := if e.rfix != [] then Connected(e.rfix) else e.rsac,
       avgsac := if e.avgfix != [] then Connected(e.avgfix) else e.avgsac)
  }

  /** The edit saveEdit pushes: the current edit with the selection moved and the saccades rebuilt. */
  function SavedEdit(e: FixationEdit, sel: seq<Option<LogEntry>>, dx: real, dy: real): (r: FixationEdit)
    requires EditOk(e)
    ensures EditOk(r)
  {
    Reconnected(MoveSelected(e, sel, dx, dy))
  }

  /** One eye of a saved edit: its saccades connect its fixations, or are kept when it has none. */
  predicate EyeConnected(fix: seq<LogEntry>, sac: seq<LogEntry>, oldSac: seq<LogEntry>)
    requires AllFixations(fix)
  {
    if fix == [] then sac == oldSac
    else |sac| == |fix| - 1 && forall i :: 0 <= i < |sac| ==> sac[i] == ConnectPair(fix[i], fix[i + 1])
  }

  /**
   * In the pushed edit every eye keeps its number of fixations and their
   * types, times and durations; unselected fixations stay in place; and the
   * saccades of each eye with fixations connect those fixations.
   */
  lemma SavedEditShape(e: FixationEdit, sel: seq<Option<LogEntry>>, dx: real, dy: real)
    requires EditOk(e) && None !in sel
    ensures var r := SavedEdit(e, sel, dx, dy);
      && |r.lfix| == |e.lfix| && |r.rfix| == |e.rfix| && |r.avgfix| == |e.avgfix|
      && (forall i :: 0 <= i < |e.lfix| && Some(e.lfix[i]) !in sel ==> r.lfix[i] == e.lfix[i])
      && (forall i :: 0 <= i < |e.rfix| && Some(e.rfix[i]) !in sel ==> r.rfix[i] == e.rfix[i])
      && (forall i :: 0 <= i < |e.avgfix| && Some(e.avgfix[i]) !in sel ==> r.avgfix[i] == e.avgfix[i])
      && EyeConnected(r.lfix, r.lsac, e.lsac) && EyeConnected(r.rfix, r.rsac, e.rsac)
      && EyeConnected(r.avgfix, r.avgsac, e.avgsac)
  {
    MoveListUnselected(e.lfix, sel, dx, dy);
    MoveListUnselected(e.rfix, sel, dx, dy);
    MoveListUnselected(e.avgfix, sel, dx, dy);
  }

  /** Saving with a zero vector keeps every fixation and only rebuilds the saccades. */
  lemma SavedEditZero(e: FixationEdit, sel: seq<Option<LogEntry>>)
    requires EditOk(e)
    ensures SavedEdit(e, sel, 0.0, 0.0) == Reconnected(e)
  {
    MoveListZero(e.lfix, sel);
    MoveListZero(e.rfix, sel);
    MoveListZero(e.avgfix, sel);
  }

  // ---------------------------------------------------------------------
  // _pushInitialEdit

  predicate TrialOk(t: Trial)
  {
    AllFixations(t.loglfix) && AllFixations(t.logrfix) && AllFixations(t.logavgfix)
  }

  /** The first edit of a trial: its logged events, with saccades strung for an eye that has fixations but none logged. */
  function InitialEdit(t: Trial): (e: FixationEdit)
    requires TrialOk(t)
    ensures EditOk(e)
  {
    FixationEdit(t.loglfix, t.logrfix, t.logavgfix,
      if t.loglsac == [] && t.loglfix != [] then Connected(t.loglfix) else t.loglsac,
      if t.logrsac == [] && t.logrfix != [] then Connected(t.logrfix) else t.logrsac,
      if t.logavgsac == [] && t.logavgfix != [] then Connected(t.logavgfix) else t.logavgsac)
  }

  /**
   * The initial edit holds the logged fixations; an eye keeps its logged
   * saccades when it has any and otherwise gets saccades between its
   * consecutive fixations.
   */
  lemma InitialEditSaccades(t: Trial)
    requires TrialOk(t)
    ensures var e := InitialEdit(t);
      && e.lfix == t.loglfix && e.rfix == t.logrfix && e.avgfix == t.logavgfix
      && (t.loglsac != [] ==> e.lsac == t.loglsac)
      && (t.loglsac == [] ==> EyeConnected(t.loglfix, e.lsac, []))
      && (t.logrsac != [] ==> e.rsac == t.logrsac)
      && (t.logrsac == [] ==> EyeConnected(t.logrfix, e.rsac, []))
      && (t.logavgsac != [] ==> e.avgsac == t.logavgsac)
      && (t.logavgsac == [] ==> EyeConnected(t.logavgfix, e.avgsac, []))
  {
  }

  /** _pushInitialEdit's construction of the edit. */
  method BuildInitialEdit(t: Trial) returns (e: FixationEdit)
    requires TrialOk(t)
    ensures e == InitialEdit(t)
  {
    var lsac, rsac, avgsac := t.loglsac, t.logrsac, t.logavgsac;
    if lsac == [] && t.loglfix != [] {
      lsac := ConnectFixations(t.loglfix);
    }
    if rsac == [] && t.logrfix != [] {
      rsac := ConnectFixations(t.logrfix);
    }
    if avgsac == [] && t.logavgfix != [] {
      avgsac := ConnectFixations(t.logavgfix);
    }
    e := FixationEdit(t.loglfix, t.logrfix, t.logavgfix, lsac, rsac, avgsac);
  }

  // ---------------------------------------------------------------------
  // Visibility and the nearest fixation

  /** DataModel.showLeft: the main model extracts the left eye, or neither eye. */
  predicate ShowLeftEye(extractLeft: bool, extractRight: bool)
  {
    extractLeft || (!extractLeft && !extractRight)
  }

  /** DataModel.showRight: the main model extracts the right eye, or neither eye. */
  predicate ShowRightEye(extractLeft: bool, extractRight: bool)
  {
    extractRight || (!extractLeft && !extractRight)
  }

  /** DataModel.showAvg returns False before it reads the main model. */
  const ShowAvgEye: bool := false

  /** getVisible(): the fixations of the eyes shown whose lists are not empty, left, right, average. */
  function Visible(e: Option<FixationEdit>, extractLeft: bool, extractRight: bool): (v: seq<LogEntry>)
  {
    if e.None? then []
    else
      var edit := e.value;
      (if edit.lfix != [] && ShowLeftEye(extractLeft, extractRight) then edit.lfix else [])
      + (if edit.rfix != [] && ShowRightEye(extractLeft, extractRight) then edit.rfix else [])
      + (if edit.avgfix != [] && ShowAvgEye then edit.avgfix else [])
  }

  /** A fixation is visible exactly when it belongs to a shown eye of the current edit; average fixations never are. */
  lemma VisibleMembers(e: Option<FixationEdit>, extractLeft: bool, extractRight: bool, f: LogEntry)
    ensures f in Visible(e, extractLeft, extractRight) <==>
      e.Some? && ((ShowLeftEye(extractLeft, extractRight) && f in e.value.lfix)
        || (ShowRightEye(extractLeft, extractRight) && f in e.value.rfix))
  {
  }

  /** The key of _SortOnDistanceKey, squared: the order of distances is the order of their squares. */
  function SquaredDistance(f: LogEntry, px: real, py: real): (d: Num)
    requires f.Fixation?
    ensures d.Val? <==> f.x.Val? && f.y.Val?
    ensures d.Val? ==> d.v >= 0.0
  {
    var dx, dy := Sub(f.x, Val(px)), Sub(f.y, Val(py));
    if dx.Val? && dy.Val? then Val(dx.v * dx.v + dy.v * dy.v) else Gap
  }

  /**
   * The index of visible.sort(key=distance)[0]: the first fixation whose
   * distance no later one beats, which a stable sort puts in front.
   */
  function NearestIndex(v: seq<LogEntry>, px: real, py: real): (k: nat)
    requires v != [] && AllFixations(v)
    ensures k < |v|
  {
    if |v| == 1 then 0
    else
      var b := 1 + NearestIndex(v[1..], px, py);
      if Lt(SquaredDistance(v[b], px, py), SquaredDistance(v[0], px, py)) then b else 0
  }

  /** The fixation selectFixation returns from a non-empty visible list. */
  function Nearest(v: seq<LogEntry>, px: real, py: real): (f: LogEntry)
    requires v != [] && AllFixations(v)
    ensures f in v
  {
    v[NearestIndex(v, px, py)]
  }

  /** All fixations have a position. */
  predicate Positioned(v: seq<LogEntry>)
    requires AllFixations(v)
  {
    forall f :: f in v ==> f.x.Val? && f.y.Val?
  }

  /** When every fixation has a position, none is closer than the nearest one. */
  lemma {:induction false} NearestIsClosest(v: seq<LogEntry>, px: real, py: real)
    requires v != [] && AllFixations(v) && Positioned(v)
    ensures var k := NearestIndex(v, px, py);
      forall j :: 0 <= j < |v| ==> SquaredDistance(v[k], px, py).v <= SquaredDistance(v[j], px, py).v
  {
    if |v| > 1 {
      var rest := v[1..];
      NearestIsClosest(rest, px, py);
      var k := NearestIndex(v, px, py);
      var b := 1 + NearestIndex(rest, px, py);
      assert v[b] == rest[b - 1];
      forall j | 0 <= j < |v|
        ensures SquaredDistance(v[k], px, py).v <= SquaredDistance(v[j], px, py).v
      {
        if j > 0 {
          assert v[j] == rest[j - 1];
        }
      }
    }
  }

  /** When every fixation has a position, each one before the nearest is strictly farther away. */
  lemma {:induction false} NearestIsFirst(v: seq<LogEntry>, px: real, py: real)
    requires v != [] && AllFixations(v) && Positioned(v)
    ensures var k := NearestIndex(v, px, py);
      forall j :: 0 <= j < k ==> SquaredDistance(v[j], px, py).v > SquaredDistance(v[k], px, py).v
  {
    if |v| > 1 {
      var rest := v[1..];
      NearestIsFirst(rest, px, py);
      var k := NearestIndex(v, px, py);
      var b := 1 + NearestIndex(rest, px, py);
      assert v[b] == rest[b - 1];
      forall j | 0 <= j < k
        ensures SquaredDistance(v[j], px, py).v > SquaredDistance(v[k], px, py).v
      {
        if j > 0 {
          assert v[j] == rest[j - 1];
        }
      }
    }
  }

  /** The translation loop of saveEdit: for each selected fixation, every eye's fixations mapped through _TranslateFix. */
  method MoveSelection(e0: FixationEdit, sel: seq<Option<LogEntry>>, x: real, y: real) returns (edit: FixationEdit)
    requires EditOk(e0)
    ensures edit == MoveSelected(e0, sel, x, y)
  {
    edit := e0;
    for k := 0 to |sel|
      invariant EditOk(edit)
      invariant edit == MoveSelected(e0, sel[..k], x, y)
    {
      var i := sel[k];
      edit := edit.(lfix := TranslateAll(edit.lfix, x, y, i),
                    rfix := TranslateAll(edit.rfix, x, y, i),
                    avgfix := TranslateAll(edit.avgfix, x, y, i));
      assert sel[..k + 1][..k] == sel[..k];
    }
    assert sel[..|sel|] == sel;
  }

  /**
   * The selection after `list(map(_TranslateFix(dx, dy), selected))`, which
   * moves each selected fixation in place. A None raises AttributeError when
   * its `x` is read, so it and the entries after it stay as they were.
   */
  function ShiftSelection(sel: seq<Option<LogEntry>>, dx: real, dy: real): (r: seq<Option<LogEntry>>)
    requires SelectionOk(sel)
    ensures |r| == |sel| && SelectionOk(r)
    ensures forall i :: 0 <= i < |sel| ==> (r[i].None? <==> sel[i].None?)
    ensures forall i :: 0 <= i < |sel| && sel[i].Some? ==>
      r[i] == if None in sel[..i] then sel[i] else Some(TranslateFix(sel[i].value, dx, dy, None))
  {
    if sel == [] then []
    else if sel[0].None? then sel
    else
      var rest := ShiftSelection(sel[1..], dx, dy);
      assert forall i :: 1 <= i <= |sel| ==> sel[..i] == [sel[0]] + sel[1..][..i - 1];
      [Some(TranslateFix(sel[0].value, dx, dy, None))] + rest
  }

  /** The end of saveEdit: connectFixations for every eye that has fixations. */
  method Reconnect(e: FixationEdit) returns (edit: FixationEdit)
    requires EditOk(e)
    ensures edit == Reconnected(e)
  {
    edit := e;
    if edit.lfix != [] {
      var s := ConnectFixations(edit.lfix);
      edit := edit.(lsac := s);
    }
    if edit.rfix != [] {
      var s := ConnectFixations(edit.rfix);
      edit := edit.(rsac := s);
    }
    if edit.avgfix != [] {
      var s := ConnectFixations(edit.avgfix);
      edit := edit.(avgsac := s);
    }
  }

  // ---------------------------------------------------------------------
  // FixationEditModel

  class FixationEditModel {
    /** The undo history of the EditDataModel this model extends. */
    const history: EditDataModel<FixationEdit>
    /** `_selected`: fixations, and None for a click that found nothing. */
    var selected: seq<Option<LogEntry>>
    /** `_vector`: how far the selection is dragged. */
    var vector: (real, real)

    /**
     * The history is unbounded and its current edit exists whenever it is
     * not empty; edits hold fixations, and the selection fixations or None.
     */
    predicate Valid()
      reads this, history, history.stack
    {
      && history.stack.maxitems < 0
      && (history.stack.elems != [] ==> 0 <= history.nthUndo < |history.stack.elems|)
      && (forall e :: e in history.stack.elems ==> EditOk(e))
      && SelectionOk(selected)
    }

    constructor ()
      ensures Valid() && fresh(history) && fresh(history.stack)
      ensures history.stack.elems == [] && selected == [] && vector == (0.0, 0.0)
    {
      history := new EditDataModel();
      selected := [];
      vector := (0.0, 0.0);
    }

    /** getCurrentEdit() */
    function Current(): (e: Option<FixationEdit>)
      reads this, history, history.stack
      requires Valid()
      ensures e.None? <==> history.stack.elems == []
      ensures e.Some? ==> EditOk(e.value) && e.value in history.stack.elems
    {
      history.CurrentEdit().value
    }

    /** getVisible() with the main model's choice of eyes. */
    function GetVisible(extractLeft: bool, extractRight: bool): (v: seq<LogEntry>)
      reads this, history, history.stack
      requires Valid()
      ensures AllFixations(v)
    {
      Visible(Current(), extractLeft, extractRight)
    }

    /** getSelected(): the selected fixations that are visible, in selection order; None is never visible. */
    function GetSelected(extractLeft: bool, extractRight: bool): (r: seq<Option<LogEntry>>)
      reads this, history, history.stack
      requires Valid()
      ensures |r| <= |selected| && None !in r
      ensures forall f :: f in r <==> f in selected && f.Some? && f.value in GetVisible(extractLeft, extractRight)
      ensures forall f :: f in selected ==>
        multiset(r)[f] == if f.Some? && f.value in GetVisible(extractLeft, extractRight) then multiset(selected)[f] else 0
    {
      var visible := GetVisible(extractLeft, extractRight);
      FilterCount(selected, (f: Option<LogEntry>) => f.Some? && f.value in visible);
      Filter(selected, (f: Option<LogEntry>) => f.Some? && f.value in visible)
    }

    /** appendSelected(selection): a visible fixation, or selectFixation's None. */
    method AppendSelected(f: Option<LogEntry>)
      requires Valid() && (f.Some? ==> f.value.Fixation?)
      modifies this
      ensures selected == old(selected) + [f] && vector == old(vector) && Valid()
    {
      selected := selected + [f];
    }

    /** clearSelected() */
    method ClearSelected()
      requires Valid()
      modifies this
      ensures selected == [] && vector == old(vector) && Valid()
    {
      selected := [];
    }

    /** deselectFixation(selection): drops every selected fixation equal to it. */
    method DeselectFixation(sel: Option<LogEntry>)
      requires Valid()
      modifies this
      ensures forall f :: f in selected <==> f in old(selected) && f != sel
      ensures forall f :: f in old(selected) ==> multiset(selected)[f] == if f == sel then 0 else multiset(old(selected))[f]
      ensures |selected| <= |old(selected)| && vector == old(vector) && Valid()
    {
      FilterCount(selected, f => f != sel);
      selected := Filter(selected, f => f != sel);
    }

    /** setVector(vector) */
    method SetVector(v: (real, real))
      requires Valid()
      modifies this
      ensures vector == v && selected == old(selected) && Valid()
    {
      vector := v;
    }

    /** selectFixation(x, y): None when nothing is visible, else the nearest visible fixation. */
    function SelectFixation(px: real, py: real, extractLeft: bool, extractRight: bool): (r: Option<LogEntry>)
      reads this, history, history.stack
      requires Valid()
      ensures r.None? <==> GetVisible(extractLeft, extractRight) == []
      ensures r.Some? ==> r.value in GetVisible(extractLeft, extractRight)
    {
      var visible := GetVisible(extractLeft, extractRight);
      if visible == [] then None else Some(Nearest(visible, px, py))
    }

    /**
     * saveEdit(): with a selection, copies the current edit, moves the
     * fixations equal to each selected one by the vector, moves the
     * selection itself, rebuilds the saccades of every eye with fixations
     * and pushes the result. Without a current edit the copy is None and
     * reading its fixations raises AttributeError. A selected None moves
     * every fixation of the copy, and then raises AttributeError when the
     * selection is moved, before the push.
     */
    method SaveEdit() returns (r: Result<()>)
      requires Valid()
      modifies this, history, history.stack
      ensures Valid() && history.stack == old(history.stack) && vector == old(vector)
      ensures old(selected) == [] ==> (r.Ok? && selected == old(selected)
        && history.stack.elems == old(history.stack.elems) && history.nthUndo == old(history.nthUndo))
      ensures old(selected) != [] && old(Current()).None? ==> (r == Err(AttributeError)
        && selected == old(selected) && history.stack.elems == old(history.stack.elems)
        && history.nthUndo == old(history.nthUndo))
      ensures old(selected) != [] && old(Current()).Some? && None in old(selected) ==> (r == Err(AttributeError)
        && history.stack.elems == old(history.stack.elems) && history.nthUndo == old(history.nthUndo)
        && selected == ShiftSelection(old(selected), old(vector).0, old(vector).1))
      ensures old(selected) != [] && old(Current()).Some? && None !in old(selected) ==> (r.Ok?
        && history.stack.elems == AfterPush(old(history.stack.elems), old(history.nthUndo),
             SavedEdit(old(Current()).value, old(selected), old(vector).0, old(vector).1))
        && history.nthUndo == 0
        && |selected| == |old(selected)|
        && forall i :: 0 <= i < |selected| ==>
             selected[i] == Some(TranslateFix(old(selected)[i].value, old(vector).0, old(vector).1, None)))
    {
      if selected == [] {
        return Ok(());
      }
      var current := Current();
      if current.None? {
        return Err(AttributeError);
      }
      var (x, y) := vector;
      var moved := MoveSelection(current.value, selected, x, y);
      var raises := None in selected;
      selected := ShiftSelection(selected, x, y);
      if raises {
        return Err(AttributeError);
      }
      var edit := Reconnect(moved);
      PushKeepsEdits(history.stack.elems, history.nthUndo, edit);
      history.PushEdit(edit);
      r := Ok(());
    }

    /**
     * onNewTrial(): a fresh history holding the initial edit of the trial,
     * and an empty selection. Loading the stimulus picture is not modelled.
     */
    method OnNewTrial(t: Trial)
      requires Valid() && TrialOk(t)
      modifies this, history
      ensures fresh(history.stack) && history.stack.elems == [InitialEdit(t)] && history.nthUndo == 0
      ensures selected == [] && vector == old(vector) && Valid()
      ensures Current() == Some(InitialEdit(t))
    {
      var initial := BuildInitialEdit(t);
      history.OnNewTrial(initial);
      selected := [];
    }
  }

  /** Every edit on the history after a push is an earlier one or the pushed one. */
  lemma PushKeepsEdits(s: seq<FixationEdit>, nth: int, edit: FixationEdit)
    requires s != [] ==> 0 <= nth < |s|
    requires forall e :: e in s ==> EditOk(e)
    requires EditOk(edit)
    ensures forall e :: e in AfterPush(s, nth, edit) ==> EditOk(e)
    ensures AfterPush(s, nth, edit) != []
  {
    if s == [] {
      assert AfterPush(s, nth, edit) == [edit];
    } else {
      PushAfterUndo(s, nth, edit);
      var t := AfterPush(s, nth, edit);
      assert t == s[..|s| - nth] + [edit];
    }
  }
}
