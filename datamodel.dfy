// The models and controller of gui/datamodel.py that keep the position of
// the viewer: the file and trial indices of a DataModel, the clamping
// setters of the ExamineDataController, and the undo/redo history of an
// EditDataModel, which keeps every edit on a Stack and counts how many of
// the newest edits have been undone.

module DataModels {
  import opened Base
  import opened Stacks

  // ---------------------------------------------------------------------
  // Undo/redo arithmetic of EditDataModel

  /** nth_undo after undoEdit: one more, but never past the oldest edit. */
  function UndoIndex(nth: int, len: nat): int
  {
    if nth + 1 >= len then len - 1 else nth + 1
  }

  /** nth_undo after redoEdit: one less, but never below zero. */
  function RedoIndex(nth: int): int
  {
    if nth - 1 < 0 then 0 else nth - 1
  }

  /** Undo and redo keep nth_undo on an edit of a non-empty history, and redo undoes an undo. */
  lemma UndoRedoBounds(nth: int, len: nat)
    requires 0 <= nth < len
    ensures 0 <= UndoIndex(nth, len) < len && UndoIndex(nth, len) >= nth
    ensures 0 <= RedoIndex(nth) < len && RedoIndex(nth) <= nth
    ensures UndoIndex(nth, len) == nth <==> nth == len - 1
    ensures RedoIndex(nth) == nth <==> nth == 0
    ensures nth + 1 < len ==> RedoIndex(UndoIndex(nth, len)) == nth
  {
  }

  /** Undo on an empty history leaves nth_undo at -1, which a redo brings back to 0. */
  lemma UndoEmptyHistory(nth: int)
    requires nth >= 0
    ensures UndoIndex(nth, 0) == -1 && RedoIndex(UndoIndex(nth, 0)) == 0
  {
  }

  /** The history after pushEdit: the undone edits are discarded, then the edit is pushed. */
  function AfterPush<E>(s: seq<E>, nth: int, edit: E): seq<E>
  {
    Pushed(if nth != 0 then Shrunk(s, nth) else s, -1, edit)
  }

  /**
   * After pushEdit the new edit is on top and the edit that was current
   * lies directly beneath it; the `nth` edits above the current one are gone.
   */
  lemma {:induction false} PushAfterUndo<E>(s: seq<E>, nth: int, edit: E)
    requires 0 <= nth < |s|
    ensures var t := AfterPush(s, nth, edit);
      |t| == |s| - nth + 1 && t[|t| - 1] == edit && t[|t| - 2] == s[|s| - 1 - nth]
      && t[..|t| - 1] == s[..|s| - nth]
  {
    ShrunkNewest(s, nth);
    var kept := if nth != 0 then Shrunk(s, nth) else s;
    assert kept == s[..|s| - nth];
    PushedPop(kept, -1, edit);
  }

  /** isEditted: more edits on the stack than the initial one once undos are taken off. */
  predicate Edited(len: nat, nth: int)
  {
    len - nth > 1
  }

  /** Right after a new trial (one edit, nothing undone) nothing is edited; one push later it is. */
  lemma EditedAfterPush<E>(s: seq<E>, nth: int, edit: E)
    requires 0 <= nth < |s|
    ensures Edited(|AfterPush(s, nth, edit)|, 0)
    ensures !Edited(1, 0)
  {
    PushAfterUndo(s, nth, edit);
  }

  // ---------------------------------------------------------------------
  // Index clamping of ExamineDataController

  /** setFileIndex's clamping: two separate tests, so an empty list gives -1. */
  function ClampFile(n: int, count: nat): int
  {
    var a := if n < 0 then 0 else n;
    if a >= count then count - 1 else a
  }

  /** setTrialIndex's clamping: if/elif, so a negative index gives 0 even with no trials. */
  function ClampTrial(n: int, count: nat): int
  {
    if n < 0 then 0 else if n >= count then count - 1 else n
  }

  /** With something to choose from, both clamp into range, to the nearest end, and keep valid indices. */
  lemma ClampInRange(n: int, count: nat)
    requires count > 0
    ensures 0 <= ClampFile(n, count) < count && ClampFile(n, count) == ClampTrial(n, count)
    ensures 0 <= n < count ==> ClampFile(n, count) == n
    ensures n < 0 ==> ClampFile(n, count) == 0
    ensures n >= count ==> ClampFile(n, count) == count - 1
  {
  }

  /** With nothing to choose from the two clampings differ for negative indices. */
  lemma ClampEmpty(n: int)
    ensures ClampFile(n, 0) == -1
    ensures ClampTrial(n, 0) == if n < 0 then 0 else -1
  {
  }

  // ---------------------------------------------------------------------
  // Classes

  /**
   * The position part of DataModel. Loading a file is reading, parsing and
   * segmenting it; its outcome (the number of trials, False, or an
   * exception) is a parameter.
   *
   * The two hooks are those of ExamineDataModel and DataModel: the
   * `onFileLoaded` that loadEyeFile calls is ExamineDataModel's, which does
   * nothing (the base class raises NotImplementedError there); the
   * `onNewTrial` that setTrialIndex calls is the base class's, which does
   * nothing. What the subclasses' onNewTrial does is modelled by
   * ExamineDataController.SetTrialIndex (processTrial of the trial shown)
   * and EditDataModel.OnNewTrial (a fresh history).
   */
  class DataModel {
    var files: seq<string>
    var fileindex: int
    /** len(self.trials) of the loaded experiment. */
    var trialCount: nat
    var trialindex: int
    /** The index of the file whose experiment is loaded. */
    var loadedFrom: int
    /** The trial whose eye data _loadEyeData last computed. */
    var shownTrial: int

    constructor (files: seq<string>)
      ensures this.files == files && fileindex == -1 && trialindex == -1
      ensures trialCount == 0 && loadedFrom == -1 && shownTrial == -1
    {
      this.files := files;
      fileindex := -1;
      trialCount := 0;
      trialindex := -1;
      loadedFrom := -1;
      shownTrial := -1;
    }

    /**
     * loadEyeFile(). `loaded` is what reading, parsing and segmenting
     * files[fileindex] gives: the number of trials, None where the source
     * returns False (no entries after parsing and the eye filter), or the
     * exception EyeExperiment raises, which propagates. Only on success do
     * the file's trials replace the old ones.
     */
    method LoadEyeFile(loaded: Result<Option<nat>>) returns (r: Result<bool>)
      modifies this
      ensures loaded.Err? ==> r == Err(loaded.error)
      ensures loaded.Ok? ==> r == Ok(loaded.value.Some?)
      ensures r == Ok(true) ==> trialCount == loaded.value.value && loadedFrom == fileindex
      ensures r != Ok(true) ==> unchanged(this)
      ensures files == old(files) && fileindex == old(fileindex)
      ensures trialindex == old(trialindex) && shownTrial == old(shownTrial)
    {
      var count :- loaded;
      if count.None? {
        return Ok(false);
      }
      trialCount := count.value;
      loadedFrom := fileindex;
      return Ok(true);
    }

    /**
     * setFileIndex(n): asserts 0 <= n < len(files); a new index is stored
     * and then loads that file, whose exception propagates with the new
     * index already stored.
     */
    method SetFileIndex(n: int, loaded: Result<Option<nat>>) returns (r: Result<()>)
      modifies this
      ensures files == old(files)
      ensures !(0 <= n < |files|) ==> r == Err(AssertionError) && unchanged(this)
      ensures 0 <= n < |files| && n == old(fileindex) ==> r == Ok(()) && unchanged(this)
      ensures 0 <= n < |files| && n != old(fileindex) ==>
        && fileindex == n
        && (r.Ok? <==> loaded.Ok?)
        && (loaded.Err? ==> r == Err(loaded.error))
        && (loaded.Ok? && loaded.value.Some? ==> trialCount == loaded.value.value && loadedFrom == n)
        && (loaded.Err? || loaded.value.None? ==> trialCount == old(trialCount) && loadedFrom == old(loadedFrom))
        && trialindex == old(trialindex) && shownTrial == old(shownTrial)
    {
      if !(0 <= n < |files|) {
        return Err(AssertionError);
      }
      if n == fileindex {
        return Ok(());
      }
      fileindex := n;
      var _ :- LoadEyeFile(loaded);
      return Ok(());
    }

    /** setTrialIndex(n): asserts 0 <= n < len(trials); a new index starts a new trial. */
    method SetTrialIndex(n: int) returns (r: Result<()>)
      modifies this
      ensures r.Ok? <==> 0 <= n < trialCount
      ensures r.Err? ==> r.error == AssertionError
      ensures r.Err? || n == old(trialindex) ==> unchanged(this)
      ensures r.Ok? ==> trialindex == n
      ensures files == old(files) && fileindex == old(fileindex) && trialCount == old(trialCount)
      ensures loadedFrom == old(loadedFrom) && shownTrial == old(shownTrial)
    {
      if !(0 <= n < trialCount) {
        return Err(AssertionError);
      }
      if n == trialindex {
        return Ok(());
      }
      trialindex := n;
      return Ok(());
    }
  }

  /** ExamineDataController: index setters that clamp instead of asserting. */
  class ExamineDataController {
    var model: DataModel

    /** __init__(model) up to storing the model; Init does the rest. */
    constructor (model: DataModel)
      ensures this.model == model
    {
      this.model := model;
    }

    /**
     * The rest of __init__: load the eye file of the current index and, if
     * that worked, show trial 0. `loaded` is the outcome of reading, parsing
     * and segmenting the file, `processed` that of processTrial on the trial
     * shown. An exception of the load propagates out of __init__.
     */
    method Init(loaded: Result<Option<nat>>, processed: Result<()>) returns (r: Result<()>)
      modifies model
      ensures model == old(model)
      ensures loaded.Err? ==> r == Err(loaded.error) && unchanged(model)
      ensures loaded == Ok(None) ==> r == Ok(()) && unchanged(model)
      ensures loaded.Ok? && loaded.value.Some? ==>
        && model.trialCount == loaded.value.value && model.loadedFrom == model.fileindex
        && model.trialindex == ClampTrial(0, model.trialCount)
        && (r.Ok? <==> model.trialCount > 0 && processed.Ok?)
        && (model.trialCount == 0 ==> r == Err(IndexError))
        && (model.trialCount > 0 ==> r == processed && model.shownTrial == 0)
      ensures model.files == old(model.files) && model.fileindex == old(model.fileindex)
    {
      var ok :- model.LoadEyeFile(loaded);
      if !ok {
        return Ok(());
      }
      r := SetTrialIndex(0, processed);
    }

    /**
     * setFileIndex(n): nothing for the current index, otherwise the clamped
     * index goes to the model, whose assertion fails only for an empty list.
     */
    method SetFileIndex(n: int, loaded: Result<Option<nat>>) returns (r: Result<()>)
      modifies model
      ensures model == old(model)
      ensures n == old(model.fileindex) ==> r == Ok(()) && unchanged(model)
      ensures n != old(model.fileindex) && model.files == [] ==> r == Err(AssertionError) && unchanged(model)
      ensures n != old(model.fileindex) && model.files != [] ==>
        && model.fileindex == ClampFile(n, |model.files|)
        && 0 <= model.fileindex < |model.files|
        && (model.fileindex == old(model.fileindex) ==> r == Ok(()) && unchanged(model))
        && (model.fileindex != old(model.fileindex) ==> (r.Ok? <==> loaded.Ok?))
        && (model.fileindex != old(model.fileindex) && loaded.Err? ==> r == Err(loaded.error))
        && (model.fileindex != old(model.fileindex) && loaded.Ok? && loaded.value.Some? ==>
              model.trialCount == loaded.value.value && model.loadedFrom == model.fileindex)
        && (model.fileindex != old(model.fileindex) && (loaded.Err? || loaded.value.None?) ==>
              model.trialCount == old(model.trialCount) && model.loadedFrom == old(model.loadedFrom))
      ensures model.shownTrial == old(model.shownTrial)
      ensures model.files == old(model.files) && model.trialindex == old(model.trialindex)
    {
      if n == model.fileindex {
        return Ok(());
      }
      var m := n;
      if m < 0 {
        m := 0;
      }
      if m >= |model.files| {
        m := |model.files| - 1;
      }
      assert m == ClampFile(n, |model.files|);
      if |model.files| > 0 {
        ClampInRange(n, |model.files|);
      }
      r := model.SetFileIndex(m, loaded);
    }

    /**
     * setTrialIndex(n): stores the clamped index directly and computes that
     * trial's eye data. With no trials the index is -1 and looking the trial
     * up fails with IndexError; otherwise the outcome is that of
     * processTrial, given as `processed`.
     */
    method SetTrialIndex(n: int, processed: Result<()>) returns (r: Result<()>)
      modifies model
      ensures model == old(model)
      ensures model.trialindex == ClampTrial(n, model.trialCount)
      ensures r.Ok? <==> model.trialCount > 0 && processed.Ok?
      ensures model.trialCount == 0 ==> r == Err(IndexError) && model.shownTrial == old(model.shownTrial)
      ensures model.trialCount > 0 ==> r == processed
      ensures model.trialCount > 0 ==> 0 <= model.trialindex < model.trialCount && model.shownTrial == model.trialindex
      ensures model.files == old(model.files) && model.fileindex == old(model.fileindex)
      ensures model.trialCount == old(model.trialCount) && model.loadedFrom == old(model.loadedFrom)
    {
      model.trialindex := n;
      if model.trialindex < 0 {
        model.trialindex := 0;
      } else if model.trialindex >= model.trialCount {
        model.trialindex := model.trialCount - 1;
      }
      if !(0 <= model.trialindex < model.trialCount) {
        return Err(IndexError);
      }
      model.shownTrial := model.trialindex;
      return processed;
    }
  }

  /**
   * The edit history of EditDataModel: a stack of edits, newest on top, and
   * the number of newest edits that are undone. The initial edit of a
   * trial is supplied by the derived model.
   */
  class EditDataModel<E> {
    var stack: Stack<E>
    var nthUndo: int

    constructor ()
      ensures stack.elems == [] && stack.maxitems < 0 && nthUndo == 0
      ensures fresh(stack)
    {
      stack := new Stack([], -1);
      nthUndo := 0;
    }

    /** undoEdit() */
    method UndoEdit()
      modifies this
      ensures nthUndo == UndoIndex(old(nthUndo), |stack.elems|) && stack == old(stack)
    {
      nthUndo := nthUndo + 1;
      if nthUndo >= stack.Length() {
        nthUndo := stack.Length() - 1;
      }
    }

    /** redoEdit() */
    method RedoEdit()
      modifies this
      ensures nthUndo == RedoIndex(old(nthUndo)) && stack == old(stack)
    {
      nthUndo := nthUndo - 1;
      if nthUndo < 0 {
        nthUndo := 0;
      }
    }

    /** pushEdit(edit): drops the undone edits, resets nth_undo and pushes the edit. */
    method PushEdit(edit: E)
      requires stack.maxitems < 0
      modifies this, stack
      ensures stack == old(stack) && nthUndo == 0
      ensures stack.elems == AfterPush(old(stack.elems), old(nthUndo), edit)
      ensures stack.maxitems == old(stack.maxitems)
    {
      if nthUndo != 0 {
        stack.Shrink(nthUndo);
        nthUndo := 0;
      }
      stack.Push(edit);
    }

    /** getCurrentEdit(): the edit nth_undo below the top, or None with an empty history. */
    function CurrentEdit(): (r: Result<Option<E>>)
      reads this, stack
      ensures stack.elems == [] ==> r == Ok(None)
      ensures stack.elems != [] && 0 <= nthUndo < |stack.elems| ==>
        r == Ok(Some(stack.elems[|stack.elems| - 1 - nthUndo]))
      ensures stack.elems != [] && !(0 <= nthUndo < |stack.elems|) ==> r == Err(AssertionError)
    {
      if stack.Length() != 0 then
        match stack.Get(nthUndo)
        case Ok(e) => Ok(Some(e))
        case Err(err) => Err(err)
      else Ok(None)
    }

    /** isEditted() */
    predicate IsEditted()
      reads this, stack
    {
      Edited(|stack.elems|, nthUndo)
    }

    /** onNewTrial(): a fresh stack, nothing undone, then the initial edit of the trial. */
    method OnNewTrial(initial: E)
      modifies this
      ensures fresh(stack) && stack.elems == [initial] && stack.maxitems < 0 && nthUndo == 0
      ensures CurrentEdit() == Ok(Some(initial)) && !IsEditted()
    {
      stack := new Stack([], -1);
      nthUndo := 0;
      stack.Push(initial);
    }
  }
}
