// The Controller of gui/ispectorgui.py: it validates what the user enters
// and only then writes it into the model's settings. The model dictionary
// is a class with one field per key the controller writes; the conversions
// int(string) and float(string) arrive already done, as an Option that is
// None when the conversion raises ValueError.

module ISpectorGui {
  import opened Base
  import opened Num

  /** Python's `a <= b` on str: lexicographic by code point, a prefix first. */
  predicate StrLe(a: string, b: string)
    decreases |a|
  {
    a == [] || (b != [] && (a[0] < b[0] || (a[0] == b[0] && StrLe(a[1..], b[1..]))))
  }

  lemma {:induction false} StrLeRefl(a: string)
    ensures StrLe(a, a)
    decreases |a|
  {
    if a != [] {
      StrLeRefl(a[1..]);
    }
  }

  lemma {:induction false} StrLeTotal(a: string, b: string)
    ensures StrLe(a, b) || StrLe(b, a)
    decreases |a|
  {
    if a != [] && b != [] && a[0] == b[0] {
      StrLeTotal(a[1..], b[1..]);
    }
  }

  lemma {:induction false} StrLeAntisym(a: string, b: string)
    requires StrLe(a, b) && StrLe(b, a)
    ensures a == b
    decreases |a|
  {
    if a != [] {
      StrLeAntisym(a[1..], b[1..]);
      assert a == [a[0]] + a[1..] && b == [b[0]] + b[1..];
    }
  }

  lemma {:induction false} StrLeTrans(a: string, b: string, c: string)
    requires StrLe(a, b) && StrLe(b, c)
    ensures StrLe(a, c)
    decreases |a|
  {
    if a != [] && a[0] == b[0] && b[0] == c[0] {
      StrLeTrans(a[1..], b[1..], c[1..]);
    }
  }

  /** Ascending order, as list.sort() leaves a list of strings. */
  predicate Sorted(s: seq<string>)
  {
    forall i, j :: 0 <= i < j < |s| ==> StrLe(s[i], s[j])
  }

  /** No name occurs twice. */
  predicate NoDup(s: seq<string>)
  {
    forall i, j :: 0 <= i < j < |s| ==> s[i] != s[j]
  }

  /** Puts `x` in front of the first element that is not below it. */
  function Insert(x: string, s: seq<string>): (r: seq<string>)
    requires Sorted(s)
    ensures Sorted(r) && multiset(r) == multiset(s) + multiset{x}
  {
    if s == [] then [x]
    else if StrLe(x, s[0]) then
      forall j | 1 <= j < |s| {
        StrLeTrans(x, s[0], s[j]);
      }
      [x] + s
    else
      var t := Insert(x, s[1..]);
      StrLeTotal(x, s[0]);
      forall y | y in t
        ensures StrLe(s[0], y)
      {
        assert y in multiset(t);
        if y != x {
          assert y in multiset(s[1..]);
          var k :| 1 <= k < |s| && s[k] == y;
        }
      }
      ConsSorted(s[0], t);
      assert s == [s[0]] + s[1..];
      [s[0]] + t
  }

  lemma ConsSorted(a: string, t: seq<string>)
    requires Sorted(t) && forall y :: y in t ==> StrLe(a, y)
    ensures Sorted([a] + t)
  {
    forall i, j | 0 <= i < j < |t| + 1
      ensures StrLe(([a] + t)[i], ([a] + t)[j])
    {
      if i > 0 {
        assert ([a] + t)[i] == t[i - 1];
      }
      assert ([a] + t)[j] == t[j - 1];
    }
  }

  /** sorted(names): an ascending permutation of the names. */
  function SortStrings(s: seq<string>): (r: seq<string>)
    ensures Sorted(r) && multiset(r) == multiset(s)
  {
    if s == [] then []
    else
      assert s == s[..|s| - 1] + [s[|s| - 1]];
      Insert(s[|s| - 1], SortStrings(s[..|s| - 1]))
  }

  /** Two ascending lists with the same names start with the same name. */
  lemma SortedSameFirst(s: seq<string>, t: seq<string>)
    requires Sorted(s) && Sorted(t) && multiset(s) == multiset(t) && s != [] && t != []
    ensures s[0] == t[0]
  {
    assert t[0] in multiset(s) && s[0] in multiset(t);
    var i :| 0 <= i < |s| && s[i] == t[0];
    var j :| 0 <= j < |t| && t[j] == s[0];
    if i > 0 {
      assert StrLe(s[0], s[i]);
    } else {
      StrLeRefl(s[0]);
    }
    if j > 0 {
      assert StrLe(t[0], t[j]);
    } else {
      StrLeRefl(t[0]);
    }
    StrLeAntisym(s[0], t[0]);
  }

  /** Removing the same first name from two lists with the same names leaves the same names. */
  lemma DropFirst(s: seq<string>, t: seq<string>)
    requires multiset(s) == multiset(t) && s != [] && t != [] && s[0] == t[0]
    ensures multiset(s[1..]) == multiset(t[1..])
  {
    assert s == [s[0]] + s[1..] && t == [t[0]] + t[1..];
    assert multiset(s) == multiset{s[0]} + multiset(s[1..]);
    assert multiset(t) == multiset{t[0]} + multiset(t[1..]);
    forall y
      ensures multiset(s[1..])[y] == multiset(t[1..])[y]
    {
      assert multiset(s)[y] == multiset(t)[y];
    }
  }

  /** Two ascending lists with the same names are the same list: sorting has one answer. */
  lemma {:induction false} SortedUnique(s: seq<string>, t: seq<string>)
    requires Sorted(s) && Sorted(t) && multiset(s) == multiset(t)
    ensures s == t
    decreases |s|
  {
    assert |t| == |s| by {
      assert |multiset(s)| == |multiset(t)|;
    }
    if s != [] {
      SortedSameFirst(s, t);
      DropFirst(s, t);
      SortedUnique(s[1..], t[1..]);
      assert s == [s[0]] + s[1..] && t == [t[0]] + t[1..];
    }
  }

  /** The names of `names` not yet present, appended in order, as updateFiles' loop does. */
  function AddAbsent(files: seq<string>, names: seq<string>): (r: seq<string>)
  {
    if names == [] then files
    else
      var acc := AddAbsent(files, names[..|names| - 1]);
      var x := names[|names| - 1];
      if x in acc then acc else acc + [x]
  }

  /** The loop only appends; it ends up with every old name and every given name, and adds no duplicate. */
  lemma {:induction false} AddAbsentContents(files: seq<string>, names: seq<string>)
    ensures var r := AddAbsent(files, names);
      && |r| >= |files| && r[..|files|] == files
      && (forall x :: x in r <==> x in files || x in names)
      && (NoDup(files) ==> NoDup(r))
  {
    if names != [] {
      var init := names[..|names| - 1];
      AddAbsentContents(files, init);
      var acc := AddAbsent(files, init);
      assert forall x :: x in names <==> x in init || x == names[|names| - 1] by {
        assert names == init + [names[|names| - 1]];
      }
      if names[|names| - 1] !in acc {
        assert (acc + [names[|names| - 1]])[..|files|] == acc[..|files|];
      }
    }
  }

  /** The names that remain after removing `gone`, each once, in their first order. */
  function Remaining(files: seq<string>, gone: seq<string>): (r: seq<string>)
    ensures NoDup(r) && forall x :: x in r <==> x in files && x !in gone
  {
    if files == [] then []
    else
      var init := Remaining(files[..|files| - 1], gone);
      var x := files[|files| - 1];
      assert forall y :: y in files <==> y in files[..|files| - 1] || y == x by {
        assert files == files[..|files| - 1] + [x];
      }
      if x in gone || x in init then init else init + [x]
  }

  /** Two equal names at two positions count twice in the list's multiset. */
  lemma DupCounted(s: seq<string>, i: nat, j: nat)
    requires i < j < |s|
    ensures s[i] == s[j] ==> multiset(s)[s[i]] >= 2
  {
    assert s == s[..i] + [s[i]] + s[i + 1..j] + [s[j]] + s[j + 1..];
  }

  /** In a list without duplicates every name occurs at most once. */
  lemma {:induction false} MultiplicityNoDup(s: seq<string>, x: string)
    requires NoDup(s)
    ensures multiset(s)[x] <= 1
  {
    if s != [] {
      var init := s[..|s| - 1];
      assert s == init + [s[|s| - 1]];
      MultiplicityNoDup(init, x);
      if x == s[|s| - 1] {
        assert x !in init;
      }
    }
  }

  /** A list has no duplicates exactly when each name counts at most once in its multiset. */
  lemma NoDupIffSingle(s: seq<string>)
    ensures NoDup(s) <==> forall x :: multiset(s)[x] <= 1
  {
    if NoDup(s) {
      forall x
        ensures multiset(s)[x] <= 1
      {
        MultiplicityNoDup(s, x);
      }
    }
    if forall x :: multiset(s)[x] <= 1 {
      forall i, j | 0 <= i < j < |s|
        ensures s[i] != s[j]
      {
        DupCounted(s, i, j);
      }
    }
  }

  /** Sorting a list without duplicates keeps it without duplicates. */
  lemma SortKeepsNoDup(s: seq<string>)
    requires NoDup(s)
    ensures NoDup(SortStrings(s))
  {
    NoDupIffSingle(s);
    NoDupIffSingle(SortStrings(s));
  }

  /** What removeSelected stores: ascending, each name once, exactly the names that remain. */
  lemma SortedRemaining(files: seq<string>, gone: seq<string>)
    ensures var r := SortStrings(Remaining(files, gone));
      Sorted(r) && NoDup(r) && forall x :: x in r <==> x in files && x !in gone
  {
    var rem := Remaining(files, gone);
    SortKeepsNoDup(rem);
    var r := SortStrings(rem);
    forall x
      ensures x in r <==> x in rem
    {
      assert x in r <==> x in multiset(r);
      assert x in rem <==> x in multiset(rem);
    }
  }

  /** The kinds of threshold for fixation detection. */
  const MEAN: string := "mean"
  const MEDIAN: string := "median"

  /** Qt.CheckState values a check box reports. */
  const UNCHECKED: int := 0
  const CHECKED: int := 2

  /** The command-line options the model takes its settings from. */
  datatype Arguments = Arguments(
    smooth: bool, swin: int, sorder: int, threshold: string, nthres: Num,
    drawSaccades: bool, compare: bool, action: string,
    extractLeft: bool, extractRight: bool, files: seq<string>)

  /** The keys of the model dictionary. */
  class Model {
    var extractLeft: bool
    var extractRight: bool
    var smooth: bool
    var smoothWin: int
    var smoothOrder: int
    var threshold: string
    var nThreshold: Num
    var drawSaccades: bool
    var compare: bool
    var files: seq<string>
    var selected: seq<string>
    var action: string
    var status: string

    /**
     * Model(cmdargs): the files remembered in the configuration file, unless
     * the command line names some; every other setting from the command line;
     * nothing selected and the status "ready".
     */
    constructor (args: Arguments, configFiles: seq<string>)
      ensures files == if args.files != [] then args.files else configFiles
      ensures selected == [] && status == "ready"
      ensures smooth == args.smooth && smoothWin == args.swin && smoothOrder == args.sorder
      ensures threshold == args.threshold && nThreshold == args.nthres
      ensures drawSaccades == args.drawSaccades && compare == args.compare && action == args.action
      ensures extractLeft == args.extractLeft && extractRight == args.extractRight
    {
      files := configFiles;
      if args.files != [] {
        files := args.files;
      }
      selected := [];
      smooth, smoothWin, smoothOrder := args.smooth, args.swin, args.sorder;
      threshold, nThreshold := args.threshold, args.nthres;
      drawSaccades, compare, action := args.drawSaccades, args.compare, args.action;
      extractLeft, extractRight := args.extractLeft, args.extractRight;
      status := "ready";
    }
  }

  class Controller {
    const model: Model

    /**
     * Controller(model, view) and _initModel: the status becomes "ready", the
     * files become the sorted set of those that are real files, and the first
     * of them is appended to the selection. Whether a name is a file is a
     * parameter.
     */
    constructor (model: Model, isFile: string -> bool)
      modifies model`status, model`files, model`selected
      ensures this.model == model
      ensures model.status == "ready"
      ensures Sorted(model.files) && NoDup(model.files)
      ensures forall x :: x in model.files <==> x in old(model.files) && isFile(x)
      ensures model.selected == old(model.selected) + (if model.files == [] then [] else [model.files[0]])
    {
      this.model := model;
      new;
      model.status := "ready";
      var existing := Filter(model.files, isFile);
      SortedRemaining(existing, []);
      model.files := SortStrings(Remaining(existing, []));
      if model.files != [] {
        model.selected := model.selected + [model.files[0]];
      }
    }

    /** updateAction(string) */
    method UpdateAction(s: string)
      modifies model`action
      ensures model.action == s
      ensures model.files == old(model.files) && model.selected == old(model.selected)
    {
      model.action := s;
    }

    /** updateStatus(string) */
    method UpdateStatus(s: string)
      modifies model`status
      ensures model.status == s
      ensures model.files == old(model.files) && model.selected == old(model.selected)
    {
      model.status := s;
    }

    /** updateEye: left, right or both (both flags off), anything else is a RuntimeError. */
    method UpdateEye(s: string) returns (r: Result<()>)
      modifies model`extractLeft, model`extractRight
      ensures r.Ok? <==> s == "left" || s == "right" || s == "both"
      ensures r.Err? ==> r.error == RuntimeError
      ensures s == "left" ==> model.extractLeft && !model.extractRight
      ensures s == "right" ==> !model.extractLeft && model.extractRight
      ensures s == "both" ==> !model.extractLeft && !model.extractRight
      ensures r.Err? ==> model.extractLeft == old(model.extractLeft) && model.extractRight == old(model.extractRight)
      ensures model.smooth == old(model.smooth) && model.files == old(model.files)
    {
      if s == "left" {
        model.extractLeft := true;
        model.extractRight := false;
      } else if s == "right" {
        model.extractLeft := false;
        model.extractRight := true;
      } else if s == "both" {
        model.extractLeft := false;
        model.extractRight := false;
      } else {
        return Err(RuntimeError);
      }
      return Ok(());
    }

    /** updateSmooth: the flag follows a checked or unchecked box; another state is a ValueError. */
    method UpdateSmooth(state: int) returns (r: Result<()>)
      modifies model`smooth
      ensures r.Ok? <==> state == CHECKED || state == UNCHECKED
      ensures r.Err? ==> r.error == ValueError && model.smooth == old(model.smooth)
      ensures r.Ok? ==> (model.smooth <==> state == CHECKED)
      ensures model.smoothWin == old(model.smoothWin) && model.files == old(model.files)
    {
      if state == CHECKED {
        if model.smooth {
          return Ok(());
        }
      } else if state == UNCHECKED {
        if !model.smooth {
          return Ok(());
        }
      } else {
        return Err(ValueError);
      }
      model.smooth := !model.smooth;
      return Ok(());
    }

    /** updateSmoothWindowSize: only an odd window of at least 3 is stored. */
    method UpdateSmoothWindowSize(value: Option<int>) returns (r: Result<()>)
      modifies model`smoothWin
      ensures r.Ok? <==> value.Some? && value.value % 2 == 1 && value.value >= 3
      ensures r.Ok? ==> model.smoothWin == value.value
      ensures r.Err? ==> r.error == ValueError && model.smoothWin == old(model.smoothWin)
      ensures model.smoothOrder == old(model.smoothOrder) && model.files == old(model.files)
    {
      if value.None? {
        return Err(ValueError);
      }
      var v := value.value;
      if v % 2 == 0 || v < 3 {
        return Err(ValueError);
      }
      model.smoothWin := v;
      return Ok(());
    }

    /** updateSmoothOrder: an order below 1 is a ValueError. */
    method UpdateSmoothOrder(value: Option<int>) returns (r: Result<()>)
      modifies model`smoothOrder
      ensures r.Ok? <==> value.Some? && value.value >= 1
      ensures r.Ok? ==> model.smoothOrder == value.value
      ensures r.Err? ==> r.error == ValueError && model.smoothOrder == old(model.smoothOrder)
      ensures model.smoothWin == old(model.smoothWin) && model.files == old(model.files)
    {
      if value.None? {
        return Err(ValueError);
      }
      var v := value.value;
      if v < 1 {
        return Err(ValueError);
      }
      model.smoothOrder := v;
      return Ok(());
    }

    /** updateThreshold: exactly "mean" or "median". */
    method UpdateThreshold(s: string) returns (r: Result<()>)
      modifies model`threshold
      ensures r.Ok? <==> s == MEAN || s == MEDIAN
      ensures r.Ok? ==> model.threshold == s
      ensures r.Err? ==> r.error == ValueError && model.threshold == old(model.threshold)
      ensures model.nThreshold == old(model.nThreshold) && model.files == old(model.files)
    {
      if s == MEAN {
        model.threshold := MEAN;
      } else if s == MEDIAN {
        model.threshold := MEDIAN;
      } else {
        return Err(ValueError);
      }
      return Ok(());
    }

    /**
     * updateNThreshold: a value at or below zero is ignored without an error;
     * NaN is not at or below zero, so it is stored.
     */
    method UpdateNThreshold(value: Option<Num>) returns (r: Result<()>)
      modifies model`nThreshold
      ensures r.Ok? <==> value.Some?
      ensures r.Err? ==> r.error == ValueError
      ensures value.Some? && (value.value.Gap? || value.value.v > 0.0) ==> model.nThreshold == value.value
      ensures value.None? || (value.value.Val? && value.value.v <= 0.0) ==> model.nThreshold == old(model.nThreshold)
      ensures model.threshold == old(model.threshold) && model.files == old(model.files)
    {
      if value.None? {
        return Err(ValueError);
      }
      var v := value.value;
      if v.Val? && v.v <= 0.0 {
        return Ok(());
      }
      model.nThreshold := v;
      return Ok(());
    }

    /** updateFiles: appends the names not yet in the list, then sorts the list. */
    method UpdateFiles(names: seq<string>)
      modifies model`files
      ensures model.files == SortStrings(AddAbsent(old(model.files), names))
      ensures Sorted(model.files)
      ensures forall x :: x in model.files <==> x in old(model.files) || x in names
      ensures NoDup(old(model.files)) ==> NoDup(model.files)
      ensures model.selected == old(model.selected)
    {
      var i := 0;
      while i < |names|
        invariant 0 <= i <= |names|
        invariant model.files == AddAbsent(old(model.files), names[..i])
        invariant model.selected == old(model.selected)
      {
        assert names[..i + 1][..i] == names[..i];
        if !(names[i] in model.files) {
          model.files := model.files + [names[i]];
        }
        i := i + 1;
      }
      assert names[..i] == names;
      AddAbsentContents(old(model.files), names);
      var appended := model.files;
      model.files := SortStrings(appended);
      assert forall x :: x in model.files <==> x in multiset(appended);
      if NoDup(old(model.files)) {
        SortKeepsNoDup(appended);
      }
    }

    /** updateSelected: the selection becomes the given names, sorted. */
    method UpdateSelected(names: seq<string>)
      modifies model`selected
      ensures model.selected == SortStrings(names) && model.files == old(model.files)
    {
      var sorted := SortStrings(names);
      if sorted != model.selected {
        model.selected := sorted;
      }
    }

    /** removeSelected: the files become the sorted set of the old ones minus the given ones; nothing stays selected. */
    method RemoveSelected(names: seq<string>)
      modifies model`files, model`selected
      ensures model.selected == []
      ensures Sorted(model.files) && NoDup(model.files)
      ensures forall x :: x in model.files <==> x in old(model.files) && x !in names
    {
      var remaining := Remaining(model.files, names);
      SortedRemaining(model.files, names);
      model.selected := [];
      model.files := SortStrings(remaining);
    }
  }

  /** The file list removeSelected leaves is the only ascending duplicate-free list of the remaining names. */
  lemma RemovedIsSortedSet(files: seq<string>, gone: seq<string>, other: seq<string>)
    requires Sorted(other) && NoDup(other)
    requires forall x :: x in other <==> x in files && x !in gone
    ensures SortStrings(Remaining(files, gone)) == other
  {
    var r := SortStrings(Remaining(files, gone));
    SortedRemaining(files, gone);
    NoDupIffSingle(r);
    NoDupIffSingle(other);
    forall x
      ensures multiset(r)[x] == multiset(other)[x]
    {
      assert x in r <==> x in multiset(r);
      assert x in other <==> x in multiset(other);
    }
    assert multiset(r) == multiset(other);
    SortedUnique(r, other);
  }
}
