// data/bmptopng.py: rewrites the stimulus names of a text from ".bmp" to
// ".png" with the substitution (\d+\.)bmp -> \1png, scanning left to right
// for non-overlapping matches as re.sub does.

module BmpToPng {
  import opened Text

  /** A match of the pattern whose dot is at `i`: a digit before it and "bmp" after it. */
  predicate MatchAt(s: string, i: int)
  {
    1 <= i && i + 4 <= |s| && IsDigit(s[i - 1]) && s[i] == '.'
    && s[i + 1] == 'b' && s[i + 2] == 'm' && s[i + 3] == 'p'
  }

  /** Some digits, a dot and "bmp" occur in `s`. */
  predicate Occurs(s: string)
  {
    exists i :: 1 <= i < |s| && MatchAt(s, i)
  }

  /** replace_match(m): group 1 (the digits and the dot) followed by "png". */
  function ReplaceMatch(group1: string): (r: string)
    ensures |r| == |group1| + 3 && r[..|group1|] == group1
    ensures r[|group1|] == 'p' && r[|group1| + 1] == 'n' && r[|group1| + 2] == 'g'
  {
    group1 + "png"
  }

  /**
   * The reference for the whole substitution, character by character: the
   * "bmp" after the dot of every match becomes "png", every other character
   * stays.
   */
  function Expected(s: string, j: int): char
    requires 0 <= j < |s|
  {
    if MatchAt(s, j - 1) then 'p' else if MatchAt(s, j - 2) then 'n' else if MatchAt(s, j - 3) then 'g' else s[j]
  }

  /** The end of the run of digits that starts at `i`. */
  function DigitsEnd(s: string, i: nat): (e: nat)
    requires i <= |s|
    ensures i <= e <= |s|
    ensures forall k :: i <= k < e ==> IsDigit(s[k])
    ensures e < |s| ==> !IsDigit(s[e])
    decreases |s| - i
  {
    if i == |s| || !IsDigit(s[i]) then i else DigitsEnd(s, i + 1)
  }

  /**
   * Where the scan goes on after position `i`: past a whole match, past a run
   * of digits that is not followed by ".bmp" (re.sub tries every start inside
   * the run and each fails the same way), or past one other character.
   */
  function Step(s: string, i: nat): (m: nat)
    requires i < |s|
    ensures i < m <= |s|
  {
    var e := DigitsEnd(s, i);
    if !IsDigit(s[i]) then i + 1 else if MatchAt(s, e) then e + 4 else e
  }

  /** What the scan writes for the characters from `i` up to `Step(s, i)`. */
  function Written(s: string, i: nat): (w: string)
    requires i < |s|
    ensures |w| == Step(s, i) - i
  {
    var e := DigitsEnd(s, i);
    if !IsDigit(s[i]) then [s[i]] else if MatchAt(s, e) then ReplaceMatch(s[i..e + 1]) else s[i..e]
  }

  /** The substitution applied to the text from `i` on. */
  function ScanFrom(s: string, i: nat): (r: string)
    requires i <= |s|
    ensures |r| == |s| - i
    decreases |s| - i
  {
    if i == |s| then [] else Written(s, i) + ScanFrom(s, Step(s, i))
  }

  /** modify(content): regex.sub(replace_match, content). */
  function Modify(s: string): (r: string)
    ensures |r| == |s|
  {
    ScanFrom(s, 0)
  }

  /** A place where the scan may stand: no match is under way there or starts just before it. */
  predicate Boundary(s: string, i: int)
  {
    0 <= i <= |s| && !MatchAt(s, i) && !MatchAt(s, i - 1) && !MatchAt(s, i - 2) && !MatchAt(s, i - 3)
  }

  /** Going on past one character that is not a digit keeps the scan at a boundary. */
  lemma StepOther(s: string, i: nat)
    requires Boundary(s, i) && i < |s| && !IsDigit(s[i])
    ensures Boundary(s, Step(s, i))
    ensures Written(s, i)[0] == Expected(s, i)
  {
  }

  /** Inside the run of digits the scan starts at, and at the character after it, the reference keeps the text. */
  lemma KeptInRun(s: string, i: nat, j: int)
    requires Boundary(s, i) && i < |s| && IsDigit(s[i]) && i <= j <= DigitsEnd(s, i) && j < |s|
    ensures Expected(s, j) == s[j]
  {
    assert !MatchAt(s, j - 1) by { assert j - 1 < i || IsDigit(s[j - 1]); }
    assert !MatchAt(s, j - 2) by { assert j - 2 < i || IsDigit(s[j - 2]); }
    assert !MatchAt(s, j - 3) by { assert j - 3 < i || IsDigit(s[j - 3]); }
  }

  /** Going on past a run of digits not followed by ".bmp" keeps the scan at a boundary. */
  lemma StepDigits(s: string, i: nat)
    requires Boundary(s, i) && i < |s| && IsDigit(s[i]) && !MatchAt(s, DigitsEnd(s, i))
    ensures Boundary(s, Step(s, i))
    ensures forall j :: i <= j < Step(s, i) ==> Written(s, i)[j - i] == Expected(s, j)
  {
    var e := DigitsEnd(s, i);
    forall j | i <= j < e
      ensures Written(s, i)[j - i] == Expected(s, j)
    {
      KeptInRun(s, i, j);
    }
    assert IsDigit(s[e - 1]);
    assert !MatchAt(s, e - 2) by { assert e - 2 < i || IsDigit(s[e - 2]); }
    assert !MatchAt(s, e - 3) by { assert e - 3 < i || IsDigit(s[e - 3]); }
  }

  /** The scan writes a match's digits and dot unchanged and its "bmp" as "png". */
  lemma WrittenMatch(s: string, i: nat)
    requires Boundary(s, i) && i < |s| && IsDigit(s[i]) && MatchAt(s, DigitsEnd(s, i))
    ensures forall j :: i <= j < Step(s, i) ==> Written(s, i)[j - i] == Expected(s, j)
  {
    var e := DigitsEnd(s, i);
    var w := Written(s, i);
    assert w == ReplaceMatch(s[i..e + 1]);
    forall j | i <= j <= e
      ensures w[j - i] == Expected(s, j)
    {
      assert w[j - i] == s[j] by { assert w[..e + 1 - i] == s[i..e + 1]; }
      KeptInRun(s, i, j);
    }
    assert w[e + 1 - i] == 'p' && w[e + 2 - i] == 'n' && w[e + 3 - i] == 'g';
  }

  /** Going on past a match keeps the scan at a boundary. */
  lemma StepMatch(s: string, i: nat)
    requires Boundary(s, i) && i < |s| && IsDigit(s[i]) && MatchAt(s, DigitsEnd(s, i))
    ensures Boundary(s, Step(s, i))
  {
    var e := DigitsEnd(s, i);
    assert Step(s, i) == e + 4;
    assert !MatchAt(s, e + 1) && !MatchAt(s, e + 2) && !MatchAt(s, e + 3) && !MatchAt(s, e + 4);
  }

  /** From a boundary on, the scan writes exactly the reference characters. */
  lemma {:induction false} ScanMatchesReference(s: string, i: nat)
    requires Boundary(s, i)
    ensures forall j :: i <= j < |s| ==> ScanFrom(s, i)[j - i] == Expected(s, j)
    decreases |s| - i
  {
    if i < |s| {
      var m := Step(s, i);
      var w := Written(s, i);
      var rest := ScanFrom(s, m);
      if !IsDigit(s[i]) {
        StepOther(s, i);
      } else if MatchAt(s, DigitsEnd(s, i)) {
        StepMatch(s, i);
        WrittenMatch(s, i);
      } else {
        StepDigits(s, i);
      }
      ScanMatchesReference(s, m);
      assert ScanFrom(s, i) == w + rest;
      forall j | i <= j < |s|
        ensures ScanFrom(s, i)[j - i] == Expected(s, j)
      {
        if j < m {
          assert ScanFrom(s, i)[j - i] == w[j - i];
        } else {
          assert ScanFrom(s, i)[j - i] == rest[j - m];
        }
      }
    }
  }

  /** The substitution agrees with the reference at every position. */
  lemma ModifyIsReference(s: string)
    ensures forall j :: 0 <= j < |s| ==> Modify(s)[j] == Expected(s, j)
  {
    ScanMatchesReference(s, 0);
  }

  /** A text is left as it is exactly when the pattern does not occur in it. */
  lemma UnchangedIff(s: string)
    ensures Modify(s) == s <==> !Occurs(s)
  {
    ModifyIsReference(s);
    if Occurs(s) {
      var i :| 1 <= i < |s| && MatchAt(s, i);
      assert Modify(s)[i + 1] == 'p' != s[i + 1];
    } else {
      forall j | 0 <= j < |s|
        ensures Modify(s)[j] == s[j]
      {
        assert !MatchAt(s, j - 1) && !MatchAt(s, j - 2) && !MatchAt(s, j - 3);
      }
    }
  }

  /** After the substitution the pattern no longer occurs. */
  lemma NoOccurrenceAfter(s: string)
    ensures !Occurs(Modify(s))
  {
    var r := Modify(s);
    ModifyIsReference(s);
    forall i | 1 <= i < |r|
      ensures !MatchAt(r, i)
    {
      if i + 4 <= |r| {
        assert r[i - 1] == Expected(s, i - 1) && r[i] == Expected(s, i) && r[i + 1] == Expected(s, i + 1);
        assert r[i + 2] == Expected(s, i + 2) && r[i + 3] == Expected(s, i + 3);
      }
    }
  }

  /** Applying modify twice gives the same text as applying it once. */
  lemma Idempotent(s: string)
    ensures Modify(Modify(s)) == Modify(s)
  {
    NoOccurrenceAfter(s);
    UnchangedIff(Modify(s));
  }
}
