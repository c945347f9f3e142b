// Character classes and the few string operations the log code relies on:
// str.split() on whitespace, str(int), int(str) on decimal digits,
// str.lower() and str.strip("\r\n").

module Text {

  predicate IsDigit(c: char) { '0' <= c <= '9' }

  /**
   * Whitespace as str.split() and the regular expression class \s see it
   * (str.isspace): the ASCII controls 9-13 and 28-31, the space, NEL, the
   * no-break space and the Unicode space separators and line separators.
   */
  predicate IsSpace(c: char)
  {
    var k := c as int;
    9 <= k <= 13 || 28 <= k <= 32 || k == 0x85 || k == 0xA0 || k == 0x1680
    || 0x2000 <= k <= 0x200A || k == 0x2028 || k == 0x2029 || k == 0x202F || k == 0x205F || k == 0x3000
  }

  predicate IsAsciiLetter(c: char) { 'a' <= c <= 'z' || 'A' <= c <= 'Z' }

  /** Length of the longest prefix of `s` whose characters all satisfy `p`. */
  function RunLength(s: string, p: char -> bool): (k: nat)
    ensures k <= |s|
    ensures forall i :: 0 <= i < k ==> p(s[i])
    ensures k < |s| ==> !p(s[k])
  {
    if s == [] || !p(s[0]) then 0 else 1 + RunLength(s[1..], p)
  }

  /** str.split() with no argument: the maximal runs of non-whitespace characters. */
  function Words(s: string): (ws: seq<string>)
    ensures forall w :: w in ws ==> w != [] && forall i :: 0 <= i < |w| ==> !IsSpace(w[i])
    ensures ws == [] <==> forall i :: 0 <= i < |s| ==> IsSpace(s[i])
    decreases |s|
  {
    if s == [] then []
    else if IsSpace(s[0]) then Words(s[1..])
    else
      var k := RunLength(s, c => !IsSpace(c));
      [s[..k]] + Words(s[k..])
  }

  /** The words of `w + sep + rest` for a word `w` and whitespace `sep` start with `w`. */
  lemma {:induction false} WordsOfJoined(w: string, sep: string, rest: string)
    requires w != [] && forall i :: 0 <= i < |w| ==> !IsSpace(w[i])
    requires sep != [] && forall i :: 0 <= i < |sep| ==> IsSpace(sep[i])
    ensures Words(w + sep + rest) == [w] + Words(rest)
  {
    var s := w + sep + rest;
    RunLengthExact(s, |w|, c => !IsSpace(c));
    assert s[..|w|] == w;
    SkipSpaces(sep, rest);
    assert s[|w|..] == sep + rest;
  }

  lemma {:induction false} RunLengthExact(s: string, k: nat, p: char -> bool)
    requires k < |s| && !p(s[k]) && forall i :: 0 <= i < k ==> p(s[i])
    ensures RunLength(s, p) == k
  {
    if k > 0 {
      RunLengthExact(s[1..], k - 1, p);
    }
  }

  lemma {:induction false} SkipSpaces(sep: string, rest: string)
    requires forall i :: 0 <= i < |sep| ==> IsSpace(sep[i])
    ensures Words(sep + rest) == Words(rest)
  {
    if sep != [] {
      var s := sep + rest;
      assert s[0] == sep[0] && IsSpace(s[0]);
      assert Words(s) == Words(s[1..]);
      assert s[1..] == sep[1..] + rest;
      SkipSpaces(sep[1..], rest);
    } else {
      assert sep + rest == rest;
    }
  }

  function DigitChar(d: nat): (c: char)
    requires d < 10
    ensures IsDigit(c)
  {
    (48 + d) as char
  }

  function DigitValue(c: char): (d: nat)
    requires IsDigit(c)
    ensures d < 10 && DigitChar(d) == c
  {
    (c as int - 48) as nat
  }

  /** str(n) for a natural number: its decimal digits, without leading zeros. */
  function NatToString(n: nat): (s: string)
    ensures s != [] && forall i :: 0 <= i < |s| ==> IsDigit(s[i])
    ensures |s| > 1 ==> s[0] != '0'
  {
    if n < 10 then [DigitChar(n)] else NatToString(n / 10) + [DigitChar(n % 10)]
  }

  /** str(n) for any integer. */
  function IntToString(n: int): (s: string)
    ensures s != []
    ensures n < 0 <==> s[0] == '-'
  {
    if n < 0 then "-" + NatToString(-n) else NatToString(n)
  }

  /** int(s) for a string of decimal digits. */
  function ParseDigits(s: string): (n: nat)
    requires forall i :: 0 <= i < |s| ==> IsDigit(s[i])
  {
    if s == [] then 0 else 10 * ParseDigits(s[..|s| - 1]) + DigitValue(s[|s| - 1])
  }

  /** Reading back the decimal text of a number gives the number. */
  lemma {:induction false} ParseNatToString(n: nat)
    ensures ParseDigits(NatToString(n)) == n
  {
    if n >= 10 {
      ParseNatToString(n / 10);
      var s := NatToString(n);
      assert s[..|s| - 1] == NatToString(n / 10);
    }
  }

  /** Distinct numbers have distinct decimal texts. */
  lemma NatToStringInjective(m: nat, n: nat)
    requires NatToString(m) == NatToString(n)
    ensures m == n
  {
    ParseNatToString(m);
    ParseNatToString(n);
  }

  /** str.lower() restricted to ASCII letters. */
  function ToLower(s: string): (r: string)
    ensures |r| == |s|
    ensures forall i :: 0 <= i < |s| ==> r[i] == (if 'A' <= s[i] <= 'Z' then (s[i] as int + 32) as char else s[i])
  {
    seq(|s|, i requires 0 <= i < |s| => if 'A' <= s[i] <= 'Z' then (s[i] as int + 32) as char else s[i])
  }

  /** sep.join(parts) */
  function Join(sep: string, parts: seq<string>): string
  {
    if parts == [] then ""
    else if |parts| == 1 then parts[0]
    else Join(sep, parts[..|parts| - 1]) + sep + parts[|parts| - 1]
  }

  /** s.split(sep) for a one-character separator: every separator splits, empty fields stay. */
  function Split(s: string, sep: char): (parts: seq<string>)
    ensures |parts| >= 1
  {
    if s == [] then [""]
    else
      var init := Split(s[..|s| - 1], sep);
      var c := s[|s| - 1];
      if c == sep then init + [""]
      else init[..|init| - 1] + [init[|init| - 1] + [c]]
  }

  /** Extending the last part extends the joined text. */
  lemma JoinExtendLast(sep: string, ps: seq<string>, x: string)
    requires ps != []
    ensures Join(sep, ps[..|ps| - 1] + [ps[|ps| - 1] + x]) == Join(sep, ps) + x
  {
    var qs := ps[..|ps| - 1] + [ps[|ps| - 1] + x];
    assert qs[..|qs| - 1] == ps[..|ps| - 1];
  }

  /** Joining the fields of a split with the separator gives the text back. */
  lemma {:induction false} JoinSplit(s: string, sep: char)
    ensures Join([sep], Split(s, sep)) == s
  {
    if s != [] {
      var init := Split(s[..|s| - 1], sep);
      JoinSplit(s[..|s| - 1], sep);
      if s[|s| - 1] == sep {
        var ps := init + [""];
        assert ps[..|ps| - 1] == init;
        assert Join([sep], ps) == s[..|s| - 1] + [sep] + "";
      } else {
        JoinExtendLast([sep], init, [s[|s| - 1]]);
      }
      assert s[..|s| - 1] + [s[|s| - 1]] == s;
    }
  }

  /** A text without the separator is a single field. */
  lemma {:induction false} SplitNoSep(p: string, sep: char)
    requires sep !in p
    ensures Split(p, sep) == [p]
  {
    if p != [] {
      SplitNoSep(p[..|p| - 1], sep);
      assert p[..|p| - 1] + [p[|p| - 1]] == p;
    }
  }

  /** A separator followed by a field without separators adds that field. */
  lemma {:induction false} SplitAppendField(a: string, sep: char, b: string)
    requires sep !in b
    ensures Split(a + [sep] + b, sep) == Split(a, sep) + [b]
  {
    if b == [] {
      assert a + [sep] + b == a + [sep];
      assert (a + [sep])[..|a + [sep]| - 1] == a;
    } else {
      var b' := b[..|b| - 1];
      SplitAppendField(a, sep, b');
      var s := a + [sep] + b;
      assert s[..|s| - 1] == a + [sep] + b' && s[|s| - 1] == b[|b| - 1];
      assert b' + [b[|b| - 1]] == b;
    }
  }

  /** Split extended by one character: a separator opens a new part, anything else extends the last. */
  lemma SplitSnoc(s: string, c: char, sep: char)
    ensures var init := Split(s, sep);
      Split(s + [c], sep) == if c == sep then init + [""] else init[..|init| - 1] + [init[|init| - 1] + [c]]
  {
    assert (s + [c])[..|s + [c]| - 1] == s;
  }

  /** One more character treats a list with a fixed first part as it treats the rest. */
  lemma SnocBehindFirst(ps: seq<string>, qs: seq<string>, a: string, c: char, sep: char)
    requires ps == [a] + qs && qs != []
    ensures (if c == sep then ps + [""] else ps[..|ps| - 1] + [ps[|ps| - 1] + [c]])
      == [a] + (if c == sep then qs + [""] else qs[..|qs| - 1] + [qs[|qs| - 1] + [c]])
  {
    if c != sep {
      assert ps[..|ps| - 1] == [a] + qs[..|qs| - 1];
    }
  }

  /** A first field without separators comes out as the first part. */
  lemma {:induction false} SplitLeadingField(a: string, sep: char, b: string)
    requires sep !in a
    ensures Split(a + [sep] + b, sep) == [a] + Split(b, sep)
    decreases |b|
  {
    if b == [] {
      SplitNoSep(a, sep);
      SplitSnoc(a, sep, sep);
      assert a + [sep] + b == a + [sep];
    } else {
      var b', c := b[..|b| - 1], b[|b| - 1];
      var x := a + [sep] + b';
      assert b' + [c] == b;
      assert x + [c] == a + [sep] + b;
      SplitLeadingField(a, sep, b');
      SplitSnoc(x, c, sep);
      SplitSnoc(b', c, sep);
      SnocBehindFirst(Split(x, sep), Split(b', sep), a, c, sep);
    }
  }

  /** Splitting the join of separator-free fields gives the fields back. */
  lemma {:induction false} SplitJoin(parts: seq<string>, sep: char)
    requires parts != [] && forall i :: 0 <= i < |parts| ==> sep !in parts[i]
    ensures Split(Join([sep], parts), sep) == parts
  {
    if |parts| == 1 {
      SplitNoSep(parts[0], sep);
    } else {
      var init := parts[..|parts| - 1];
      SplitJoin(init, sep);
      SplitAppendField(Join([sep], init), sep, parts[|parts| - 1]);
      assert init + [parts[|parts| - 1]] == parts;
    }
  }

  predicate IsCrLf(c: char) { c == '\r' || c == '\n' }

  /** Length of the longest suffix of `s` whose characters all satisfy `p`. */
  function TrailLength(s: string, p: char -> bool): (k: nat)
    ensures k <= |s|
    ensures forall i :: |s| - k <= i < |s| ==> p(s[i])
    ensures k < |s| ==> !p(s[|s| - 1 - k])
  {
    if s == [] || !p(s[|s| - 1]) then 0 else 1 + TrailLength(s[..|s| - 1], p)
  }

  /** s.strip("\r\n"): drops carriage returns and line feeds at both ends. */
  function StripCrLf(s: string): (r: string)
    ensures |r| <= |s|
    ensures r == [] || (!IsCrLf(r[0]) && !IsCrLf(r[|r| - 1]))
    ensures s != [] && !IsCrLf(s[0]) && !IsCrLf(s[|s| - 1]) ==> r == s
  {
    var a := RunLength(s, IsCrLf);
    var t := s[a..];
    t[..|t| - TrailLength(t, IsCrLf)]
  }
}
