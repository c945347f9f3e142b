// The first-in-last-out stack of utils/stack.py. Its list `_s` holds the
// items oldest first; the top is the last element. Slicing follows Python's
// rules for out-of-range and negative bounds, which is what makes the
// truncation of the constructor and of setMaxSize keep fewer items than
// the maximum when the stack is shorter than the maximum.

module Stacks {
  import opened Base

  /** Python's normalisation of one slice bound against a list of length `n`. */
  function SliceBound(i: int, n: nat): (b: nat)
    ensures b <= n
    ensures 0 <= i <= n ==> b == i
    ensures i > n ==> b == n
    ensures i < 0 && i + n >= 0 ==> b == i + n
    ensures i + n < 0 ==> b == 0
  {
    if i < 0 then (if i + n < 0 then 0 else i + n) else if i > n then n else i
  }

  /** s[start:end] with a positive step. */
  function PySlice<T>(s: seq<T>, start: int, end: int): seq<T>
  {
    var a, b := SliceBound(start, |s|), SliceBound(end, |s|);
    if a < b then s[a..b] else []
  }

  function Reverse<T>(s: seq<T>): (r: seq<T>)
    ensures |r| == |s|
    ensures forall i :: 0 <= i < |s| ==> r[i] == s[|s| - 1 - i]
  {
    if s == [] then [] else Reverse(s[1..]) + [s[0]]
  }

  /** `s[len(s) - maxitems:]` when `maxitems >= 0`; the constructor and setMaxSize share it. */
  function Truncate<T>(s: seq<T>, maxitems: int): seq<T>
  {
    if maxitems >= 0 then PySlice(s, |s| - maxitems, |s|) else s
  }

  /** The list after push: append, then drop the oldest item when over the maximum. */
  function Pushed<T>(s: seq<T>, maxitems: int, item: T): seq<T>
  {
    var t := s + [item];
    if maxitems >= 0 && |t| > maxitems then t[1..] else t
  }

  /** The list after shrink(index). */
  function Shrunk<T>(s: seq<T>, index: int): seq<T>
  {
    if index > |s| then [] else PySlice(s, 0, |s| - index)
  }

  /** The three regimes of the truncation as written. */
  lemma TruncateRegimes<T>(s: seq<T>, m: int)
    ensures m < 0 ==> Truncate(s, m) == s
    ensures 0 <= m <= |s| ==> Truncate(s, m) == s[|s| - m..]
    ensures |s| < m < 2 * |s| ==> Truncate(s, m) == s[2 * |s| - m..] && |Truncate(s, m)| == m - |s|
    ensures m >= 2 * |s| ==> Truncate(s, m) == s
  {
    if m < 0 {
    } else if m <= |s| {
      assert SliceBound(|s| - m, |s|) == |s| - m;
    } else if m < 2 * |s| {
      assert SliceBound(|s| - m, |s|) == 2 * |s| - m;
    } else if s != [] {
      assert SliceBound(|s| - m, |s|) == 0;
      assert s[0..|s|] == s;
    }
  }

  /** Whatever the regime, truncation keeps a suffix of at most `maxitems` items. */
  lemma TruncateSuffix<T>(s: seq<T>, m: int)
    ensures exists k :: 0 <= k <= |s| && Truncate(s, m) == s[k..]
    ensures m >= 0 ==> |Truncate(s, m)| <= m
    ensures m > 0 && s != [] ==> Truncate(s, m) != []
  {
    TruncateRegimes(s, m);
    if m < 0 || m >= 2 * |s| {
      assert Truncate(s, m) == s[0..];
    } else if m <= |s| {
      assert Truncate(s, m) == s[|s| - m..];
    } else {
      assert Truncate(s, m) == s[2 * |s| - m..];
    }
  }

  /** Truncating to a positive maximum keeps the newest item. */
  lemma TruncateKeepsTop<T>(s: seq<T>, m: int)
    requires s != [] && m != 0
    ensures var t := Truncate(s, m); t != [] && t[|t| - 1] == s[|s| - 1]
  {
    TruncateSuffix(s, m);
    var k :| 0 <= k <= |s| && Truncate(s, m) == s[k..];
  }

  /** After a push the pushed item is on top, unless a maximum of zero empties the stack. */
  lemma PushedTop<T>(s: seq<T>, m: int, item: T)
    ensures m != 0 || s != [] ==> |Pushed(s, m, item)| > 0 && Pushed(s, m, item)[|Pushed(s, m, item)| - 1] == item
    ensures m == 0 && s == [] ==> Pushed(s, m, item) == []
  {
  }

  /** A push that drops nothing is undone by a pop, which returns the pushed item. */
  lemma PushedPop<T>(s: seq<T>, m: int, item: T)
    requires m < 0 || |s| < m
    ensures var t := Pushed(s, m, item); |t| > 0 && t[|t| - 1] == item && t[..|t| - 1] == s
  {
    var t := Pushed(s, m, item);
    assert t == s + [item];
    assert t[..|t| - 1] == s;
  }

  /** A push onto a full stack drops exactly the oldest item. */
  lemma PushedFull<T>(s: seq<T>, m: int, item: T)
    requires 0 < m && |s| == m
    ensures Pushed(s, m, item) == s[1..] + [item] && |Pushed(s, m, item)| == m
  {
  }

  /** Pushing never takes a stack that respects its maximum over it. */
  lemma PushedBound<T>(s: seq<T>, m: int, item: T)
    requires m >= 0 && |s| <= m
    ensures |Pushed(s, m, item)| <= m
  {
  }

  /** shrink(k) removes the k newest items, everything when k exceeds the size, nothing when k <= 0. */
  lemma ShrunkNewest<T>(s: seq<T>, k: int)
    ensures 0 <= k <= |s| ==> Shrunk(s, k) == s[..|s| - k]
    ensures k > |s| ==> Shrunk(s, k) == []
    ensures k <= 0 ==> Shrunk(s, k) == s
  {
    if k <= 0 {
      assert SliceBound(|s| - k, |s|) == |s|;
      if s != [] {
        assert s[0..|s|] == s;
      }
    }
  }

  class Stack<T> {
    /** `_s`: oldest item first, top last. */
    var elems: seq<T>
    /** `_maxitems`: the maximum size, unbounded when negative. */
    var maxitems: int

    /** A stack that respects its maximum. */
    predicate Valid()
      reads this
    {
      maxitems >= 0 ==> |elems| <= maxitems
    }

    /** Stack(items, maxitems): the items reversed, so items[0] is on top, then truncated. */
    constructor (items: seq<T>, maxitems: int)
      ensures this.elems == Truncate(Reverse(items), maxitems) && this.maxitems == maxitems
      ensures Valid()
      ensures items != [] && maxitems != 0 ==> Top() == Ok(items[0])
    {
      this.elems := Truncate(Reverse(items), maxitems);
      this.maxitems := maxitems;
      new;
      TruncateSuffix(Reverse(items), maxitems);
      if items != [] && maxitems != 0 {
        TruncateKeepsTop(Reverse(items), maxitems);
      }
    }

    /** len(stack) */
    function Length(): (n: nat)
      reads this
      ensures n == 0 <==> elems == []
    {
      |elems|
    }

    /** top(): the most recently pushed item, or StackEmpty. */
    function Top(): (r: Result<T>)
      reads this
      ensures elems == [] <==> r == Err(StackEmpty)
      ensures r.Ok? ==> Get(0) == r
    {
      if |elems| == 0 then Err(StackEmpty) else Ok(elems[|elems| - 1])
    }

    /** stack[index]: 0 is the newest item, len - 1 the oldest; anything else fails the assertion. */
    function Get(index: int): (r: Result<T>)
      reads this
      ensures r.Ok? <==> 0 <= index < |elems|
      ensures r.Err? ==> r.error == AssertionError
      ensures index == |elems| - 1 && r.Ok? ==> r.value == elems[0]
    {
      var i := |elems| - (index + 1);
      if 0 <= i < |elems| then Ok(elems[i]) else Err(AssertionError)
    }

    /** iter(stack): the items newest first, the same order as indexing. */
    function Iter(): (r: seq<T>)
      reads this
      ensures |r| == |elems|
      ensures forall i :: 0 <= i < |r| ==> Get(i) == Ok(r[i])
    {
      Reverse(elems)
    }

    /** pop(): removes and returns the top item; StackEmpty when empty. */
    method Pop() returns (r: Result<T>)
      modifies this
      ensures old(elems) == [] ==> r == Err(StackEmpty) && elems == old(elems)
      ensures old(elems) != [] ==> r == old(Top()) && elems == old(elems)[..|old(elems)| - 1]
      ensures maxitems == old(maxitems)
      ensures old(Valid()) ==> Valid()
    {
      if |elems| <= 0 {
        return Err(StackEmpty);
      }
      r := Ok(elems[|elems| - 1]);
      elems := elems[..|elems| - 1];
    }

    /** push(item): appends, dropping the oldest item silently when over the maximum. */
    method Push(item: T)
      modifies this
      ensures elems == Pushed(old(elems), maxitems, item) && maxitems == old(maxitems)
      ensures maxitems != 0 ==> Top() == Ok(item)
      ensures old(Valid()) ==> Valid()
    {
      elems := elems + [item];
      if maxitems >= 0 && |elems| > maxitems {
        elems := elems[1..];
      }
      PushedTop(old(elems), maxitems, item);
    }

    /** setMaxSize(length): stores the maximum and truncates as the constructor does. */
    method SetMaxSize(length: int)
      modifies this
      ensures maxitems == length && elems == Truncate(old(elems), length)
      ensures Valid()
    {
      maxitems := length;
      if maxitems >= 0 {
        elems := PySlice(elems, |elems| - maxitems, |elems|);
      }
      TruncateSuffix(old(elems), length);
    }

    /** shrink(index): removes the `index` newest items, or all of them. */
    method Shrink(index: int)
      modifies this
      ensures elems == Shrunk(old(elems), index) && maxitems == old(maxitems)
      ensures old(Valid()) ==> Valid()
    {
      if index > |elems| {
        elems := [];
      } else {
        elems := PySlice(elems, 0, |elems| - index);
      }
    }
  }
}
