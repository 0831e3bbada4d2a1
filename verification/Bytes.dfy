/** Byte strings and the few library operations on them that the other modules use. */
module Bytes {

  /** The position of the first `c` at or after `from`, or -1. */
  function IndexOf(s: string, c: char, from: nat := 0): (i: int)
    ensures i == -1 ==> forall k :: from <= k < |s| ==> s[k] != c
    ensures i != -1 ==> from <= i < |s| && s[i] == c && forall k :: from <= k < i ==> s[k] != c
    decreases |s| - from
  {
    if from >= |s| then -1 else if s[from] == c then from else IndexOf(s, c, from + 1)
  }

  /** Looking past a longer prefix without `c` finds the same place. */
  lemma {:induction false} IndexOfAfter(a: string, b: string, c: char)
    requires c !in a
    ensures IndexOf(a + b, c) == if IndexOf(b, c) == -1 then -1 else |a| + IndexOf(b, c)
  {
    var i, j := IndexOf(a + b, c), IndexOf(b, c);
    if i != -1 && i >= |a| {
      assert b[i - |a|] == c;
    }
    if j != -1 {
      assert (a + b)[|a| + j] == c;
      assert forall k :: |a| <= k < i ==> b[k - |a|] == (a + b)[k];
    }
  }

  /** Bytes that arrive later do not move a position that was already found. */
  lemma {:induction false} IndexOfStable(a: string, b: string, c: char, from: nat)
    requires IndexOf(a, c, from) != -1
    ensures IndexOf(a + b, c, from) == IndexOf(a, c, from)
  {
    assert (a + b)[IndexOf(a, c, from)] == c;
  }

  /** The concatenation of a list of byte strings. */
  function Flatten(ss: seq<string>): string {
    if ss == [] then "" else ss[0] + Flatten(ss[1..])
  }

  lemma {:induction false} FlattenAppend(a: seq<string>, b: seq<string>)
    ensures Flatten(a + b) == Flatten(a) + Flatten(b)
  {
    if a == [] {
      assert a + b == b;
    } else {
      assert (a + b)[1..] == a[1..] + b;
      FlattenAppend(a[1..], b);
    }
  }

  /** White space, as far as ASCII goes. */
  predicate IsSpace(c: char) {
    c == ' ' || '\t' <= c <= '\r'
  }

  /** QString::trimmed */
  function Trimmed(s: string): string {
    if s == "" then ""
    else if IsSpace(s[0]) then Trimmed(s[1..])
    else if IsSpace(s[|s| - 1]) then Trimmed(s[..|s| - 1])
    else s
  }
}
