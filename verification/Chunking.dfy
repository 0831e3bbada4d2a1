/**
 Draining the receive buffer part by part, for data that arrives in arbitrary chunks: bytes are
 neither lost nor invented, and where the stream is cut does not depend on the chunks unless
 something follows the closing stream tag.
 */
module Chunking {
  import opened Bytes
  import opened Framer

  /** The parts taken so far, what is left in the buffer, and whether the header is still awaited. */
  datatype Run = Run(parts: seq<string>, left: string, first: bool)

  const START := Run([], "", true)

  /** Take parts until more data is needed. */
  function Drain(buffer: string, first: bool, before: char): (r: Run)
    ensures Take(r.left, r.first, before).Incomplete?
    ensures r.first <==> first && r.parts == []
    decreases |buffer|
  {
    match Take(buffer, first, before)
    case Incomplete => Run([], buffer, first)
    case Framed(part, rest) =>
      var r := Drain(rest, false, before);
      Run([part] + r.parts, r.left, r.first)
  }

  /** Append one chunk to the buffer and drain it. */
  function Feed(r: Run, chunk: string, before: char): Run {
    var d := Drain(r.left + chunk, r.first, before);
    Run(r.parts + d.parts, d.left, d.first)
  }

  function FeedAll(r: Run, chunks: seq<string>, before: char): Run
    decreases |chunks|
  {
    if chunks == [] then r else FeedAll(Feed(r, chunks[0], before), chunks[1..], before)
  }

  /** No byte follows the end tag that closes the stream. */
  predicate NothingAfterClose(buffer: string, first: bool, before: char)
    decreases |buffer|
  {
    match Take(buffer, first, before)
    case Incomplete => true
    case Framed(_, rest) =>
      if !first && Scan(buffer, 0).Closing? then Scan(buffer, 0).end == |buffer|
      else NothingAfterClose(rest, false, before)
  }

  // ---------------------------------------------------------------- later bytes change no cut

  lemma {:induction false} ScanStable(s: string, t: string, depth: nat)
    requires !Scan(s, depth).NeedMore?
    ensures Scan(s + t, depth) == Scan(s, depth)
    decreases |s|
  {
    var start := IndexOf(s, '<');
    var end := IndexOf(s, '>', start);
    IndexOfStable(s, t, '<', 0);
    IndexOfStable(s, t, '>', start);
    ScanFirstTag(s, depth, start, end);
    ScanFirstTag(s + t, depth, start, end);
    assert TagWeight(s + t, start, end) == TagWeight(s, start, end);
    var d := depth + TagWeight(s, start, end);
    if d > 0 {
      assert (s + t)[end + 1..] == s[end + 1..] + t;
      ScanStable(s[end + 1..], t, d);
    }
  }

  lemma {:induction false} HeaderStable(s: string, t: string, before: char)
    requires HeaderEnd(s, before) != -1
    ensures HeaderEnd(s + t, before) == HeaderEnd(s, before)
    ensures Prologue(s + t, before) == Prologue(s, before)
  {
    var i := IndexOf(s, '>');
    IndexOfStable(s, t, '>', 0);
    assert ByteBefore(s + t, i, before) == ByteBefore(s, i, before);
    if IndexOf(s, '>', i + 1) != -1 {
      IndexOfStable(s, t, '>', i + 1);
    }
  }

  lemma {:induction false} TakeStable(s: string, t: string, first: bool, before: char)
    requires Take(s, first, before).Framed?
    requires first || Scan(s, 0).Part?
    ensures Take(s + t, first, before) == Framed(Take(s, first, before).part, Take(s, first, before).rest + t)
  {
    hide Scan, HeaderEnd, Prologue;
    if first {
      HeaderStable(s, t, before);
    } else {
      ScanStable(s, t, 0);
    }
    var e := if first then HeaderEnd(s, before) else Scan(s, 0).end;
    assert (s + t)[..e] == s[..e];
    assert (s + t)[e..] == s[e..] + t;
  }

  // ---------------------------------------------------------------- chunking

  lemma DrainTake(buffer: string, first: bool, before: char)
    ensures var f := Take(buffer, first, before);
            Drain(buffer, first, before) ==
              if f.Incomplete? then Run([], buffer, first)
              else var r := Drain(f.rest, false, before); Run([f.part] + r.parts, r.left, r.first)
  {
  }

  /** Draining a prefix first and the remainder later takes the same parts. */
  lemma {:induction false} DrainAppend(a: string, b: string, first: bool, before: char)
    requires NothingAfterClose(a + b, first, before)
    ensures var d := Drain(a, first, before);
            var e := Drain(d.left + b, d.first, before);
            && NothingAfterClose(d.left + b, d.first, before)
            && Drain(a + b, first, before) == Run(d.parts + e.parts, e.left, e.first)
    decreases |a|, 1
  {
    if Take(a, first, before).Framed? {
      if first || Scan(a, 0).Part? {
        DrainAppendPart(a, b, first, before);
      } else {
        ScanStable(a, b, 0);
        assert a + b == a;
        assert Drain("", false, before) == Run([], "", false);
      }
    } else {
      DrainTake(a, first, before);
      hide *;
      assert [] + Drain(a + b, first, before).parts == Drain(a + b, first, before).parts;
    }
  }

  lemma {:induction false} DrainAppendPart(a: string, b: string, first: bool, before: char)
    requires NothingAfterClose(a + b, first, before)
    requires Take(a, first, before).Framed? && (first || Scan(a, 0).Part?)
    ensures var d := Drain(a, first, before);
            var e := Drain(d.left + b, d.first, before);
            && NothingAfterClose(d.left + b, d.first, before)
            && Drain(a + b, first, before) == Run(d.parts + e.parts, e.left, e.first)
    decreases |a|, 0
  {
    hide Take, Scan, Drain;
    var f := Take(a, first, before);
    DrainTake(a, first, before);
    DrainTake(a + b, first, before);
    TakeStable(a, b, first, before);
    if !first {
      ScanStable(a, b, 0);
    }
    DrainAppend(f.rest, b, false, before);
    var d := Drain(f.rest, false, before);
    var e := Drain(d.left + b, d.first, before);
    assert [f.part] + d.parts + e.parts == [f.part] + (d.parts + e.parts);
  }

  /** Two chunks in a row are one. */
  lemma {:induction false} FeedTwice(r: Run, a: string, b: string, before: char)
    requires NothingAfterClose(r.left + (a + b), r.first, before)
    ensures Feed(Feed(r, a, before), b, before) == Feed(r, a + b, before)
    ensures NothingAfterClose(Feed(r, a, before).left + b, Feed(r, a, before).first, before)
  {
    hide Drain, NothingAfterClose;
    assert r.left + (a + b) == (r.left + a) + b;
    DrainAppend(r.left + a, b, r.first, before);
    var d := Drain(r.left + a, r.first, before);
    var e := Drain(d.left + b, d.first, before);
    assert r.parts + d.parts + e.parts == r.parts + (d.parts + e.parts);
  }

  lemma {:induction false} FeedAllIsDrain(r: Run, chunks: seq<string>, before: char)
    requires Take(r.left, r.first, before).Incomplete?
    requires NothingAfterClose(r.left + Flatten(chunks), r.first, before)
    ensures FeedAll(r, chunks, before) == Feed(r, Flatten(chunks), before)
    decreases |chunks|
  {
    hide Take, NothingAfterClose;
    if chunks == [] {
      assert r.left + "" == r.left;
      DrainTake(r.left, r.first, before);
    } else {
      hide Drain;
      FeedTwice(r, chunks[0], Flatten(chunks[1..]), before);
      FeedAllIsDrain(Feed(r, chunks[0], before), chunks[1..], before);
    }
  }

  /** A stream with something behind its closing tag: cutting it right behind that tag makes the
      closing part shorter than taking it whole. */
  lemma {:induction false} CloseSplits(s: string, first: bool, before: char) returns (k: nat, i: nat)
    requires !NothingAfterClose(s, first, before)
    ensures k <= |s|
    ensures i < |Drain(s[..k], first, before).parts| && i < |Drain(s, first, before).parts|
    ensures |Drain(s[..k], first, before).parts[i]| < |Drain(s, first, before).parts[i]|
    decreases |s|
  {
    hide Drain, NothingAfterClose;
    if !first && Scan(s, 0).Closing? {
      k, i := Scan(s, 0).end, 0;
      CloseCutShort(s, before);
    } else {
      CloseBehindPart(s, first, before);
      var f := Take(s, first, before);
      var n := |s| - |f.rest|;
      var k', i' := CloseSplits(f.rest, false, before);
      k, i := n + k', i' + 1;
      hide Take, Scan;
      TakePrefix(s, k, first, before);
      DrainTake(s, first, before);
      DrainTake(s[..k], first, before);
    }
  }

  lemma {:induction false} CloseCutShort(s: string, before: char)
    requires !NothingAfterClose(s, false, before) && Scan(s, 0).Closing?
    ensures var k := Scan(s, 0).end;
            && k < |s| && Drain(s[..k], false, before).parts != [] && Drain(s, false, before).parts != []
            && |Drain(s[..k], false, before).parts[0]| < |Drain(s, false, before).parts[0]|
  {
    hide Scan;
    var k := Scan(s, 0).end;
    ScanPrefix(s, 0);
    DrainTake(s, false, before);
    DrainTake(s[..k], false, before);
  }

  lemma CloseBehindPart(s: string, first: bool, before: char)
    requires !NothingAfterClose(s, first, before) && (first || !Scan(s, 0).Closing?)
    ensures Take(s, first, before).Framed? && !NothingAfterClose(Take(s, first, before).rest, false, before)
  {
    hide Scan, HeaderEnd;
  }

  lemma ScanFindsTag(s: string, depth: nat)
    requires !Scan(s, depth).NeedMore?
    ensures IndexOf(s, '<') != -1 && IndexOf(s, '>', IndexOf(s, '<')) != -1
  {
  }

  lemma {:induction false} ScanPrefix(s: string, depth: nat)
    requires !Scan(s, depth).NeedMore?
    ensures var e := Scan(s, depth).end; Scan(s[..e], depth) == Scan(s, depth)
    decreases |s|
  {
    hide Scan;
    var start := IndexOf(s, '<');
    ScanFindsTag(s, depth);
    var end := IndexOf(s, '>', start);
    ScanFirstTag(s, depth, start, end);
    var e := Scan(s, depth).end;
    var p := s[..e];
    assert p[start] == '<' && p[end] == '>';
    ScanFirstTag(p, depth, start, end);
    assert TagWeight(p, start, end) == TagWeight(s, start, end);
    var d := depth + TagWeight(s, start, end);
    if d > 0 {
      ScanPrefix(s[end + 1..], d);
      assert p[end + 1..] == s[end + 1..][..e - end - 1];
    }
  }

  lemma {:induction false} HeaderPrefix(s: string, before: char)
    requires HeaderEnd(s, before) != -1
    ensures var p := s[..HeaderEnd(s, before)];
            HeaderEnd(p, before) == |p| && Prologue(p, before) == Prologue(s, before)
  {
    var i := IndexOf(s, '>');
    var p := s[..HeaderEnd(s, before)];
    assert p[i] == '>' && ByteBefore(p, i, before) == ByteBefore(s, i, before);
    if Declared(s, before) {
      assert p[|p| - 1] == '>';
    }
  }

  lemma {:induction false} TakePrefix(s: string, k: nat, first: bool, before: char)
    requires var f := Take(s, first, before); f.Framed? && (first || Scan(s, 0).Part?) && |s| - |f.rest| <= k <= |s|
    ensures var f := Take(s, first, before);
            Take(s[..k], first, before) == Framed(f.part, f.rest[..k - (|s| - |f.rest|)])
  {
    hide *;
    var f := Take(s, first, before);
    var n := |s| - |f.rest|;
    var p, q := s[..n], s[n..k];
    TakeExactly(s, n, first, before);
    TakeStable(p, q, first, before);
    TakeRest(s, first, before);
    assert s[..k] == p + q;
    assert "" + q == f.rest[..k - n];
  }

  lemma TakeRest(s: string, first: bool, before: char)
    requires var f := Take(s, first, before); f.Framed? && (first || Scan(s, 0).Part?)
    ensures var f := Take(s, first, before); f.rest == s[|s| - |f.rest|..]
  {
  }

  lemma {:induction false} TakeExactly(s: string, n: nat, first: bool, before: char)
    requires var f := Take(s, first, before); f.Framed? && (first || Scan(s, 0).Part?) && |s| - |f.rest| == n
    ensures Take(s[..n], first, before) == Framed(Take(s, first, before).part, "")
    ensures first || Scan(s[..n], 0).Part?
  {
    hide Scan, HeaderEnd, Prologue;
    if first {
      HeaderPrefix(s, before);
    } else {
      ScanPrefix(s, 0);
    }
    assert s[..n][..n] == s[..n];
  }

  /** Chunking does not matter exactly for the streams with nothing after the closing tag. */
  lemma {:induction false} ChunkingMattersOnlyAfterClose(s: string, before: char)
    ensures NothingAfterClose(s, true, before) <==>
            forall chunks :: Flatten(chunks) == s ==> FeedAll(START, chunks, before) == Feed(START, s, before)
  {
    if NothingAfterClose(s, true, before) {
      forall chunks | Flatten(chunks) == s
        ensures FeedAll(START, chunks, before) == Feed(START, s, before)
      {
        assert "" + s == s;
        FeedAllIsDrain(START, chunks, before);
      }
    } else {
      var k, i := CloseSplits(s, true, before);
      FeedPrefix(s, k, i, before);
    }
  }

  lemma {:induction false} FeedPrefix(s: string, k: nat, i: nat, before: char)
    requires k <= |s|
    requires i < |Drain(s[..k], true, before).parts| && i < |Drain(s, true, before).parts|
    requires |Drain(s[..k], true, before).parts[i]| < |Drain(s, true, before).parts[i]|
    ensures exists chunks :: Flatten(chunks) == s && FeedAll(START, chunks, before) != Feed(START, s, before)
  {
    hide Drain;
    var chunks := [s[..k], s[k..]];
    assert chunks[1..] == [s[k..]] && [s[k..]][1..] == [];
    assert Flatten([s[k..]]) == s[k..];
    assert Flatten(chunks) == s[..k] + s[k..] == s;
    assert "" + s == s && "" + s[..k] == s[..k];
    var r := Feed(START, s[..k], before);
    assert FeedAll(START, chunks, before) == FeedAll(r, [s[k..]], before) == Feed(r, s[k..], before);
    assert Feed(r, s[k..], before).parts[i] == r.parts[i] == Drain(s[..k], true, before).parts[i];
  }

  // ---------------------------------------------------------------- conservation

  lemma {:induction false} TakeConserves(buffer: string, first: bool, before: char)
    ensures var f := Take(buffer, first, before);
            f.Framed? ==> f.part + f.rest == (if first then Prologue(buffer, before) else "") + buffer
  {
  }

  lemma {:induction false} DrainConserves(buffer: string, first: bool, before: char)
    ensures var r := Drain(buffer, first, before);
            Flatten(r.parts) + r.left == (if first && r.parts != [] then Prologue(buffer, before) else "") + buffer
    decreases |buffer|
  {
    TakeConserves(buffer, first, before);
    hide Take, Prologue;
    match Take(buffer, first, before)
    case Incomplete =>
    case Framed(part, rest) =>
      DrainConserves(rest, false, before);
      var r := Drain(rest, false, before);
      assert ([part] + r.parts)[1..] == r.parts;
      assert Flatten([part] + r.parts) + r.left == part + (Flatten(r.parts) + r.left);
  }

  /** What has been received is what the parts and the buffer hold, up to the inserted prologue. */
  predicate Conserved(r: Run, received: string, before: char) {
    && Flatten(r.parts) + r.left == (if r.parts != [] then Prologue(received, before) else "") + received
    && (r.first <==> r.parts == [])
    && (!r.first ==> HeaderEnd(received, before) != -1)
  }

  lemma {:induction false} FeedConserves(r: Run, received: string, chunk: string, before: char)
    requires Conserved(r, received, before)
    ensures Conserved(Feed(r, chunk, before), received + chunk, before)
  {
    hide Drain, Prologue, HeaderEnd;
    var d := Drain(r.left + chunk, r.first, before);
    DrainConserves(r.left + chunk, r.first, before);
    FlattenAppend(r.parts, d.parts);
    if r.first {
      assert r.left == "" + r.left == received;
      DrainTake(received + chunk, true, before);
      assert r.parts + d.parts == d.parts;
    } else {
      HeaderStable(received, chunk, before);
      var p := Prologue(received, before);
      assert Flatten(r.parts) + (r.left + chunk) == (Flatten(r.parts) + r.left) + chunk == p + (received + chunk);
      assert Flatten(r.parts + d.parts) + d.left == Flatten(r.parts) + (Flatten(d.parts) + d.left);
    }
  }

  /** Whatever the chunks: parts and buffer together are the bytes received, with the XML
      declaration put in front once the header has been taken if the stream had none. */
  lemma {:induction false} BytesAreConserved(r: Run, received: string, chunks: seq<string>, before: char)
    requires Conserved(r, received, before)
    ensures Conserved(FeedAll(r, chunks, before), received + Flatten(chunks), before)
    decreases |chunks|
  {
    hide Conserved, Feed;
    if chunks == [] {
      assert received + "" == received;
    } else {
      FeedConserves(r, received, chunks[0], before);
      BytesAreConserved(Feed(r, chunks[0], before), received + chunks[0], chunks[1..], before);
      assert received + chunks[0] + Flatten(chunks[1..]) == received + Flatten(chunks);
    }
  }

  /** A stream with a byte behind its closing tag. */
  lemma ByteBehindClose()
    ensures !NothingAfterClose("<a></a>x", true, ' ')
  {
    var s, t := "<a></a>x", "</a>x";
    assert s[2] == '>' && s[3..] == t && IndexOf(s, '>') == 2;
    assert Take(s, true, ' ').Framed? && Take(s, true, ' ').rest == t;
    assert t[0] == '<' && t[3] == '>' && IndexOf(t, '<') == 0 && IndexOf(t, '>', 0) == 3;
    assert Scan(t, 0) == Closing(4);
  }
}
