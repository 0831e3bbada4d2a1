/**
 Cutting the incoming byte stream into top-level XML parts (Parser::nextPart and the loop
 of Parser::parseData that drains the buffer with it).
 */
module Framer {
  import opened Bytes

  const XML_HEADER := "<?xml version=\"1.0\" encoding=\"UTF-8\"?>"

  // ---------------------------------------------------------------- one cut

  /** Where the first part of a buffer ends: nowhere yet, after a balanced element, or at an
      end tag that has no start tag (the end of the stream). */
  datatype Cut = NeedMore | Part(end: nat) | Closing(end: nat)

  /** How the tag s[start..end] (from '<' to '>') changes the tag depth. */
  function TagWeight(s: string, start: nat, end: nat): int
    requires start < end < |s|
  {
    if s[start + 1] == '/' then -1 else if s[end - 1] == '/' then 0 else 1
  }

  function Shift(c: Cut, n: nat): Cut {
    match c
    case NeedMore => NeedMore
    case Part(e) => Part(e + n)
    case Closing(e) => Closing(e + n)
  }

  /** The cut of a buffer whose preceding tags have left `depth` elements open. */
  function Scan(s: string, depth: nat): (c: Cut)
    ensures !c.NeedMore? ==> 0 < c.end <= |s|
    decreases |s|, 1
  {
    var start := IndexOf(s, '<');
    if start == -1 then NeedMore else
    var end := IndexOf(s, '>', start);
    if end == -1 then NeedMore else
    AfterTag(s, start, end, depth)
  }

  /** What the first complete tag of a buffer makes of its cut. */
  function AfterTag(s: string, start: nat, end: nat, depth: nat): (c: Cut)
    requires start < end < |s|
    ensures !c.NeedMore? ==> 0 < c.end <= |s|
    decreases |s|, 0
  {
    var d := depth + TagWeight(s, start, end);
    if d == 0 then Part(end + 1)
    else if d < 0 then Closing(end + 1)
    else Shift(Scan(s[end + 1..], d), end + 1)
  }

  /** The byte before position `i`; `before` stands for whatever precedes the buffer. */
  function ByteBefore(s: string, i: nat, before: char): char
    requires i <= |s|
  {
    if i == 0 then before else s[i - 1]
  }

  /** Does the stream start with an XML declaration? */
  predicate Declared(s: string, before: char) {
    var i := IndexOf(s, '>');
    i != -1 && ByteBefore(s, i, before) == '?'
  }

  /** What is put before the stream header. */
  function Prologue(s: string, before: char): string {
    if Declared(s, before) then "" else XML_HEADER
  }

  /** The end of the stream header: the first '>', or the second one after a declaration. */
  function HeaderEnd(s: string, before: char): (e: int)
    ensures e == -1 || 0 < e <= |s|
  {
    var i := IndexOf(s, '>');
    if i == -1 then -1
    else if ByteBefore(s, i, before) != '?' then i + 1
    else
      var j := IndexOf(s, '>', i + 1);
      if j == -1 then -1 else j + 1
  }

  /** The header ends right behind a '>': the first one, or the next one behind a declaration's. */
  lemma HeaderEndsAtBracket(s: string, before: char)
    ensures var e := HeaderEnd(s, before);
            var from := if Declared(s, before) then IndexOf(s, '>') + 1 else 0;
            if e == -1 then '>' !in s[from..] else from < e && s[e - 1] == '>' && '>' !in s[from..e - 1]
  {
  }

  datatype Framed = Incomplete | Framed(part: string, rest: string)

  function Take(data: string, first: bool, before: char): (f: Framed)
    ensures f.Framed? ==> |f.rest| < |data|
  {
    if first then
      var e := HeaderEnd(data, before);
      if e == -1 then Incomplete
      else Framed(Prologue(data, before) + data[..e], data[e..])
    else
      match Scan(data, 0)
      case NeedMore => Incomplete
      case Part(e) => Framed(data[..e], data[e..])
      case Closing(_) => Framed(data, "")
  }

  /** Parser::nextPart. `before` is the byte that `data[begin - 1]` reads when the stream
      header starts with '>'. */
  method NextPart(data: string, first: bool, before: char)
    returns (result: string, rest: string, needMoreData: bool)
    ensures needMoreData ==> Take(data, first, before).Incomplete? && result == "" && rest == data
    ensures !needMoreData ==> Take(data, first, before) == Framed(result, rest)
  {
    result, rest, needMoreData := "", data, false;
    if first {
      hide Scan, AfterTag;
      var begin := IndexOf(data, '>');
      if begin == -1 {
        needMoreData := true;
        return;
      }
      if ByteBefore(data, begin, before) != '?' {
        result := result + XML_HEADER;
        begin := -1;
      }
      assert result == Prologue(data, before);
      var end := IndexOf(data, '>', begin + 1) + 1;
      if end <= 0 {
        return "", data, true;
      }
      assert end == HeaderEnd(data, before);
      result := result + data[..end];
      rest := data[end..];
    } else {
      hide Scan, AfterTag, Shift, HeaderEnd, Prologue;
      ShiftByZero(Scan(data, 0));
      var depth := 0;
      var index := 0;
      while true
        invariant 0 <= index <= |data| && depth >= 0
        invariant Shift(Scan(data[index..], depth), index) == Scan(data, 0)
        invariant result == "" && rest == data && !needMoreData
        decreases |data| - index
      {
        var start := IndexOf(data, '<', index);
        var end := if start == -1 then -1 else IndexOf(data, '>', start);
        if start == -1 || end == -1 {
          ScanNothing(data, index, depth);
          needMoreData := true;
          return;
        }
        ScanTurn(data, index, depth, start, end);
        index := end + 1;
        var startTag := data[start + 1] != '/';
        if startTag {
          var emptyTag := data[end - 1] == '/';
          depth := depth + if emptyTag then 0 else 1;
        } else {
          depth := depth - 1;
        }
        if depth == 0 {
          break;
        } else if depth < 0 {
          result, rest := rest, result;
          return;
        }
      }
      result := data[..index];
      rest := data[|result|..];
    }
  }

  /** Searching from `from` and searching the suffix at `index` agree. */
  lemma {:induction false} SuffixIndex(s: string, index: nat, c: char, from: nat)
    requires index <= from <= |s|
    ensures var i := IndexOf(s, c, from);
            IndexOf(s[index..], c, from - index) == if i == -1 then -1 else i - index
  {
  }

  lemma ScanFirstTag(s: string, depth: nat, start: nat, end: nat)
    requires IndexOf(s, '<') == start && IndexOf(s, '>', start) == end
    ensures Scan(s, depth) == AfterTag(s, start, end, depth)
  {
  }

  /** One turn of the scanning loop, in positions of the whole buffer. */
  lemma {:induction false} ScanStep(s: string, index: nat, depth: nat, start: nat, end: nat)
    requires index <= |s|
    requires IndexOf(s, '<', index) == start && IndexOf(s, '>', start) == end
    ensures Shift(Scan(s[index..], depth), index) == AfterTag(s, start, end, depth)
  {
    var t := s[index..];
    SuffixIndex(s, index, '<', index);
    SuffixIndex(s, index, '>', start);
    ScanFirstTag(t, depth, start - index, end - index);
    AfterTagShift(s, index, start, end, depth);
  }

  lemma {:induction false} AfterTagShift(s: string, index: nat, start: nat, end: nat, depth: nat)
    requires index <= start < end < |s|
    ensures Shift(AfterTag(s[index..], start - index, end - index, depth), index) == AfterTag(s, start, end, depth)
  {
  }

  /** What the loop of NextPart knows after one turn. */
  lemma {:induction false} ScanTurn(s: string, index: nat, depth: nat, start: nat, end: nat)
    requires index <= |s|
    requires IndexOf(s, '<', index) == start && IndexOf(s, '>', start) == end
    ensures var d := depth + TagWeight(s, start, end);
            Shift(Scan(s[index..], depth), index) ==
              if d == 0 then Part(end + 1) else if d < 0 then Closing(end + 1)
              else Shift(Scan(s[end + 1..], d), end + 1)
  {
    ScanStep(s, index, depth, start, end);
  }

  lemma {:induction false} ScanNothing(s: string, index: nat, depth: nat)
    requires index <= |s|
    requires IndexOf(s, '<', index) == -1 || IndexOf(s, '>', IndexOf(s, '<', index)) == -1
    ensures Shift(Scan(s[index..], depth), index) == NeedMore
  {
  }

  lemma ShiftByZero(c: Cut)
    ensures Shift(c, 0) == c
  {
  }

  // ---------------------------------------------------------------- the cut, independently

  /** A reader that sees one byte at a time: outside tags, just behind a '<', or inside a tag
      whose second byte and last byte are known. */
  datatype Mode = InText | Opened | InTag(second: char, last: char)

  /** Such a reader also counts the tags it has passed and the elements left open. */
  datatype Reader = Reader(mode: Mode, depth: int, tags: nat)

  function ReadByte(r: Reader, c: char): Reader {
    match r.mode
    case InText => if c == '<' then r.(mode := Opened) else r
    case Opened => if c == '>' then Reader(InText, r.depth + 1, r.tags + 1) else r.(mode := InTag(c, c))
    case InTag(second, last) =>
      if c != '>' then r.(mode := InTag(second, c))
      else Reader(InText, r.depth + (if second == '/' then -1 else if last == '/' then 0 else 1), r.tags + 1)
  }

  function Read(r: Reader, s: string): Reader
    decreases |s|
  {
    if s == "" then r else Read(ReadByte(r, s[0]), s[1..])
  }

  /** The tag depth has returned to zero (or below) at the end of a tag. */
  predicate Done(r: Reader) {
    r.mode.InText? && r.tags > 0 && r.depth <= 0
  }

  lemma {:induction false} ReadAppend(r: Reader, a: string, b: string)
    ensures Read(r, a + b) == Read(Read(r, a), b)
    decreases |a|
  {
    if a == "" {
      assert a + b == b;
    } else {
      assert (a + b)[1..] == a[1..] + b;
      ReadAppend(ReadByte(r, a[0]), a[1..], b);
    }
  }

  lemma {:induction false} ReadText(r: Reader, s: string)
    requires r.mode.InText? && '<' !in s
    ensures Read(r, s) == r
  {
    if s != "" {
      ReadText(r, s[1..]);
    }
  }

  lemma {:induction false} ReadTag(r: Reader, s: string)
    requires r.mode.Opened? && '>' !in s
    ensures Read(r, s) == if s == "" then r else r.(mode := InTag(s[0], s[|s| - 1]))
  {
    if s != "" {
      ReadTag(r, s[..|s| - 1]);
      assert s == s[..|s| - 1] + [s[|s| - 1]];
      ReadAppend(r, s[..|s| - 1], [s[|s| - 1]]);
      var r' := Read(r, s[..|s| - 1]);
      assert [s[|s| - 1]][1..] == "";
      assert Read(r', [s[|s| - 1]]) == Read(ReadByte(r', s[|s| - 1]), "");
    }
  }

  /** The reader somewhere inside the first tag. */
  lemma {:induction false} ReadIntoTag(r: Reader, s: string, k: nat)
    requires r.mode.InText? && IndexOf(s, '<') != -1 && IndexOf(s, '<') < k <= |s|
    requires '>' !in s[IndexOf(s, '<') + 1..k]
    ensures var inside := s[IndexOf(s, '<') + 1..k];
            Read(r, s[..k]) == r.(mode := if inside == "" then Opened else InTag(inside[0], inside[|inside| - 1]))
  {
    var start := IndexOf(s, '<');
    var inside := s[start + 1..k];
    ReadText(r, s[..start]);
    assert s[..k] == s[..start] + ([s[start]] + inside);
    ReadAppend(r, s[..start], [s[start]] + inside);
    assert ([s[start]] + inside)[1..] == inside;
    ReadTag(r.(mode := Opened), inside);
  }

  /** The reader behind the first tag. */
  lemma {:induction false} ReadPastTag(r: Reader, s: string, start: nat, end: nat)
    requires r.mode.InText? && IndexOf(s, '<') == start && IndexOf(s, '>', start) == end
    ensures Read(r, s[..end + 1]) == Reader(InText, r.depth + TagWeight(s, start, end), r.tags + 1)
  {
    ReadIntoTag(r, s, end);
    assert s[..end + 1] == s[..end] + ['>'];
    ReadAppend(r, s[..end], ['>']);
    ReadOne(Read(r, s[..end]), '>');
  }

  lemma ReadOne(r: Reader, c: char)
    ensures Read(r, [c]) == ReadByte(r, c)
  {
  }

  /** A part is the shortest prefix after which the tag depth is back at zero; the stream is
      closed by the first end tag that takes it below zero; otherwise more data is needed. */
  lemma {:induction false} CutIsShortest(s: string, r: Reader)
    requires r.mode.InText? && r.depth >= 0 && !Done(r)
    ensures var c := Scan(s, r.depth);
            && (forall k :: 0 <= k <= |s| && (c.NeedMore? || k < c.end) ==> !DoneAt(r, s, k))
            && (!c.NeedMore? ==> DoneAt(r, s, c.end))
            && (c.Part? ==> Read(r, s[..c.end]).depth == 0)
            && (c.Closing? ==> Read(r, s[..c.end]).depth < 0)
    decreases |s|
  {
    hide Read;
    var c := Scan(s, r.depth);
    var start := IndexOf(s, '<');
    var end := if start == -1 then -1 else IndexOf(s, '>', start);
    forall k | 0 <= k <= |s| && (end == -1 || k <= end) ensures !DoneAt(r, s, k) {
      NotDoneBefore(r, s, k);
    }
    if end != -1 {
      ReadPastTag(r, s, start, end);
      var r' := Reader(InText, r.depth + TagWeight(s, start, end), r.tags + 1);
      assert Read(r, s[..end + 1]) == r';
      if r'.depth > 0 {
        CutIsShortest(s[end + 1..], r');
        forall k | end < k <= |s| ensures Read(r, s[..k]) == Read(r', s[end + 1..][..k - end - 1]) {
          SplitRead(r, s, end + 1, k);
        }
        forall k | end < k <= |s| && (c.NeedMore? || k < c.end) ensures !DoneAt(r, s, k) {
          assert !DoneAt(r', s[end + 1..], k - end - 1);
        }
      }
    }
  }

  predicate DoneAt(r: Reader, s: string, k: nat)
    requires k <= |s|
  {
    Done(Read(r, s[..k]))
  }

  lemma {:induction false} NotDoneBefore(r: Reader, s: string, k: nat)
    requires r.mode.InText? && !Done(r) && k <= |s|
    requires var start := IndexOf(s, '<'); start == -1 || IndexOf(s, '>', start) == -1 || k <= IndexOf(s, '>', start)
    ensures !DoneAt(r, s, k)
  {
    var start := IndexOf(s, '<');
    if start == -1 || k <= start {
      ReadText(r, s[..k]);
    } else {
      ReadIntoTag(r, s, k);
    }
  }

  lemma {:induction false} SplitRead(r: Reader, s: string, m: nat, k: nat)
    requires m <= k <= |s|
    ensures Read(r, s[..k]) == Read(Read(r, s[..m]), s[m..][..k - m])
  {
    assert s[..k] == s[..m] + s[m..][..k - m];
    ReadAppend(r, s[..m], s[m..][..k - m]);
  }
}
