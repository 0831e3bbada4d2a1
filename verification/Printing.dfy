/**
 The framer inverts the printer: whatever well-formed stanzas the peer prints, draining the
 stream gives back the stream header and then exactly one part per stanza.
 XML is restricted as in section 11.1 of RFC 6120: no comments, processing instructions or
 DTDs, and no raw '>' inside a tag.
 */
module Printing {
  import opened Bytes
  import opened Framer
  import opened Chunking

  /** A node of the printed stream. The tag of an element includes its attributes. */
  datatype Node =
    | Text(text: string)
    | Empty(tag: string)
    | Element(tag: string, kids: seq<Node>, name: string)

  function Print(n: Node): string {
    match n
    case Text(text) => text
    case Empty(tag) => Tag(tag + "/")
    case Element(tag, kids, name) => Tag(tag) + (PrintAll(kids) + Tag("/" + name))
  }

  function PrintAll(ns: seq<Node>): string {
    if ns == [] then "" else Print(ns[0]) + PrintAll(ns[1..])
  }

  function Tag(body: string): string {
    "<" + body + ">"
  }

  predicate WellFormed(n: Node) {
    match n
    case Text(text) => '<' !in text
    case Empty(tag) => TagText(tag)
    case Element(tag, kids, name) =>
      TagText(tag) && tag[|tag| - 1] != '/' && '>' !in name && forall k :: k in kids ==> WellFormed(k)
  }

  predicate TagText(tag: string) {
    tag != "" && tag[0] != '/' && '>' !in tag
  }

  // ---------------------------------------------------------------- scanning printed pieces

  /** The weight of a tag with this text between its angle brackets. */
  function BodyWeight(body: string): int {
    if body != "" && body[0] == '/' then -1
    else if body != "" && body[|body| - 1] == '/' then 0
    else 1
  }

  lemma {:induction false} ScanTag(body: string, rest: string, depth: nat)
    requires '>' !in body
    ensures Scan(Tag(body) + rest, depth) ==
              var d := depth + BodyWeight(body);
              if d == 0 then Part(|body| + 2) else if d < 0 then Closing(|body| + 2)
              else Shift(Scan(rest, d), |body| + 2)
  {
    var s := Tag(body) + rest;
    var end := |body| + 1;
    assert s[0] == '<' && s[end] == '>';
    assert forall i :: 0 < i < end ==> s[i] == body[i - 1];
    assert IndexOf(s, '<') == 0 && IndexOf(s, '>', 0) == end;
    ScanFirstTag(s, depth, 0, end);
    assert TagWeight(s, 0, end) == BodyWeight(body);
    assert s[end + 1..] == rest;
  }

  lemma {:induction false} ScanText(text: string, rest: string, depth: nat)
    requires '<' !in text
    ensures Scan(text + rest, depth) == Shift(Scan(rest, depth), |text|)
  {
    hide Scan, AfterTag;
    var s := text + rest;
    assert s[|text|..] == rest;
    IndexOfAfter(text, rest, '<');
    var start := IndexOf(s, '<');
    ShiftByZero(Scan(s, depth));
    assert s[0..] == s;
    if start == -1 || IndexOf(s, '>', start) == -1 {
      ScanNothing(s, 0, depth);
      SameTagStart(text, rest);
      ScanNothing(s, |text|, depth);
    } else {
      SameTagStart(text, rest);
      ScanStep(s, 0, depth, start, IndexOf(s, '>', start));
      ScanStep(s, |text|, depth, start, IndexOf(s, '>', start));
    }
  }

  lemma {:induction false} SameTagStart(text: string, rest: string)
    requires '<' !in text
    ensures IndexOf(text + rest, '<', |text|) == IndexOf(text + rest, '<')
  {
  }

  lemma ShiftTwice(c: Cut, m: nat, n: nat)
    ensures Shift(Shift(c, m), n) == Shift(c, m + n)
  {
  }

  /** Inside an element a printed node leaves no trace but its length. */
  lemma {:induction false} ScanPrint(n: Node, rest: string, depth: nat)
    requires WellFormed(n) && (depth > 0 || n.Text?)
    ensures Scan(Print(n) + rest, depth) == Shift(Scan(rest, depth), |Print(n)|)
    decreases n, 1
  {
    hide Scan;
    match n
    case Text(text) => ScanText(text, rest, depth);
    case Empty(tag) => ScanTag(tag + "/", rest, depth);
    case Element(_, _, _) => ScanElement(n, rest, depth);
  }

  /** An element: its own depth is what remains after its end tag. */
  lemma {:induction false} ScanElement(n: Node, rest: string, depth: nat)
    requires WellFormed(n) && n.Element?
    ensures Scan(Print(n) + rest, depth) ==
              if depth == 0 then Part(|Print(n)|) else Shift(Scan(rest, depth), |Print(n)|)
    decreases n, 0
  {
    hide Scan, Tag, PrintAll;
    var open, inner, close := Tag(n.tag), PrintAll(n.kids), Tag("/" + n.name);
    TagLength(n.tag);
    TagLength("/" + n.name);
    assert Print(n) + rest == open + (inner + (close + rest));
    ScanTag(n.tag, inner + (close + rest), depth);
    ScanPrintAll(n, n.kids, close + rest, depth + 1);
    ScanTag("/" + n.name, rest, depth + 1);
    ShiftTwice(Scan(close + rest, depth + 1), |inner|, |open|);
    if depth > 0 {
      ShiftTwice(Scan(rest, depth), |close|, |inner| + |open|);
    }
  }

  lemma TagLength(body: string)
    ensures |Tag(body)| == |body| + 2
  {
  }

  lemma {:induction false} ScanPrintAll(parent: Node, ns: seq<Node>, rest: string, depth: nat)
    requires depth > 0 && forall k :: k in ns ==> WellFormed(k) && k < parent
    ensures Scan(PrintAll(ns) + rest, depth) == Shift(Scan(rest, depth), |PrintAll(ns)|)
    decreases parent, 0, |ns|
  {
    hide Scan, Print, WellFormed;
    if ns == [] {
      assert "" + rest == rest;
      ShiftByZero(Scan(rest, depth));
    } else {
      assert ns[0] in ns;
      assert PrintAll(ns) + rest == Print(ns[0]) + (PrintAll(ns[1..]) + rest);
      ScanPrint(ns[0], PrintAll(ns[1..]) + rest, depth);
      ScanPrintAll(parent, ns[1..], rest, depth);
      ShiftTwice(Scan(rest, depth), |PrintAll(ns[1..])|, |Print(ns[0])|);
    }
  }

  // ---------------------------------------------------------------- whole streams

  /** The stream header: an optional XML declaration and the stream start tag. */
  datatype Header = Plain(tag: string) | Declaration(decl: string, gap: string, tag: string)

  function PrintHeader(h: Header): string {
    match h
    case Plain(tag) => Tag(tag)
    case Declaration(decl, gap, tag) => Tag("?" + decl + "?") + (gap + Tag(tag))
  }

  predicate WellFormedHeader(h: Header) {
    '>' !in h.tag && h.tag != "" && h.tag[|h.tag| - 1] != '?' && (h.Declaration? ==> '>' !in h.decl && '>' !in h.gap)
  }

  /** A stanza with the white space that the peer sent before it. */
  datatype Stanza = Stanza(lead: string, root: Node)

  predicate WellFormedStanza(s: Stanza) {
    '<' !in s.lead && !s.root.Text? && WellFormed(s.root)
  }

  function PrintStanza(s: Stanza): string {
    s.lead + Print(s.root)
  }

  function PrintStanzas(ss: seq<Stanza>): seq<string> {
    if ss == [] then [] else [PrintStanza(ss[0])] + PrintStanzas(ss[1..])
  }

  /** How a stream ends: still open behind some white space, or with the closing stream tag. */
  datatype Tail = Open(space: string) | Closed(space: string, name: string)

  function PrintTail(t: Tail): string {
    if t.Open? then t.space else t.space + Tag("/" + t.name)
  }

  predicate WellFormedTail(t: Tail) {
    '<' !in t.space && (t.Closed? ==> '>' !in t.name)
  }

  lemma {:induction false} ScanStanza(s: Stanza, rest: string)
    requires WellFormedStanza(s)
    ensures Scan(PrintStanza(s) + rest, 0) == Part(|PrintStanza(s)|)
  {
    hide Scan, Print;
    assert PrintStanza(s) + rest == s.lead + (Print(s.root) + rest);
    ScanText(s.lead, Print(s.root) + rest, 0);
    if s.root.Element? {
      ScanElement(s.root, rest, 0);
    } else {
      ScanEmpty(s.root, rest);
    }
  }

  lemma {:induction false} ScanEmpty(n: Node, rest: string)
    requires n.Empty? && WellFormed(n)
    ensures Scan(Print(n) + rest, 0) == Part(|Print(n)|)
  {
    hide Scan;
    ScanTag(n.tag + "/", rest, 0);
  }

  lemma {:induction false} ScanTail(t: Tail)
    requires WellFormedTail(t)
    ensures Scan(PrintTail(t), 0) == if t.Open? then NeedMore else Closing(|PrintTail(t)|)
  {
    hide Scan;
    if t.Open? {
      ScanText(t.space, "", 0);
      assert t.space + "" == t.space;
      assert Scan("", 0) == NeedMore by {
        ScanNothing("", 0, 0);
        assert ""[0..] == "";
        ShiftByZero(Scan("", 0));
      }
    } else {
      var close := Tag("/" + t.name);
      ScanText(t.space, close, 0);
      assert close + "" == close;
      ScanTag("/" + t.name, "", 0);
    }
  }

  lemma {:induction false} DrainStanzas(ss: seq<Stanza>, t: Tail, before: char)
    requires WellFormedTail(t) && forall s :: s in ss ==> WellFormedStanza(s)
    ensures Drain(Flatten(PrintStanzas(ss)) + PrintTail(t), false, before) ==
              if t.Open? then Run(PrintStanzas(ss), PrintTail(t), false)
              else Run(PrintStanzas(ss) + [PrintTail(t)], "", false)
  {
    hide Scan, PrintTail, PrintStanza, Drain, WellFormedStanza;
    var buffer := Flatten(PrintStanzas(ss)) + PrintTail(t);
    DrainTake(buffer, false, before);
    if ss == [] {
      assert "" + PrintTail(t) == PrintTail(t);
      ScanTail(t);
      DrainTake("", false, before);
      assert Take("", false, before).Incomplete?;
    } else {
      var part, rest := PrintStanza(ss[0]), Flatten(PrintStanzas(ss[1..])) + PrintTail(t);
      assert PrintStanzas(ss)[1..] == PrintStanzas(ss[1..]);
      assert buffer == part + rest;
      ScanStanza(ss[0], rest);
      assert Take(buffer, false, before) == Framed(part, rest);
      DrainStanzas(ss[1..], t, before);
      assert [part] + (PrintStanzas(ss[1..]) + [PrintTail(t)]) == PrintStanzas(ss) + [PrintTail(t)];
    }
  }

  /** Where the first '>' at or after |a| is, in a text that goes on with a printed tag. */
  lemma {:induction false} TagEnd(a: string, body: string, rest: string)
    requires '>' !in body
    ensures var s := a + (Tag(body) + rest);
            IndexOf(s, '>', |a|) == |a| + |body| + 1 && s[|a| + |body|] == if body == "" then '<' else body[|body| - 1]
  {
    var s := a + (Tag(body) + rest);
    var t := Tag(body) + rest;
    assert t[0] == '<' && t[|body| + 1] == '>';
    assert forall i :: 0 <= i < |body| ==> t[i + 1] == body[i];
    assert forall i :: 0 <= i < |t| ==> s[|a| + i] == t[i];
    assert forall k :: |a| <= k <= |a| + |body| ==> s[k] == t[k - |a|];
  }

  lemma {:induction false} HeaderOfPrint(h: Header, rest: string, before: char)
    requires WellFormedHeader(h)
    ensures var s := PrintHeader(h) + rest;
            HeaderEnd(s, before) == |PrintHeader(h)| && (Declared(s, before) <==> h.Declaration?)
  {
    hide Tag;
    match h
    case Plain(tag) =>
      TagEnd("", tag, rest);
      TagLength(tag);
      assert PrintHeader(h) + rest == "" + (Tag(tag) + rest);
    case Declaration(decl, gap, tag) => DeclarationOfPrint(h, rest, before);
  }

  lemma {:induction false} DeclarationOfPrint(h: Header, rest: string, before: char)
    requires WellFormedHeader(h) && h.Declaration?
    ensures var s := PrintHeader(h) + rest;
            HeaderEnd(s, before) == |PrintHeader(h)| && Declared(s, before)
  {
    hide Tag;
    var s := PrintHeader(h) + rest;
    var body := "?" + h.decl + "?";
    var d := Tag(body);
    TagEnd("", body, h.gap + Tag(h.tag) + rest);
    TagEnd(d + h.gap, h.tag, rest);
    TagLength(body);
    TagLength(h.tag);
    assert s == "" + (d + (h.gap + Tag(h.tag) + rest));
    assert s == (d + h.gap) + (Tag(h.tag) + rest);
    GapSkipped(d, h.gap, Tag(h.tag) + rest);
  }

  lemma {:induction false} GapSkipped(d: string, gap: string, rest: string)
    requires '>' !in gap
    ensures IndexOf((d + gap) + rest, '>', |d|) == IndexOf((d + gap) + rest, '>', |d + gap|)
  {
  }

  predicate WellFormedStream(h: Header, ss: seq<Stanza>, t: Tail) {
    WellFormedHeader(h) && WellFormedTail(t) && forall s :: s in ss ==> WellFormedStanza(s)
  }

  function PrintStream(h: Header, ss: seq<Stanza>, t: Tail): string {
    PrintHeader(h) + (Flatten(PrintStanzas(ss)) + PrintTail(t))
  }

  /** The parts of a stream: its header, with a declaration, its stanzas, and its end. */
  function PartsOf(h: Header, ss: seq<Stanza>, t: Tail): seq<string> {
    [(if h.Declaration? then "" else XML_HEADER) + PrintHeader(h)]
    + if t.Open? then PrintStanzas(ss) else PrintStanzas(ss) + [PrintTail(t)]
  }

  /** Draining a printed stream takes exactly its parts. */
  lemma {:induction false} FramerInvertsPrinter(h: Header, ss: seq<Stanza>, t: Tail, before: char)
    requires WellFormedStream(h, ss, t)
    ensures Drain(PrintStream(h, ss, t), true, before) ==
              Run(PartsOf(h, ss, t), if t.Open? then PrintTail(t) else "", false)
  {
    hide HeaderEnd, Declared, PrintHeader, PrintTail, PrintStanzas, Drain, Scan, WellFormedStanza, WellFormedTail;
    var rest := Flatten(PrintStanzas(ss)) + PrintTail(t);
    var s := PrintStream(h, ss, t);
    HeaderOfPrint(h, rest, before);
    assert s[..|PrintHeader(h)|] == PrintHeader(h) && s[|PrintHeader(h)|..] == rest;
    DrainTake(s, true, before);
    DrainStanzas(ss, t, before);
  }

  /** A printed stream has nothing after its closing tag, so its chunks do not matter either. */
  lemma {:induction false} StanzasEndCleanly(ss: seq<Stanza>, t: Tail, before: char)
    requires WellFormedTail(t) && forall s :: s in ss ==> WellFormedStanza(s)
    ensures NothingAfterClose(Flatten(PrintStanzas(ss)) + PrintTail(t), false, before)
  {
    hide Scan, PrintTail, PrintStanza, WellFormedStanza;
    var buffer := Flatten(PrintStanzas(ss)) + PrintTail(t);
    if ss == [] {
      assert "" + PrintTail(t) == PrintTail(t);
      ScanTail(t);
    } else {
      var part, rest := PrintStanza(ss[0]), Flatten(PrintStanzas(ss[1..])) + PrintTail(t);
      assert PrintStanzas(ss)[1..] == PrintStanzas(ss[1..]);
      assert buffer == part + rest;
      ScanStanza(ss[0], rest);
      assert Take(buffer, false, before) == Framed(part, rest);
      StanzasEndCleanly(ss[1..], t, before);
    }
  }

  /** However a printed stream is cut into chunks, the loop takes exactly its parts. */
  lemma {:induction false} PrintedStreamInAnyChunks(
      h: Header, ss: seq<Stanza>, t: Tail, chunks: seq<string>, before: char)
    requires WellFormedStream(h, ss, t) && Flatten(chunks) == PrintStream(h, ss, t)
    ensures FeedAll(START, chunks, before).parts == PartsOf(h, ss, t)
  {
    hide *;
    var s := PrintStream(h, ss, t);
    PrintedStreamIsClean(h, ss, t, before);
    ChunkingMattersOnlyAfterClose(s, before);
    FramerInvertsPrinter(h, ss, t, before);
    FeedStart(s, before);
  }

  lemma FeedStart(s: string, before: char)
    ensures Feed(START, s, before).parts == Drain(s, true, before).parts
  {
    hide Drain;
    assert "" + s == s;
  }

  lemma {:induction false} PrintedStreamIsClean(h: Header, ss: seq<Stanza>, t: Tail, before: char)
    requires WellFormedStream(h, ss, t)
    ensures NothingAfterClose(PrintStream(h, ss, t), true, before)
  {
    hide HeaderEnd, Declared, PrintHeader, PrintTail, PrintStanzas, Scan, WellFormedStanza, WellFormedTail;
    var rest := Flatten(PrintStanzas(ss)) + PrintTail(t);
    HeaderOfPrint(h, rest, before);
    assert PrintStream(h, ss, t)[|PrintHeader(h)|..] == rest;
    StanzasEndCleanly(ss, t, before);
  }
}
