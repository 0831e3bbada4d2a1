/**
 The token tape of a received stanza (the token part of StanzaFactory's event handlers) and its
 replay with compressed default namespaces (StanzaFactory::serialize).
 */
module Replay {
  import opened Wrappers
  import opened XmlTree

  // ---------------------------------------------------------------- recording

  /** Drop the character tokens at the end of the tape. */
  function DropText(tokens: seq<Event>): seq<Event> {
    if tokens != [] && tokens[|tokens| - 1].Characters? then DropText(tokens[..|tokens| - 1]) else tokens
  }

  function Record(tokens: seq<Event>, ev: Event): seq<Event> {
    match ev
    case Start(_, _, _) => DropText(tokens) + [ev]
    case Characters(_) => if tokens != [] && tokens[|tokens| - 1].End? then tokens else tokens + [ev]
    case End => tokens + [ev]
  }

  function RecordAll(tokens: seq<Event>, evs: seq<Event>): seq<Event>
    decreases |evs|
  {
    if evs == [] then tokens else RecordAll(Record(tokens, evs[0]), evs[1..])
  }

  lemma {:induction false} RecordAppend(tokens: seq<Event>, a: seq<Event>, b: seq<Event>)
    ensures RecordAll(tokens, a + b) == RecordAll(RecordAll(tokens, a), b)
    decreases |a|
  {
    hide Record;
    if a == [] {
      assert a + b == b;
    } else {
      assert (a + b)[1..] == a[1..] + b;
      RecordAppend(Record(tokens, a[0]), a[1..], b);
    }
  }

  lemma RecordOne(tokens: seq<Event>, ev: Event)
    ensures RecordAll(tokens, [ev]) == Record(tokens, ev)
  {
  }

  // ---------------------------------------------------------------- what the tape keeps

  predicate HasChild(ns: seq<Node>) {
    exists n :: n in ns && n.Child?
  }

  /** The tree without the text of the elements that have child elements. */
  function Prune(e: Element): Element {
    e.(kids := PruneAll(e.kids, HasChild(e.kids)))
  }

  function PruneAll(ns: seq<Node>, dropText: bool): seq<Node> {
    if ns == [] then [] else PruneNode(ns[0], dropText) + PruneAll(ns[1..], dropText)
  }

  function PruneNode(n: Node, dropText: bool): seq<Node> {
    match n
    case Text(_) => if dropText then [] else [n]
    case Child(e) => [Child(Prune(e))]
  }

  lemma {:induction false} PruneAppend(a: seq<Node>, b: seq<Node>, dropText: bool)
    ensures PruneAll(a + b, dropText) == PruneAll(a, dropText) + PruneAll(b, dropText)
  {
    hide Prune;
    if a == [] {
      assert a + b == b;
    } else {
      assert (a + b)[1..] == a[1..] + b;
      PruneAppend(a[1..], b, dropText);
    }
  }

  lemma PruneOne(n: Node, dropText: bool)
    ensures PruneAll([n], dropText) ==
              if n.Child? then [Child(Prune(n.e))] else if dropText then [] else [n]
  {
  }

  lemma {:induction false} OnlyTextIsKept(ns: seq<Node>)
    requires !HasChild(ns)
    ensures PruneAll(ns, false) == ns
  {
    hide Prune;
    if ns != [] {
      assert ns[0] in ns && forall n :: n in ns[1..] ==> n in ns;
      OnlyTextIsKept(ns[1..]);
    }
  }

  lemma {:induction false} OnlyTextIsDropped(ns: seq<Node>)
    requires !HasChild(ns)
    ensures PruneAll(ns, true) == []
  {
    hide Prune;
    if ns != [] {
      assert ns[0] in ns && forall n :: n in ns[1..] ==> n in ns;
      OnlyTextIsDropped(ns[1..]);
    }
  }

  /** What pruning leaves: an element with text only stays as it is, one with child elements loses its
      text, and one with child elements only keeps each of them, pruned, at its place. */
  lemma {:induction false} WhatPruningLeaves(e: Element)
    ensures Prune(e).name == e.name && Prune(e).uri == e.uri && Prune(e).attributes == e.attributes
    ensures (forall n :: n in e.kids ==> n.Text?) ==> Prune(e) == e
    ensures (exists n :: n in e.kids && n.Child?) ==> forall n :: n in Prune(e).kids ==> n.Child?
    ensures (forall n :: n in e.kids ==> n.Child?) ==>
              && |Prune(e).kids| == |e.kids|
              && forall i :: 0 <= i < |e.kids| ==> Prune(e).kids[i] == Child(Prune(e.kids[i].e))
  {
    PrunedKids(e.kids, HasChild(e.kids));
    if !HasChild(e.kids) {
      OnlyTextIsKept(e.kids);
    }
  }

  lemma {:induction false} PrunedKids(ns: seq<Node>, dropText: bool)
    ensures dropText ==> forall n :: n in PruneAll(ns, dropText) ==> n.Child?
    ensures (forall n :: n in ns ==> n.Child?) ==>
              && |PruneAll(ns, dropText)| == |ns|
              && forall i :: 0 <= i < |ns| ==> PruneAll(ns, dropText)[i] == Child(Prune(ns[i].e))
  {
    hide Prune;
    if ns != [] {
      PrunedKids(ns[1..], dropText);
      assert forall n :: n in ns[1..] ==> n in ns;
      assert ns[0] in ns;
    }
  }

  lemma EventsOfNone()
    ensures EventsOfAll([]) == []
  {
  }

  /** The events of text nodes disappear when the next element starts. */
  lemma {:induction false} DropTextNodes(tape: seq<Event>, ns: seq<Node>)
    requires !HasChild(ns) && (tape == [] || !tape[|tape| - 1].Characters?)
    ensures DropText(tape + EventsOfAll(ns)) == tape
    decreases |ns|
  {
    hide EventsOfAll;
    if ns == [] {
      assert EventsOfAll([]) == [] by {
        EventsOfNone();
      }
      assert tape + [] == tape;
    } else {
      var m := |ns| - 1;
      assert ns == ns[..m] + [ns[m]];
      assert ns[m] in ns && forall n :: n in ns[..m] ==> n in ns;
      EventsOfAppend(ns[..m], [ns[m]]);
      EventsOfOne(ns[m]);
      var t := tape + EventsOfAll(ns);
      assert t == (tape + EventsOfAll(ns[..m])) + [Characters(ns[m].text)];
      assert t[..|t| - 1] == tape + EventsOfAll(ns[..m]);
      DropTextNodes(tape, ns[..m]);
    }
  }

  lemma {:induction false} LastEvent(ns: seq<Node>, tape: seq<Event>)
    requires ns != []
    ensures EventsOfAll(ns) != []
    ensures var t := tape + EventsOfAll(ns);
            if ns[|ns| - 1].Child? then t[|t| - 1] == End else t[|t| - 1].Characters?
  {
    var m := |ns| - 1;
    assert ns == ns[..m] + [ns[m]];
    EventsOfAppend(ns[..m], [ns[m]]);
    EventsOfOne(ns[m]);
    match ns[m]
    case Text(_) =>
    case Child(e) =>
      hide EventsOfAll;
      assert Events(e) == ([StartOf(e)] + EventsOfAll(e.kids)) + [End];
  }

  /** Recording an element records the pruned element, behind the tape without trailing text. */
  lemma {:induction false} RecordElement(e: Element, tape: seq<Event>)
    ensures RecordAll(tape, Events(e)) == DropText(tape) + Events(Prune(e))
    decreases e, 1
  {
    hide RecordAll, EventsOfAll, PruneAll, DropText, HasChild;
    var s := [StartOf(e)];
    var t := DropText(tape) + s;
    RecordAppend(tape, s + EventsOfAll(e.kids), [End]);
    RecordAppend(tape, s, EventsOfAll(e.kids));
    RecordOne(tape, StartOf(e));
    RecordKids(e, e.kids, t);
    var kept := EventsOfAll(PruneAll(e.kids, HasChild(e.kids)));
    RecordOne(t + kept, End);
    assert DropText(tape) + ((s + kept) + [End]) == (t + kept) + [End];
    assert StartOf(Prune(e)) == StartOf(e);
  }

  /** The children recorded so far: their text as long as no child element has been seen. */
  lemma {:induction false} RecordKids(parent: Element, ns: seq<Node>, tape: seq<Event>)
    requires tape != [] && tape[|tape| - 1].Start?
    requires forall n :: n in ns ==> n < parent
    ensures RecordAll(tape, EventsOfAll(ns)) == tape + EventsOfAll(PruneAll(ns, HasChild(ns)))
    decreases parent, 0, |ns|
  {
    hide Record, Prune, PruneAll;
    if ns == [] {
      assert PruneAll(ns, HasChild(ns)) == [] by {
        OnlyTextIsDropped(ns);
        OnlyTextIsKept(ns);
      }
      assert tape + [] == tape;
    } else {
      var m := |ns| - 1;
      var before, n := ns[..m], ns[m];
      assert ns == before + [n];
      assert n in ns && forall k :: k in before ==> k in ns;
      EventsOfAppend(before, [n]);
      EventsOfOne(n);
      RecordAppend(tape, EventsOfAll(before), EventsOf(n));
      RecordKids(parent, before, tape);
      if n.Text? {
        RecordTextKid(before, n, tape);
      } else {
        RecordElement(n.e, tape + EventsOfAll(PruneAll(before, HasChild(before))));
        RecordChildKid(before, n, tape);
      }
    }
  }

  lemma {:induction false} RecordTextKid(before: seq<Node>, n: Node, tape: seq<Event>)
    requires tape != [] && tape[|tape| - 1].Start? && n.Text?
    ensures var ns := before + [n];
            RecordAll(tape + EventsOfAll(PruneAll(before, HasChild(before))), EventsOf(n))
              == tape + EventsOfAll(PruneAll(ns, HasChild(ns)))
  {
    hide Prune, PruneAll, RecordAll, EventsOfAll;
    var ns := before + [n];
    var kept := PruneAll(before, HasChild(before));
    var t := tape + EventsOfAll(kept);
    RecordOne(t, Characters(n.text));
    HasChildAppend(before, n);
    PruneAppend(before, [n], HasChild(ns));
    PruneOne(n, HasChild(ns));
    if HasChild(before) {
      assert kept + [] == kept;
      LastKept(before);
      LastEvent(kept, tape);
    } else {
      OnlyTextIsKept(before);
      if before != [] {
        assert before[|before| - 1] in before;
        LastEvent(before, tape);
      } else {
        NoEvents();
        assert t == tape;
      }
      EventsOfAppend(kept, [n]);
      EventsOfOne(n);
      assert t + [Characters(n.text)] == tape + (EventsOfAll(kept) + [Characters(n.text)]);
    }
  }

  lemma NoEvents()
    ensures EventsOfAll([]) == []
  {
  }

  lemma HasChildAppend(ns: seq<Node>, n: Node)
    ensures HasChild(ns + [n]) <==> HasChild(ns) || n.Child?
  {
  }

  /** Once there is a child element, the last thing kept is a child element. */
  lemma {:induction false} LastKept(ns: seq<Node>)
    requires HasChild(ns)
    ensures var kept := PruneAll(ns, true); kept != [] && kept[|kept| - 1].Child?
    decreases |ns|
  {
    hide Prune, PruneAll;
    var m := |ns| - 1;
    assert ns == ns[..m] + [ns[m]];
    HasChildAppend(ns[..m], ns[m]);
    PruneAppend(ns[..m], [ns[m]], true);
    PruneOne(ns[m], true);
    if ns[m].Text? {
      LastKept(ns[..m]);
      assert PruneAll(ns[..m], true) + [] == PruneAll(ns[..m], true);
    }
  }

  lemma {:induction false} RecordChildKid(before: seq<Node>, n: Node, tape: seq<Event>)
    requires tape != [] && tape[|tape| - 1].Start? && n.Child?
    ensures var ns := before + [n];
            DropText(tape + EventsOfAll(PruneAll(before, HasChild(before)))) + Events(Prune(n.e))
              == tape + EventsOfAll(PruneAll(ns, HasChild(ns)))
  {
    hide Prune, PruneAll, EventsOfAll;
    var ns := before + [n];
    HasChildAppend(before, n);
    PruneAppend(before, [n], true);
    PruneOne(n, true);
    var kept := PruneAll(before, true);
    EventsOfAppend(kept, [Child(Prune(n.e))]);
    EventsOfOne(Child(Prune(n.e)));
    assert tape + EventsOfAll(kept) + Events(Prune(n.e)) == tape + (EventsOfAll(kept) + Events(Prune(n.e)));
    if HasChild(before) {
      LastKept(before);
      LastEvent(kept, tape);
    } else {
      OnlyTextIsKept(before);
      OnlyTextIsDropped(before);
      DropTextNodes(tape, before);
      NoEvents();
      assert tape + [] == tape;
    }
  }

  // ---------------------------------------------------------------- replaying

  const CLIENT := "jabber:client"

  /** What is written: a start tag with an optional default namespace declaration, text, an end tag. */
  datatype Op = Open(name: string, xmlns: Option<string>, attributes: Attributes) | Write(text: string) | Close
  /** The depth after a tape, or -1 if it closes more elements than it opened. */
  function Depth(tokens: seq<Event>): int {
    if tokens == [] then 0
    else
      var d := Depth(tokens[..|tokens| - 1]);
      if d < 0 then -1
      else match tokens[|tokens| - 1]
           case Start(_, _, _) => d + 1
           case Characters(_) => d
           case End => d - 1
  }

  /** The operation written for one token, and the uri stack behind it. */
  function ReplayToken(token: Event, isFirst: bool, uries: seq<string>): (Op, seq<string>)
    requires token.End? ==> uries != []
  {
    match token
    case Start(name, uri, attributes) =>
      var currentUri := if isFirst then CLIENT else uri;
      var xmlns := if uries == [] || uries[|uries| - 1] != currentUri then Some(uri) else None;
      (Open(name, xmlns, attributes), uries + [currentUri])
    case Characters(text) => (Write(text), uries)
    case End => (Close, uries[..|uries| - 1])
  }

  /** No end tag comes before its start tag. */
  predicate Balanced(tokens: seq<Event>) {
    forall k :: 0 <= k <= |tokens| ==> Depth(tokens[..k]) >= 0
  }

  /** The operations and the final uri stack of a whole tape. */
  function ReplayTape(tokens: seq<Event>): (r: (seq<Op>, seq<string>))
    requires Balanced(tokens)
    ensures |r.1| == Depth(tokens)
  {
    if tokens == [] then ([], [])
    else
      var m := |tokens| - 1;
      assert tokens[..|tokens|] == tokens;
      assert forall k :: 0 <= k <= m ==> tokens[..m][..k] == tokens[..k];
      assert Depth(tokens[..m]) >= 0;
      var (ops, uries) := ReplayTape(tokens[..m]);
      var (op, uries') := ReplayToken(tokens[m], m == 0, uries);
      (ops + [op], uries')
  }

  lemma PrefixIsBalanced(tokens: seq<Event>, i: nat)
    requires Balanced(tokens) && i <= |tokens|
    ensures Balanced(tokens[..i])
  {
    forall k | 0 <= k <= i ensures Depth(tokens[..i][..k]) >= 0 {
      assert tokens[..i][..k] == tokens[..k];
    }
  }

  /** StanzaFactory::serialize: the uri stack is popped at every end token, so it must not underflow. */
  method Serialize(tokens: seq<Event>) returns (output: seq<Op>)
    requires Balanced(tokens)
    ensures output == ReplayTape(tokens).0
  {
    var namespaceUri := CLIENT;
    var uries: seq<string> := [];
    output := [];
    for i := 0 to |tokens|
      invariant Balanced(tokens[..i])
      invariant (output, uries) == ReplayTape(tokens[..i])
    {
      PrefixIsBalanced(tokens, i + 1);
      assert tokens[..i + 1][..i] == tokens[..i];
      var token := tokens[i];
      if token.Start? {
        var currentUri := if i == 0 then namespaceUri else token.uri;
        var xmlns := None;
        if uries == [] || uries[|uries| - 1] != currentUri {
          xmlns := Some(token.uri);
        }
        uries := uries + [currentUri];
        output := output + [Open(token.name, xmlns, token.attributes)];
      } else if token.Characters? {
        output := output + [Write(token.text)];
      } else {
        output := output + [Close];
        uries := uries[..|uries| - 1];
      }
    }
    assert tokens[..|tokens|] == tokens;
  }

  // ---------------------------------------------------------------- what a reader makes of it

  function Scope(scopes: seq<string>): string {
    if scopes == [] then "" else scopes[|scopes| - 1]
  }

  /** The events of a reader that resolves default namespaces. */
  function Resolve(ops: seq<Op>, scopes: seq<string>): seq<Event>
    decreases |ops|
  {
    if ops == [] then []
    else match ops[0]
         case Open(name, xmlns, attributes) =>
           var uri := if xmlns.Some? then xmlns.value else Scope(scopes);
           [Start(name, uri, attributes)] + Resolve(ops[1..], scopes + [uri])
         case Write(text) => [Characters(text)] + Resolve(ops[1..], scopes)
         case Close => [End] + Resolve(ops[1..], if scopes == [] then [] else scopes[..|scopes| - 1])
  }

  /** The operations for an element inside one that was taken to be in namespace `context`. */
  function Ops(e: Element, context: string): seq<Op> {
    [Open(e.name, if e.uri == context then None else Some(e.uri), e.attributes)] + (OpsOfAll(e.kids, e.uri) + [Close])
  }

  function OpsOfAll(ns: seq<Node>, context: string): seq<Op> {
    if ns == [] then [] else OpsOf(ns[0], context) + OpsOfAll(ns[1..], context)
  }

  function OpsOf(n: Node, context: string): seq<Op> {
    match n
    case Text(text) => [Write(text)]
    case Child(e) => Ops(e, context)
  }

  lemma {:induction false} OpsOfAppend(a: seq<Node>, b: seq<Node>, context: string)
    ensures OpsOfAll(a + b, context) == OpsOfAll(a, context) + OpsOfAll(b, context)
  {
    hide OpsOf;
    if a == [] {
      assert a + b == b;
    } else {
      assert (a + b)[1..] == a[1..] + b;
      OpsOfAppend(a[1..], b, context);
    }
  }

  lemma OpsOfOne(n: Node, context: string)
    ensures OpsOfAll([n], context) == OpsOf(n, context)
  {
  }

  lemma {:induction false} ReplaySnoc(tape: seq<Event>, token: Event)
    requires Balanced(tape) && (token.End? ==> Depth(tape) > 0)
    ensures Balanced(tape + [token])
    ensures var (ops, uries) := ReplayTape(tape);
            var (op, uries') := ReplayToken(token, tape == [], uries);
            ReplayTape(tape + [token]) == (ops + [op], uries')
  {
    hide ReplayToken;
    var t := tape + [token];
    assert t[..|t| - 1] == tape;
    assert tape[..|tape|] == tape;
    forall k | 0 <= k <= |t| ensures Depth(t[..k]) >= 0 {
      if k <= |tape| {
        assert t[..k] == tape[..k];
      } else {
        assert t[..k] == t;
      }
    }
  }

  /** Replaying more nodes inside an open element writes their operations. */
  lemma {:induction false} ReplayNodes(parent: Element, tape: seq<Event>, ns: seq<Node>)
    requires Balanced(tape) && ReplayTape(tape).1 != [] && forall n :: n in ns ==> n < parent
    ensures Balanced(tape + EventsOfAll(ns))
    ensures var (ops, uries) := ReplayTape(tape);
            ReplayTape(tape + EventsOfAll(ns)) == (ops + OpsOfAll(ns, Scope(uries)), uries)
    decreases parent, 0, |ns|
  {
    hide ReplayTape, Balanced, EventsOf, OpsOf;
    var (ops, uries) := ReplayTape(tape);
    if ns == [] {
      assert tape + [] == tape;
      assert ops + [] == ops;
    } else {
      var m := |ns| - 1;
      var before, n := ns[..m], ns[m];
      assert ns == before + [n];
      assert n in ns && forall k :: k in before ==> k in ns;
      EventsOfAppend(before, [n]);
      EventsOfOne(n);
      OpsOfAppend(before, [n], Scope(uries));
      OpsOfOne(n, Scope(uries));
      ReplayNodes(parent, tape, before);
      var t := tape + EventsOfAll(before);
      ReplayNode(parent, t, n);
      assert t + EventsOf(n) == tape + (EventsOfAll(before) + EventsOf(n));
      var c := Scope(uries);
      assert ops + OpsOfAll(before, c) + OpsOf(n, c) == ops + (OpsOfAll(before, c) + OpsOf(n, c));
    }
  }

  lemma {:induction false} ReplayNode(parent: Element, tape: seq<Event>, n: Node)
    requires Balanced(tape) && ReplayTape(tape).1 != [] && n < parent
    ensures Balanced(tape + EventsOf(n))
    ensures var (ops, uries) := ReplayTape(tape);
            ReplayTape(tape + EventsOf(n)) == (ops + OpsOf(n, Scope(uries)), uries)
    decreases n, 1
  {
    hide ReplayTape, Balanced, EventsOfAll, OpsOfAll, Depth;
    NonEmptyTape(tape);
    var (ops, uries) := ReplayTape(tape);
    match n
    case Text(text) => ReplaySnoc(tape, Characters(text));
    case Child(e) =>
      ReplaySnoc(tape, StartOf(e));
      var t := tape + [StartOf(e)];
      ReplayNodes(e, t, e.kids);
      var u := t + EventsOfAll(e.kids);
      ReplaySnoc(u, End);
      assert u + [End] == tape + Events(e);
      var open := Open(e.name, if e.uri == Scope(uries) then None else Some(e.uri), e.attributes);
      assert (uries + [e.uri])[..|uries|] == uries;
      assert ops + [open] + OpsOfAll(e.kids, e.uri) + [Close] == ops + ([open] + (OpsOfAll(e.kids, e.uri) + [Close]));
  }

  lemma NonEmptyTape(tape: seq<Event>)
    requires Balanced(tape) && ReplayTape(tape).1 != []
    ensures tape != [] && Depth(tape) > 0
  {
  }

  /** Replaying a whole element: the root always declares its namespace, and is taken to be in
      jabber:client. The uri stack ends empty. */
  lemma {:induction false} ReplayRoot(e: Element)
    ensures Balanced(Events(e))
    ensures ReplayTape(Events(e)) ==
              ([Open(e.name, Some(e.uri), e.attributes)] + (OpsOfAll(e.kids, CLIENT) + [Close]), [])
  {
    hide ReplayTape, Balanced, EventsOfAll, OpsOfAll, Depth;
    NothingRecorded();
    ReplaySnoc([], StartOf(e));
    var t := [] + [StartOf(e)];
    ReplayNodes(e, t, e.kids);
    var u := t + EventsOfAll(e.kids);
    ReplaySnoc(u, End);
    assert u + [End] == Events(e);
    var open := Open(e.name, Some(e.uri), e.attributes);
    assert [] + [open] + OpsOfAll(e.kids, CLIENT) + [Close] == [open] + (OpsOfAll(e.kids, CLIENT) + [Close]);
    assert ([] + [CLIENT])[..0] == [];
  }

  lemma NothingRecorded()
    ensures Balanced([]) && ReplayTape([]) == ([], []) && Depth([]) == 0
  {
  }

  // ---------------------------------------------------------------- meaning of the replay

  /** An element written as if the default namespace were `context` while it is `actual`. */
  function Reread(e: Element, context: string, actual: string): Element {
    if e.uri == context then Element(e.name, actual, e.attributes, RereadAll(e.kids, e.uri, actual))
    else Element(e.name, e.uri, e.attributes, RereadAll(e.kids, e.uri, e.uri))
  }

  function RereadAll(ns: seq<Node>, context: string, actual: string): seq<Node> {
    if ns == [] then [] else [RereadNode(ns[0], context, actual)] + RereadAll(ns[1..], context, actual)
  }

  function RereadNode(n: Node, context: string, actual: string): Node {
    match n
    case Text(_) => n
    case Child(e) => Child(Reread(e, context, actual))
  }

  lemma {:induction false} ResolveNodes(
      parent: Element, ns: seq<Node>, context: string, scopes: seq<string>, rest: seq<Op>)
    requires forall n :: n in ns ==> n < parent
    ensures Resolve(OpsOfAll(ns, context) + rest, scopes)
              == EventsOfAll(RereadAll(ns, context, Scope(scopes))) + Resolve(rest, scopes)
    decreases parent, 0, |ns|
  {
    hide Resolve, EventsOf, OpsOf, RereadNode;
    if ns == [] {
      assert [] + rest == rest;
      assert [] + Resolve(rest, scopes) == Resolve(rest, scopes);
    } else {
      assert ns[0] in ns && forall k :: k in ns[1..] ==> k in ns;
      var tail := OpsOfAll(ns[1..], context) + rest;
      assert OpsOfAll(ns, context) + rest == OpsOf(ns[0], context) + tail;
      ResolveNode(ns[0], context, scopes, tail);
      ResolveNodes(parent, ns[1..], context, scopes, rest);
      var n, more := RereadNode(ns[0], context, Scope(scopes)), RereadAll(ns[1..], context, Scope(scopes));
      assert ([n] + more)[1..] == more;
      assert EventsOf(n) + (EventsOfAll(more) + Resolve(rest, scopes))
          == EventsOfAll([n] + more) + Resolve(rest, scopes);
    }
  }

  lemma {:induction false} ResolveNode(n: Node, context: string, scopes: seq<string>, rest: seq<Op>)
    ensures Resolve(OpsOf(n, context) + rest, scopes)
              == EventsOf(RereadNode(n, context, Scope(scopes))) + Resolve(rest, scopes)
    decreases n, 1
  {
    hide OpsOfAll, EventsOfAll, RereadAll;
    match n
    case Text(text) => assert ([Write(text)] + rest)[1..] == rest;
    case Child(e) =>
      var actual := Scope(scopes);
      var uri := if e.uri == context then actual else e.uri;
      var open := Open(e.name, if e.uri == context then None else Some(e.uri), e.attributes);
      ResolveElement(e, open, uri, e.uri, scopes, rest);
      assert Ops(e, context) + rest == [open] + (OpsOfAll(e.kids, e.uri) + ([Close] + rest));
  }

  /** An element behind its start tag, whichever way that was written. */
  lemma {:induction false} ResolveElement(
      e: Element, open: Op, uri: string, context: string, scopes: seq<string>, rest: seq<Op>)
    requires open.Open? && open.name == e.name && open.attributes == e.attributes
    requires uri == if open.xmlns.Some? then open.xmlns.value else Scope(scopes)
    ensures Resolve([open] + (OpsOfAll(e.kids, context) + ([Close] + rest)), scopes)
              == Events(Element(e.name, uri, e.attributes, RereadAll(e.kids, context, uri))) + Resolve(rest, scopes)
    decreases e, 1
  {
    hide OpsOfAll, EventsOfAll, RereadAll;
    var tail := OpsOfAll(e.kids, context) + ([Close] + rest);
    assert ([open] + tail)[1..] == tail;
    ResolveNodes(e, e.kids, context, scopes + [uri], [Close] + rest);
    assert ([Close] + rest)[1..] == rest;
    assert (scopes + [uri])[..|scopes|] == scopes;
    var kids := RereadAll(e.kids, context, uri);
    assert [Start(e.name, uri, e.attributes)] + (EventsOfAll(kids) + ([End] + Resolve(rest, scopes)))
        == ([Start(e.name, uri, e.attributes)] + EventsOfAll(kids) + [End]) + Resolve(rest, scopes);
  }

  lemma {:induction false} RereadIsIdentity(e: Element, context: string)
    ensures Reread(e, context, context) == e
    decreases e, 1
  {
    RereadAllIsIdentity(e, e.kids, e.uri);
  }

  lemma {:induction false} RereadAllIsIdentity(parent: Element, ns: seq<Node>, context: string)
    requires forall n :: n in ns ==> n < parent
    ensures RereadAll(ns, context, context) == ns
    decreases parent, 0, |ns|
  {
    if ns != [] {
      assert ns[0] in ns && forall k :: k in ns[1..] ==> k in ns;
      if ns[0].Child? {
        RereadIsIdentity(ns[0].e, context);
      }
      RereadAllIsIdentity(parent, ns[1..], context);
    }
  }

  predicate NoClientChild(ns: seq<Node>) {
    forall n :: n in ns && n.Child? ==> n.e.uri != CLIENT
  }

  lemma NoClientChildSplit(ns: seq<Node>)
    requires ns != []
    ensures NoClientChild(ns) <==> (ns[0].Child? ==> ns[0].e.uri != CLIENT) && NoClientChild(ns[1..])
  {
  }

  lemma {:induction false} RereadKids(parent: Element, ns: seq<Node>, actual: string)
    requires actual != CLIENT && forall n :: n in ns ==> n < parent
    ensures RereadAll(ns, CLIENT, actual) == ns <==> NoClientChild(ns)
    decreases |ns|
  {
    if ns != [] {
      assert ns[0] in ns && forall k :: k in ns[1..] ==> k in ns;
      NoClientChildSplit(ns);
      RereadKids(parent, ns[1..], actual);
      RereadOneKid(ns[0], actual);
      hide NoClientChild, RereadNode;
      var first, rest := RereadNode(ns[0], CLIENT, actual), RereadAll(ns[1..], CLIENT, actual);
      assert ([first] + rest)[0] == first && ([first] + rest)[1..] == rest;
      assert ns == [ns[0]] + ns[1..];
    }
  }

  lemma {:induction false} RereadOneKid(n: Node, actual: string)
    requires actual != CLIENT
    ensures RereadNode(n, CLIENT, actual) == n <==> (n.Child? ==> n.e.uri != CLIENT)
  {
    if n.Child? && n.e.uri != CLIENT {
      RereadAllIsIdentity(n.e, n.e.kids, n.e.uri);
    }
  }

  /** The condition under which a replayed stanza means what was received. */
  predicate ReplaysFaithfully(t: Element) {
    t.uri == CLIENT || NoClientChild(t.kids)
  }

  /** A reader of the replayed tape sees the same tree, with the same namespace on every element,
      exactly if the root is in jabber:client or has no child element that is. */
  lemma {:induction false} ReplayPreservesMeaning(t: Element, outer: seq<string>)
    ensures Balanced(Events(t)) && ReplayTape(Events(t)).1 == []
    ensures Resolve(ReplayTape(Events(t)).0, outer) == Events(t) <==> ReplaysFaithfully(t)
  {
    hide Resolve, ReplayTape, Balanced, EventsOfAll, OpsOfAll, RereadAll;
    ReplayRoot(t);
    var open := Open(t.name, Some(t.uri), t.attributes);
    var again := Element(t.name, t.uri, t.attributes, RereadAll(t.kids, CLIENT, t.uri));
    ResolveElement(t, open, t.uri, CLIENT, outer, []);
    assert [Close] + [] == [Close];
    assert Events(again) + Resolve([], outer) == Events(again) by {
      assert Resolve([], outer) == [] by {
        ResolveNothing(outer);
      }
    }
    if t.uri == CLIENT {
      RereadAllIsIdentity(t, t.kids, CLIENT);
    } else {
      RereadKids(t, t.kids, t.uri);
    }
    if Events(again) == Events(t) {
      EventsAreInjective(again, t);
    }
  }

  lemma ResolveNothing(scopes: seq<string>)
    ensures Resolve([], scopes) == []
  {
  }

  lemma {:induction false} PruneKeepsChildren(ns: seq<Node>, dropText: bool)
    ensures NoClientChild(PruneAll(ns, dropText)) <==> NoClientChild(ns)
  {
    if ns != [] {
      hide Prune, NoClientChild;
      var first, rest := PruneNode(ns[0], dropText), PruneAll(ns[1..], dropText);
      PruneKeepsChildren(ns[1..], dropText);
      NoClientChildSplit(ns);
      if first == [] {
        assert first + rest == rest;
      } else {
        assert (first + rest)[1..] == rest;
        NoClientChildSplit(first + rest);
        PruneKeepsUri(ns[0], dropText);
      }
    }
  }

  lemma PruneKeepsUri(n: Node, dropText: bool)
    ensures n.Child? ==> PruneNode(n, dropText) == [Child(Prune(n.e))] && Prune(n.e).uri == n.e.uri
  {
  }

  /** Every received stanza: its tape is that of the tree without the text of non-leaf elements,
      and replaying it means that tree under the condition above. */
  lemma {:induction false} RecordedStanzaReplays(t: Element, outer: seq<string>)
    ensures var tape := RecordAll([], Events(t));
            && tape == Events(Prune(t))
            && Balanced(tape) && ReplayTape(tape).1 == []
            && (Resolve(ReplayTape(tape).0, outer) == Events(Prune(t)) <==> ReplaysFaithfully(t))
  {
    hide RecordAll, Resolve, ReplayTape, Balanced, Events, PruneAll, HasChild;
    RecordElement(t, []);
    assert DropText([]) == [];
    assert [] + Events(Prune(t)) == Events(Prune(t));
    ReplayPreservesMeaning(Prune(t), outer);
    PruneKeepsChildren(t.kids, HasChild(t.kids));
  }

  /** A component stanza with a child in jabber:client: the child is read back in the namespace of
      the root. */
  lemma ReplayCanMoveAChild(outer: seq<string>)
    ensures var child := Child(Element("body", CLIENT, map[], []));
            var t := Element("message", "jabber:server", map[], [child]);
            && Balanced(Events(t))
            && Resolve(ReplayTape(Events(t)).0, outer) != Events(t)
  {
    hide Resolve, ReplayTape, Balanced, Events;
    var child := Child(Element("body", CLIENT, map[], []));
    var t := Element("message", "jabber:server", map[], [child]);
    assert child in t.kids;
    ReplayPreservesMeaning(t, outer);
    assert "jabber:server"[7] == 's' && CLIENT[7] == 'c';
  }
}
