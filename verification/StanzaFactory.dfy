/**
 StanzaFactory's event handlers: the fan-out of level-2 elements to payload factories and the
 token tape (module Replay), for a whole stanza.
 */
module StanzaFactory {
  import opened XmlTree
  import Replay

  /** A payload factory that is fed, with what it has seen since it was attached; the payload it
      creates at the end is made from exactly that. */
  datatype Payload = Payload(factory: nat, seen: seq<Event>)

  /** The registered payload factories, and which start tags each of them accepts. */
  datatype Registry = Registry(factories: seq<nat>, canParse: (nat, Event) -> bool)

  datatype State = State(
    depth: int,
    parsers: seq<Payload>,
    tokens: seq<Event>,
    extensions: seq<Payload>,
    from: string, to: string, id: string)

  function Value(attributes: Attributes, name: string): string {
    if name in attributes then attributes[name] else ""
  }

  function Attached(factories: seq<nat>): (ps: seq<Payload>)
    ensures |ps| == |factories|
  {
    if factories == [] then [] else [Payload(factories[0], [])] + Attached(factories[1..])
  }

  function See(parsers: seq<Payload>, evs: seq<Event>): (ps: seq<Payload>)
    ensures |ps| == |parsers|
  {
    if parsers == [] then []
    else [Payload(parsers[0].factory, parsers[0].seen + evs)] + See(parsers[1..], evs)
  }

  lemma {:induction false} SeeAt(parsers: seq<Payload>, evs: seq<Event>, i: nat)
    requires i < |parsers|
    ensures See(parsers, evs)[i] == Payload(parsers[i].factory, parsers[i].seen + evs)
  {
    if i > 0 {
      SeeAt(parsers[1..], evs, i - 1);
    }
  }

  lemma AttachedStep(factories: seq<nat>, canParse: (nat, Event) -> bool, start: Event, i: nat)
    requires i < |factories|
    ensures Attached(Accepting(factories[i..], canParse, start)) ==
              (if canParse(factories[i], start) then [Payload(factories[i], [])] else [])
              + Attached(Accepting(factories[i + 1..], canParse, start))
  {
    assert factories[i..][0] == factories[i] && factories[i..][1..] == factories[i + 1..];
    var rest := Accepting(factories[i + 1..], canParse, start);
    assert ([factories[i]] + rest)[1..] == rest;
    assert [] + rest == rest;
    assert [] + Attached(rest) == Attached(rest);
  }

  function Step(s: State, ev: Event, r: Registry): State {
    match ev
    case Start(_, _, attributes) =>
      var s0 := if s.depth == 0
                then s.(tokens := [], extensions := [], from := Value(attributes, "from"),
                        to := Value(attributes, "to"), id := Value(attributes, "id"))
                else s;
      var fed := if s.depth == 1 then s.parsers + Attached(Accepting(r.factories, r.canParse, ev)) else s.parsers;
      s0.(depth := s.depth + 1, parsers := See(fed, [ev]), tokens := Replay.Record(s0.tokens, ev))
    case Characters(_) =>
      s.(parsers := See(s.parsers, [ev]), tokens := Replay.Record(s.tokens, ev))
    case End =>
      var fed := See(s.parsers, [ev]);
      if s.depth == 2 then
        s.(depth := 1, parsers := [], tokens := Replay.Record(s.tokens, ev), extensions := s.extensions + fed)
      else
        s.(depth := s.depth - 1, parsers := fed, tokens := Replay.Record(s.tokens, ev))
  }

  function Run(s: State, evs: seq<Event>, r: Registry): State
    decreases |evs|
  {
    if evs == [] then s else Run(Step(s, evs[0], r), evs[1..], r)
  }

  class Factory {
    const factories: seq<nat>
    const canParse: (nat, Event) -> bool
    var depth: int
    var parsers: seq<Payload>
    var tokens: seq<Event>
    var extensions: seq<Payload>
    var from: string
    var to: string
    var id: string

    ghost function Abs(): State
      reads this
    {
      State(depth, parsers, tokens, extensions, from, to, id)
    }

    constructor (factories: seq<nat>, canParse: (nat, Event) -> bool)
      ensures Abs() == State(0, [], [], [], "", "", "")
      ensures this.factories == factories && this.canParse == canParse
    {
      this.factories, this.canParse := factories, canParse;
      depth, parsers, tokens, extensions, from, to, id := 0, [], [], [], "", "", "";
    }

    method HandleStartElement(name: string, uri: string, attributes: Attributes)
      modifies this
      ensures Abs() == Step(old(Abs()), Start(name, uri, attributes), Registry(factories, canParse))
    {
      var ev := Start(name, uri, attributes);
      depth := depth + 1;
      if depth == 1 {
        tokens, extensions := [], [];
      }
      ghost var tape := tokens;
      while tokens != [] && tokens[|tokens| - 1].Characters?
        invariant Replay.DropText(tokens) == Replay.DropText(tape)
        invariant depth == old(depth) + 1 && parsers == old(parsers)
        invariant extensions == if depth == 1 then [] else old(extensions)
        invariant from == old(from) && to == old(to) && id == old(id)
        decreases |tokens|
      {
        tokens := tokens[..|tokens| - 1];
      }
      tokens := tokens + [ev];
      if depth == 1 {
        from := Value(attributes, "from");
        to := Value(attributes, "to");
        id := Value(attributes, "id");
      } else if depth == 2 {
        Attach(ev);
      }
      Show(ev);
    }

    method Attach(ev: Event)
      modifies `parsers
      ensures parsers == old(parsers) + Attached(Accepting(factories, canParse, ev))
    {
      var i := 0;
      assert factories[0..] == factories;
      while i < |factories|
        invariant 0 <= i <= |factories|
        invariant parsers + Attached(Accepting(factories[i..], canParse, ev))
               == old(parsers) + Attached(Accepting(factories, canParse, ev))
      {
        AttachedStep(factories, canParse, ev, i);
        ghost var rest := Attached(Accepting(factories[i + 1..], canParse, ev));
        if canParse(factories[i], ev) {
          assert parsers + ([Payload(factories[i], [])] + rest) == parsers + [Payload(factories[i], [])] + rest;
          parsers := parsers + [Payload(factories[i], [])];
        } else {
          assert [] + rest == rest;
        }
        i := i + 1;
      }
      assert factories[i..] == [];
      assert parsers + Attached(Accepting([], canParse, ev)) == parsers;
    }

    /** Pass an event to every attached payload factory. */
    method Show(ev: Event)
      modifies `parsers
      ensures parsers == See(old(parsers), [ev])
    {
      for i := 0 to |parsers|
        invariant |parsers| == |old(parsers)|
        invariant forall k :: 0 <= k < i ==> parsers[k] == See(old(parsers), [ev])[k]
        invariant forall k :: i <= k < |parsers| ==> parsers[k] == old(parsers)[k]
      {
        SeeAt(old(parsers), [ev], i);
        parsers := parsers[i := Payload(parsers[i].factory, parsers[i].seen + [ev])];
      }
    }

    method HandleEndElement()
      modifies this
      ensures Abs() == Step(old(Abs()), End, Registry(factories, canParse))
    {
      Show(End);
      tokens := tokens + [End];
      if depth == 2 {
        ghost var fed := parsers;
        for i := 0 to |parsers|
          invariant parsers == fed && extensions == old(extensions) + fed[..i]
          invariant depth == old(depth) && tokens == old(tokens) + [End]
          invariant from == old(from) && to == old(to) && id == old(id)
        {
          extensions := extensions + [parsers[i]];
        }
        assert fed[..|fed|] == fed;
        parsers := [];
      }
      depth := depth - 1;
    }

    method HandleCharacterData(text: string)
      modifies this
      ensures Abs() == Step(old(Abs()), Characters(text), Registry(factories, canParse))
    {
      Show(Characters(text));
      if tokens != [] && tokens[|tokens| - 1].End? {
        return;
      }
      tokens := tokens + [Characters(text)];
    }
  }

  // ---------------------------------------------------------------- whole stanzas

  /** One payload for every level-2 element and every factory accepting it, made from exactly the
      events of that element. */
  function PayloadsOf(ns: seq<Node>, r: Registry): seq<Payload> {
    if ns == [] then [] else PayloadsOfNode(ns[0], r) + PayloadsOf(ns[1..], r)
  }

  function PayloadsOfNode(n: Node, r: Registry): seq<Payload> {
    match n
    case Text(_) => []
    case Child(e) => Made(Accepting(r.factories, r.canParse, StartOf(e)), Events(e))
  }

  /** One payload by each of these factories, made from these events. */
  function Made(factories: seq<nat>, evs: seq<Event>): seq<Payload> {
    seq(|factories|, i requires 0 <= i < |factories| => Payload(factories[i], evs))
  }

  lemma {:induction false} SeenSinceAttached(factories: seq<nat>, evs: seq<Event>)
    ensures See(Attached(factories), evs) == Made(factories, evs)
  {
    if factories != [] {
      SeenSinceAttached(factories[1..], evs);
      assert [] + evs == evs;
      assert Made(factories, evs) == [Payload(factories[0], evs)] + Made(factories[1..], evs);
    }
  }

  lemma {:induction false} RunAppend(s: State, a: seq<Event>, b: seq<Event>, r: Registry)
    ensures Run(s, a + b, r) == Run(Run(s, a, r), b, r)
    decreases |a|
  {
    hide Step;
    if a == [] {
      assert a + b == b;
    } else {
      assert (a + b)[1..] == a[1..] + b;
      RunAppend(Step(s, a[0], r), a[1..], b, r);
    }
  }

  lemma RunOne(s: State, ev: Event, r: Registry)
    ensures Run(s, [ev], r) == Step(s, ev, r)
  {
  }

  lemma {:induction false} SeeTwice(parsers: seq<Payload>, a: seq<Event>, b: seq<Event>)
    ensures See(See(parsers, a), b) == See(parsers, a + b)
  {
    if parsers != [] {
      var first := Payload(parsers[0].factory, parsers[0].seen + a);
      assert ([first] + See(parsers[1..], a))[1..] == See(parsers[1..], a);
      SeeTwice(parsers[1..], a, b);
      assert parsers[0].seen + a + b == parsers[0].seen + (a + b);
    }
  }

  lemma {:induction false} SeeNothing(parsers: seq<Payload>)
    ensures See(parsers, []) == parsers
  {
    if parsers != [] {
      SeeNothing(parsers[1..]);
      assert parsers[0].seen + [] == parsers[0].seen;
    }
  }

  /** The state after these events if they only feed the parsers and the tape. */
  function Fed(s: State, evs: seq<Event>): State {
    s.(parsers := See(s.parsers, evs), tokens := Replay.RecordAll(s.tokens, evs))
  }

  lemma {:induction false} FedTwice(s: State, a: seq<Event>, b: seq<Event>)
    ensures Fed(Fed(s, a), b) == Fed(s, a + b)
  {
    hide Replay.RecordAll;
    SeeTwice(s.parsers, a, b);
    Replay.RecordAppend(s.tokens, a, b);
  }

  lemma FedNothing(s: State)
    ensures Fed(s, []) == s
  {
    SeeNothing(s.parsers);
  }

  /** Below level 2 every event is fed to the attached parsers and nothing else changes. */
  lemma {:induction false} RunBelow(parent: Element, s: State, ns: seq<Node>, r: Registry)
    requires s.depth >= 2 && forall n :: n in ns ==> n < parent
    ensures Run(s, EventsOfAll(ns), r) == Fed(s, EventsOfAll(ns))
    decreases parent, 0, |ns|
  {
    hide Step, EventsOf, Fed;
    if ns == [] {
      FedNothing(s);
    } else {
      assert ns[0] in ns && forall k :: k in ns[1..] ==> k in ns;
      RunAppend(s, EventsOf(ns[0]), EventsOfAll(ns[1..]), r);
      RunNodeBelow(s, ns[0], r);
      var t := Fed(s, EventsOf(ns[0]));
      FedKeepsDepth(s, EventsOf(ns[0]));
      RunBelow(parent, t, ns[1..], r);
      FedTwice(s, EventsOf(ns[0]), EventsOfAll(ns[1..]));
    }
  }

  lemma FedKeepsDepth(s: State, evs: seq<Event>)
    ensures Fed(s, evs).depth == s.depth
  {
  }

  lemma {:induction false} RunNodeBelow(s: State, n: Node, r: Registry)
    requires s.depth >= 2
    ensures Run(s, EventsOf(n), r) == Fed(s, EventsOf(n))
    decreases n, 1
  {
    hide EventsOfAll, See, Replay.Record, Run, Replay.RecordAll;
    match n
    case Text(text) =>
      RunOne(s, Characters(text), r);
      Replay.RecordOne(s.tokens, Characters(text));
    case Child(e) =>
      var kids := EventsOfAll(e.kids);
      RunAppend(s, [StartOf(e)] + kids, [End], r);
      RunAppend(s, [StartOf(e)], kids, r);
      RunOne(s, StartOf(e), r);
      Replay.RecordOne(s.tokens, StartOf(e));
      var s1 := Fed(s, [StartOf(e)]).(depth := s.depth + 1);
      assert Step(s, StartOf(e), r) == s1;
      RunBelow(e, s1, e.kids, r);
      FedTwice(s, [StartOf(e)], kids);
      var s2 := Fed(s, [StartOf(e)] + kids).(depth := s.depth + 1);
      assert Fed(s1, kids) == s2;
      RunOne(s2, End, r);
      Replay.RecordOne(s2.tokens, End);
      FedTwice(s, [StartOf(e)] + kids, [End]);
  }

  /** A child of the stanza: its accepting factories are fed its events and make one payload each. */
  lemma {:induction false} RunChild(s: State, e: Element, r: Registry)
    requires s.depth == 1 && s.parsers == []
    ensures Run(s, Events(e), r) ==
              s.(tokens := Replay.RecordAll(s.tokens, Events(e)),
                 extensions := s.extensions + Made(Accepting(r.factories, r.canParse, StartOf(e)), Events(e)))
  {
    hide EventsOfAll, See, Replay.Record, Run, Replay.RecordAll, Accepting;
    var kids := EventsOfAll(e.kids);
    var fed := Attached(Accepting(r.factories, r.canParse, StartOf(e)));
    RunAppend(s, [StartOf(e)] + kids, [End], r);
    RunAppend(s, [StartOf(e)], kids, r);
    RunOne(s, StartOf(e), r);
    Replay.RecordOne(s.tokens, StartOf(e));
    var s0 := s.(depth := 2, parsers := fed);
    assert [] + fed == fed;
    assert Step(s, StartOf(e), r) == Fed(s0, [StartOf(e)]);
    RunBelow(e, Fed(s0, [StartOf(e)]), e.kids, r);
    FedTwice(s0, [StartOf(e)], kids);
    var s2 := Fed(s0, [StartOf(e)] + kids);
    RunOne(s2, End, r);
    Replay.RecordOne(s2.tokens, End);
    FedTwice(s0, [StartOf(e)] + kids, [End]);
    SeenSinceAttached(Accepting(r.factories, r.canParse, StartOf(e)), Events(e));
  }

  lemma {:induction false} RunKids(s: State, ns: seq<Node>, r: Registry)
    requires s.depth == 1 && s.parsers == []
    ensures Run(s, EventsOfAll(ns), r) ==
              s.(tokens := Replay.RecordAll(s.tokens, EventsOfAll(ns)), extensions := s.extensions + PayloadsOf(ns, r))
    decreases |ns|
  {
    hide Step, Replay.RecordAll, Run, Accepting, See, Events;
    if ns == [] {
      RunNothing(s, r);
      assert s.extensions + [] == s.extensions;
    } else {
      RunAppend(s, EventsOf(ns[0]), EventsOfAll(ns[1..]), r);
      Replay.RecordAppend(s.tokens, EventsOf(ns[0]), EventsOfAll(ns[1..]));
      var made := PayloadsOfNode(ns[0], r);
      RunKid(s, ns[0], r);
      var t := Run(s, EventsOf(ns[0]), r);
      RunKids(t, ns[1..], r);
      assert s.extensions + made + PayloadsOf(ns[1..], r) == s.extensions + (made + PayloadsOf(ns[1..], r));
    }
  }

  lemma RunNothing(s: State, r: Registry)
    ensures Run(s, [], r) == s && Replay.RecordAll(s.tokens, []) == s.tokens
  {
  }

  lemma RunKid(s: State, n: Node, r: Registry)
    requires s.depth == 1 && s.parsers == []
    ensures Run(s, EventsOf(n), r) ==
              s.(tokens := Replay.RecordAll(s.tokens, EventsOf(n)), extensions := s.extensions + PayloadsOfNode(n, r))
  {
    hide Run, Replay.RecordAll, Events, Accepting, See;
    match n
    case Text(text) =>
      RunTextKid(s, text, r);
      assert s.extensions + [] == s.extensions;
    case Child(e) =>
      RunChild(s, e, r);
  }

  lemma RunTextKid(s: State, text: string, r: Registry)
    requires s.depth == 1 && s.parsers == []
    ensures Run(s, [Characters(text)], r) == s.(tokens := Replay.RecordAll(s.tokens, [Characters(text)]))
  {
  }

  /** A whole stanza: the tape is that of the pruned tree, there is exactly one payload for every
      level-2 element and accepting factory, and the factory is ready for the next stanza. */
  lemma {:induction false} StanzaIsCollected(s: State, t: Element, r: Registry)
    requires s.depth == 0 && s.parsers == []
    ensures Run(s, Events(t), r) ==
              State(0, [], Events(Replay.Prune(t)), PayloadsOf(t.kids, r),
                    if "from" in t.attributes then t.attributes["from"] else "",
                    if "to" in t.attributes then t.attributes["to"] else "",
                    if "id" in t.attributes then t.attributes["id"] else "")
  {
    hide EventsOfAll, Replay.RecordAll, Replay.Record, Run, Replay.Prune, PayloadsOf, Accepting;
    var kids := EventsOfAll(t.kids);
    RunAppend(s, [StartOf(t)] + kids, [End], r);
    RunAppend(s, [StartOf(t)], kids, r);
    RunOne(s, StartOf(t), r);
    Replay.RecordOne([], StartOf(t));
    var s1 := Step(s, StartOf(t), r);
    RunKids(s1, t.kids, r);
    Replay.RecordAppend([], [StartOf(t)], kids);
    var s2 := Run(s1, kids, r);
    RunOne(s2, End, r);
    Replay.RecordOne(s2.tokens, End);
    Replay.RecordAppend([], [StartOf(t)] + kids, [End]);
    TapeOfStanza(t);
    assert [] + PayloadsOf(t.kids, r) == PayloadsOf(t.kids, r);
  }

  lemma TapeOfStanza(t: Element)
    ensures Replay.RecordAll([], [StartOf(t)] + EventsOfAll(t.kids) + [End]) == Events(Replay.Prune(t))
  {
    hide Replay.RecordAll, EventsOfAll, Replay.Prune;
    Replay.RecordElement(t, []);
    assert Replay.DropText([]) + Events(Replay.Prune(t)) == Events(Replay.Prune(t));
  }
}
