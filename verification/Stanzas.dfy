/**
 Dispatch and stanza factories together: what each factory has collected when the stream hands an
 element to it, and what is left in the factories between two elements.
 */
module Stanzas {
  import opened XmlTree
  import opened Dispatch
  import F = StanzaFactory
  import Replay

  const IDLE := F.State(0, [], [], [], "", "", "")

  /** The factory after everything that has been delivered to it. */
  function Collected(log: seq<Delivery>, factory: nat, payloads: F.Registry): F.State {
    F.Run(IDLE, Seen(log, factory), payloads)
  }

  /** Ready for a stanza: not inside one, and no payload factory attached. */
  predicate Ready(log: seq<Delivery>, factory: nat, payloads: F.Registry) {
    Collected(log, factory, payloads).depth == 0 && Collected(log, factory, payloads).parsers == []
  }

  predicate AllReady(log: seq<Delivery>, r: Registry, payloads: F.Registry) {
    forall p :: p in r.stanzas ==> Ready(log, p, payloads)
  }

  /** Every stanza factory is one object, and none is a stream feature. */
  predicate Separate(r: Registry) {
    Distinct(r.stanzas) && forall p :: p in r.stanzas ==> p !in r.features
  }

  /** The stanza made from an element: all payloads, the tape and the addresses. */
  function StanzaOf(e: Element, payloads: F.Registry): F.State {
    F.State(0, [], Events(Replay.Prune(e)), F.PayloadsOf(e.kids, payloads),
            if "from" in e.attributes then e.attributes["from"] else "",
            if "to" in e.attributes then e.attributes["to"] else "",
            if "id" in e.attributes then e.attributes["id"] else "")
  }

  predicate IsFor(e: Element, p: nat, r: Registry) {
    e.name != "features" && p in r.stanzas && r.canParse(p, StartOf(e))
  }

  lemma {:induction false} FeaturesAreNotSeen(ns: seq<Node>, r: Registry, p: nat)
    requires Separate(r) && p in r.stanzas
    ensures Seen(FeatureDeliveries(ns, r), p) == []
    decreases |ns|
  {
    hide Seen, FeatureDeliveriesOf, Accepting, Broadcast;
    if ns == [] {
      assert Seen([], p) == [] by {
        SeenNothing(p);
      }
    } else {
      SeenAppend(FeatureDeliveriesOf(ns[0], r), FeatureDeliveries(ns[1..], r), p);
      FeatureIsNotSeen(ns[0], r, p);
      FeaturesAreNotSeen(ns[1..], r, p);
    }
  }

  lemma SeenNothing(p: nat)
    ensures Seen([], p) == []
  {
  }

  lemma {:induction false} FeatureIsNotSeen(n: Node, r: Registry, p: nat)
    requires Separate(r) && p in r.stanzas
    ensures Seen(FeatureDeliveriesOf(n, r), p) == []
  {
    if n.Child? {
      var fs := Accepting(r.features, r.canParse, StartOf(n.e));
      AcceptingIsFilter(r.features, r.canParse, StartOf(n.e), p);
      NotAmong(fs, Events(n.e), p);
    }
  }

  lemma {:induction false} NotAmong(parsers: seq<nat>, evs: seq<Event>, p: nat)
    requires p !in parsers
    ensures Seen(Broadcast(parsers, evs), p) == []
    decreases |evs|
  {
    hide Deliver;
    if evs != [] {
      SeenAppend(Deliver(parsers, evs[0]), Broadcast(parsers, evs[1..]), p);
      NotDelivered(parsers, evs[0], p);
      NotAmong(parsers, evs[1..], p);
    }
  }

  lemma {:induction false} NotDelivered(parsers: seq<nat>, ev: Event, p: nat)
    requires p !in parsers
    ensures Seen(Deliver(parsers, ev), p) == []
    decreases |parsers|
  {
    if parsers != [] {
      assert Deliver(parsers, ev)[1..] == Deliver(parsers[1..], ev);
      NotDelivered(parsers[1..], ev, p);
    }
  }

  /** Of any level-1 element a stanza factory sees the events if the element is for it, else nothing. */
  lemma {:induction false} ElementIsSeen(s: State, e: Element, r: Registry, p: nat)
    requires s.depth == 1 && s.parsers == [] && Separate(r) && p in r.stanzas
    ensures Seen(Run(s, Events(e), r).log, p) == Seen(s.log, p) + if IsFor(e, p, r) then Events(e) else []
  {
    hide Run, Broadcast, Accepting, Events, Seen, FeatureDeliveries;
    ElementIsDispatched(s, e, r);
    SeenAppend(s.log, DeliveriesOf(e, r), p);
    if e.name == "features" {
      FeaturesAreNotSeen(e.kids, r, p);
    } else {
      var ps := Chosen(e, r);
      AcceptingIsFilter(r.stanzas, r.canParse, StartOf(e), p);
      AcceptingIsFilter(r.features, r.canParse, StartOf(e), p);
      if p in ps {
        SeenBroadcast(ps, Events(e), p);
      } else {
        NotAmong(ps, Events(e), p);
      }
      var stanzas := Accepting(r.stanzas, r.canParse, StartOf(e));
      if stanzas != [] {
        SeenAppend(Broadcast(ps, Events(e)), [Taken(stanzas[|stanzas| - 1])], p);
        SeenTaken(stanzas[|stanzas| - 1], p);
        assert Seen(Broadcast(ps, Events(e)), p) + [] == Seen(Broadcast(ps, Events(e)), p);
      } else {
        assert Broadcast(ps, Events(e)) + [] == Broadcast(ps, Events(e));
      }
    }
  }

  /** The factory behind the element: it holds the stanza of the element, or what it held before. */
  lemma {:induction false} ElementIsCollected(s: State, e: Element, r: Registry, payloads: F.Registry, p: nat)
    requires s.depth == 1 && s.parsers == [] && Separate(r) && p in r.stanzas && Ready(s.log, p, payloads)
    ensures var log := Run(s, Events(e), r).log;
            && Ready(log, p, payloads)
            && Collected(log, p, payloads) ==
                 if IsFor(e, p, r) then StanzaOf(e, payloads) else Collected(s.log, p, payloads)
  {
    hide Run, Events, Seen, F.Run, F.PayloadsOf, Replay.Prune, F.Value;
    ElementIsSeen(s, e, r, p);
    var seen := Seen(s.log, p);
    if IsFor(e, p, r) {
      F.RunAppend(IDLE, seen, Events(e), payloads);
      F.StanzaIsCollected(Collected(s.log, p, payloads), e, payloads);
    } else {
      assert seen + [] == seen;
    }
  }

  /** A stanza for some factory: exactly one stanza is handled, by an accepting factory, which at that
      time holds one payload for every child and payload factory accepting it. All factories are
      ready for the next element. */
  lemma {:induction false} OneStanzaWithItsPayloads(s: State, e: Element, r: Registry, payloads: F.Registry)
    requires s.depth == 1 && s.parsers == [] && Separate(r) && AllReady(s.log, r, payloads)
    requires exists f :: IsFor(e, f, r)
    ensures var s' := Run(s, Events(e), r);
            && |s'.outcomes| == |s.outcomes| + 1 && s.outcomes <= s'.outcomes
            && var last := s'.outcomes[|s.outcomes|];
               last.HandleStanza? && IsFor(e, last.factory, r)
               && Collected(s'.log, last.factory, payloads) == StanzaOf(e, payloads)
  {
    hide Run, Events, Accepting, Collected, StanzaOf, Ready, DeliveriesOf;
    var f :| IsFor(e, f, r);
    StanzaIsSeenByItsFactories(s, e, r, f);
    ElementIsDispatched(s, e, r);
    var last := Run(s, Events(e), r).outcomes[|s.outcomes|];
    ElementIsCollected(s, e, r, payloads, last.factory);
  }

  function EventsOfElements(es: seq<Element>): seq<Event> {
    if es == [] then [] else Events(es[0]) + EventsOfElements(es[1..])
  }

  /** Between the elements of a stream, whatever they are, every stanza factory is ready. */
  lemma {:induction false} FactoriesAreReadyBetweenElements(
      s: State, es: seq<Element>, r: Registry, payloads: F.Registry)
    requires s.depth == 1 && s.parsers == [] && Separate(r) && AllReady(s.log, r, payloads)
    ensures var s' := Run(s, EventsOfElements(es), r);
            s'.depth == 1 && s'.parsers == [] && s'.counts == s.counts && AllReady(s'.log, r, payloads)
    decreases |es|
  {
    hide Events, Ready, DeliveriesOf, OutcomeOf, Step;
    if es != [] {
      RunAppend(s, Events(es[0]), EventsOfElements(es[1..]), r);
      var s1 := Run(s, Events(es[0]), r);
      ElementIsDispatched(s, es[0], r);
      forall p | p in r.stanzas ensures Ready(s1.log, p, payloads) {
        ElementIsCollected(s, es[0], r, payloads, p);
      }
      FactoriesAreReadyBetweenElements(s1, es[1..], r, payloads);
    }
  }

  // ---------------------------------------------------------------- the stanza a factory holds

  /** A stanza factory's depth, whether it holds a stanza, and whether every callback that writes to one
      has found one so far. */
  datatype Holder = Holder(depth: int, holds: bool, found: bool)

  /** A start tag at depth 0 makes a stanza; every other callback writes to it. */
  function Callback(h: Holder, ev: Event): Holder {
    match ev
    case Start(_, _, _) =>
      if h.depth == 0 then Holder(1, true, h.found) else Holder(h.depth + 1, h.holds, h.found && h.holds)
    case Characters(_) => h.(found := h.found && h.holds)
    case End => Holder(h.depth - 1, h.holds, h.found && h.holds)
  }

  function Receive(h: Holder, d: Delivery, p: nat): Holder {
    match d
    case Delivery(parser, event) => if parser == p then Callback(h, event) else h
    case Taken(factory) => if factory == p then h.(holds := false) else h
  }

  function Follow(h: Holder, log: seq<Delivery>, p: nat): Holder
    decreases |log|
  {
    if log == [] then h else Follow(Receive(h, log[0], p), log[1..], p)
  }

  function FollowEvents(h: Holder, evs: seq<Event>): Holder
    decreases |evs|
  {
    if evs == [] then h else FollowEvents(Callback(h, evs[0]), evs[1..])
  }

  const FRESH := Holder(0, false, true)

  function HolderOf(log: seq<Delivery>, p: nat): Holder {
    Follow(FRESH, log, p)
  }

  lemma {:induction false} FollowAppend(h: Holder, a: seq<Delivery>, b: seq<Delivery>, p: nat)
    ensures Follow(h, a + b, p) == Follow(Follow(h, a, p), b, p)
    decreases |a|
  {
    hide Receive;
    if a == [] {
      assert a + b == b;
    } else {
      assert (a + b)[1..] == a[1..] + b;
      FollowAppend(Receive(h, a[0], p), a[1..], b, p);
    }
  }

  lemma {:induction false} FollowEventsAppend(h: Holder, a: seq<Event>, b: seq<Event>)
    ensures FollowEvents(h, a + b) == FollowEvents(FollowEvents(h, a), b)
    decreases |a|
  {
    hide Callback;
    if a == [] {
      assert a + b == b;
    } else {
      assert (a + b)[1..] == a[1..] + b;
      FollowEventsAppend(Callback(h, a[0]), a[1..], b);
    }
  }

  lemma {:induction false} FollowDeliver(h: Holder, parsers: seq<nat>, ev: Event, p: nat)
    requires Distinct(parsers)
    ensures Follow(h, Deliver(parsers, ev), p) == if p in parsers then Callback(h, ev) else h
    decreases |parsers|
  {
    hide Callback;
    if parsers != [] {
      var ds := Deliver(parsers, ev);
      assert ds[0] == Delivery(parsers[0], ev) && ds[1..] == Deliver(parsers[1..], ev);
      FollowDeliver(Receive(h, ds[0], p), parsers[1..], ev, p);
      assert p in parsers <==> p == parsers[0] || p in parsers[1..];
      assert parsers[0] !in parsers[1..];
    }
  }

  lemma {:induction false} FollowBroadcast(h: Holder, parsers: seq<nat>, evs: seq<Event>, p: nat)
    requires Distinct(parsers)
    ensures Follow(h, Broadcast(parsers, evs), p) == if p in parsers then FollowEvents(h, evs) else h
    decreases |evs|
  {
    hide Deliver, Callback, Distinct;
    if evs != [] {
      FollowAppend(h, Deliver(parsers, evs[0]), Broadcast(parsers, evs[1..]), p);
      FollowDeliver(h, parsers, evs[0], p);
      FollowBroadcast(if p in parsers then Callback(h, evs[0]) else h, parsers, evs[1..], p);
    }
  }

  /** Inside a stanza that is held, whole nodes change nothing. */
  lemma {:induction false} HoldsThroughNodes(h: Holder, parent: Element, ns: seq<Node>)
    requires h.depth > 0 && h.holds && forall n :: n in ns ==> n < parent
    ensures FollowEvents(h, EventsOfAll(ns)) == h
    decreases parent, 0, |ns|
  {
    if ns != [] {
      assert ns[0] in ns && forall n :: n in ns[1..] ==> n in ns;
      FollowEventsAppend(h, EventsOf(ns[0]), EventsOfAll(ns[1..]));
      if ns[0].Child? {
        HoldsThroughElement(h, ns[0].e);
      } else {
        FollowOne(h, Characters(ns[0].text));
      }
      HoldsThroughNodes(h, parent, ns[1..]);
    }
  }

  lemma {:induction false} HoldsThroughElement(h: Holder, e: Element)
    requires h.depth >= 0 && (h.depth > 0 ==> h.holds)
    ensures FollowEvents(h, Events(e)) == h.(holds := true)
    decreases e, 1
  {
    hide EventsOfAll;
    var kids := EventsOfAll(e.kids);
    assert Events(e) == [StartOf(e)] + (kids + [End]);
    FollowEventsAppend(h, [StartOf(e)], kids + [End]);
    FollowOne(h, StartOf(e));
    var h1 := Callback(h, StartOf(e));
    FollowEventsAppend(h1, kids, [End]);
    HoldsThroughNodes(h1, e, e.kids);
    FollowOne(h1, End);
  }

  lemma FollowOne(h: Holder, ev: Event)
    ensures FollowEvents(h, [ev]) == Callback(h, ev)
  {
    assert [ev][1..] == [];
  }

  lemma FollowTaken(h: Holder, f: nat, p: nat)
    ensures Follow(h, [Taken(f)], p) == if f == p then h.(holds := false) else h
  {
    assert [Taken(f)][1..] == [];
  }

  predicate NothingTaken(ds: seq<Delivery>) {
    forall i :: 0 <= i < |ds| ==> ds[i].Delivery?
  }

  lemma {:induction false} FollowUnseen(h: Holder, ds: seq<Delivery>, p: nat)
    requires Seen(ds, p) == [] && NothingTaken(ds)
    ensures Follow(h, ds, p) == h
    decreases |ds|
  {
    hide Callback;
    if ds != [] {
      assert ds[0].Delivery?;
      assert NothingTaken(ds[1..]) by {
        assert forall i :: 0 <= i < |ds| - 1 ==> ds[1..][i] == ds[i + 1];
      }
      FollowUnseen(h, ds[1..], p);
    }
  }

  lemma {:induction false} BroadcastTakesNothing(parsers: seq<nat>, evs: seq<Event>)
    ensures NothingTaken(Broadcast(parsers, evs))
    decreases |evs|
  {
    if evs != [] {
      BroadcastTakesNothing(parsers, evs[1..]);
    }
  }

  lemma {:induction false} FeaturesTakeNothing(ns: seq<Node>, r: Registry)
    ensures NothingTaken(FeatureDeliveries(ns, r))
    decreases |ns|
  {
    hide Broadcast, Accepting, Events;
    if ns != [] {
      if ns[0].Child? {
        BroadcastTakesNothing(Accepting(r.features, r.canParse, StartOf(ns[0].e)), Events(ns[0].e));
      }
      FeaturesTakeNothing(ns[1..], r);
    }
  }

  /** The factory whose stanza is handled: the last that accepts the element. */
  function Handled(e: Element, r: Registry): nat
    requires e.name != "features" && Accepting(r.stanzas, r.canParse, StartOf(e)) != []
  {
    var stanzas := Accepting(r.stanzas, r.canParse, StartOf(e));
    stanzas[|stanzas| - 1]
  }

  /** Behind a whole element a stanza factory is at depth 0 again, and no callback has missed a stanza. */
  lemma {:induction false} ElementFindsItsStanza(s: State, e: Element, r: Registry, p: nat)
    requires s.depth == 1 && s.parsers == [] && Separate(r) && p in r.stanzas
    requires HolderOf(s.log, p).depth == 0 && HolderOf(s.log, p).found
    ensures var h := HolderOf(Run(s, Events(e), r).log, p);
            h.depth == 0 && h.found
  {
    hide Run, Broadcast, Accepting, Events, Seen, FeatureDeliveries, Follow, FollowEvents, Callback;
    var h := HolderOf(s.log, p);
    ElementIsDispatched(s, e, r);
    FollowAppend(FRESH, s.log, DeliveriesOf(e, r), p);
    if e.name == "features" {
      FeaturesAreNotSeen(e.kids, r, p);
      FeaturesTakeNothing(e.kids, r);
      FollowUnseen(h, DeliveriesOf(e, r), p);
    } else {
      ChosenFollow(h, e, r, p);
    }
  }

  lemma {:induction false} ChosenFollow(h: Holder, e: Element, r: Registry, p: nat)
    requires h.depth == 0 && h.found && e.name != "features" && Separate(r) && p in r.stanzas
    ensures var h' := Follow(h, DeliveriesOf(e, r), p);
            h'.depth == 0 && h'.found
  {
    hide Broadcast, Accepting, Events, Seen, Follow, FollowEvents, Callback;
    var ps, stanzas := Chosen(e, r), Accepting(r.stanzas, r.canParse, StartOf(e));
    var ds := Broadcast(ps, Events(e));
    AcceptingIsFilter(r.stanzas, r.canParse, StartOf(e), p);
    AcceptingIsFilter(r.features, r.canParse, StartOf(e), p);
    if p in ps {
      FollowBroadcast(h, ps, Events(e), p);
      HoldsThroughElement(h, e);
    } else {
      NotAmong(ps, Events(e), p);
      BroadcastTakesNothing(ps, Events(e));
      FollowUnseen(h, ds, p);
    }
    if stanzas == [] {
      assert ds + [] == ds;
    } else {
      FollowAppend(h, ds, [Taken(stanzas[|stanzas| - 1])], p);
      FollowTaken(Follow(h, ds, p), stanzas[|stanzas| - 1], p);
    }
  }

  /** As long as no handler restarts the stream, every callback of every factory finds its stanza. */
  lemma {:induction false} EveryCallbackFindsAStanza(s: State, es: seq<Element>, r: Registry, p: nat)
    requires s.depth == 1 && s.parsers == [] && Separate(r) && p in r.stanzas
    requires HolderOf(s.log, p).depth == 0 && HolderOf(s.log, p).found
    ensures var h := HolderOf(Run(s, EventsOfElements(es), r).log, p);
            h.depth == 0 && h.found
    decreases |es|
  {
    hide Events, DeliveriesOf, OutcomeOf, Step, HolderOf;
    if es != [] {
      RunAppend(s, Events(es[0]), EventsOfElements(es[1..]), r);
      ElementIsDispatched(s, es[0], r);
      ElementFindsItsStanza(s, es[0], r, p);
      EveryCallbackFindsAStanza(Run(s, Events(es[0]), r), es[1..], r, p);
    }
  }

  /** The end tag of a stanza that no factory's callback restarts: every callback of every factory finds a
      stanza exactly if the handler of the stanza does not restart the stream. */
  lemma {:induction false} RestartedHandlerMissesItsStanza(
      s: State, e: Element, r: Registry, restarted: Restarted)
    requires s.depth == 1 && s.parsers == [] && Nested(s) && Separate(r) && !restarted.ByParser?
    requires e.name != "features" && Accepting(r.stanzas, r.canParse, StartOf(e)) != []
    requires forall p :: p in r.stanzas ==> HolderOf(s.log, p).depth == 0 && HolderOf(s.log, p).found
    ensures var s1 := Run(Step(s, StartOf(e), r), EventsOfAll(e.kids), r);
            && Nested(s1) && Poppable(s1) && s1.depth == 2 && s1.mode == ReadStanza
            && (CanRestart(s1, restarted) ==>
                  ((forall p :: p in r.stanzas ==> HolderOf(EndTag1(s1, restarted).log, p).found)
                   <==> !restarted.ByHandler?))
  {
    hide Run, Broadcast, Accepting, EventsOfAll, HolderOf, Nested, Deliver;
    BeforeEndTag(s, e, r);
    var s1 := Run(Step(s, StartOf(e), r), EventsOfAll(e.kids), r);
    var f := s1.parsers[|s1.parsers| - 1];
    if CanRestart(s1, restarted) {
      var after := EndTag1(s1, restarted);
      forall p | p in r.stanzas ensures HolderOf(after.log, p).found == !(restarted.ByHandler? && p == f) {
        AtEndTag(s, s1, e, r, restarted, p);
      }
      AcceptingIsFilter(r.stanzas, r.canParse, StartOf(e), f);
    }
  }

  lemma {:induction false} BeforeEndTag(s: State, e: Element, r: Registry)
    requires s.depth == 1 && s.parsers == [] && Nested(s)
    requires e.name != "features" && Accepting(r.stanzas, r.canParse, StartOf(e)) != []
    ensures var s1 := Run(Step(s, StartOf(e), r), EventsOfAll(e.kids), r);
            var ps := Accepting(r.stanzas, r.canParse, StartOf(e));
            && Nested(s1) && Poppable(s1) && s1.depth == 2 && s1.mode == ReadStanza && s1.parsers == ps
            && s1.log == s.log + Deliver(ps, StartOf(e)) + Broadcast(ps, EventsOfAll(e.kids))
  {
    hide Run, Broadcast, Accepting, EventsOfAll, Deliver;
    var ps := Accepting(r.stanzas, r.canParse, StartOf(e));
    assert [] + ps == ps;
    StartKeepsNested(s, StartOf(e), r);
    var t := Step(s, StartOf(e), r);
    RunBelow(e, t, e.kids, r);
    PoppedCount(t);
  }

  lemma {:induction false} AtEndTag(s: State, s1: State, e: Element, r: Registry, restarted: Restarted, p: nat)
    requires Separate(r) && p in r.stanzas && HolderOf(s.log, p).depth == 0 && HolderOf(s.log, p).found
    requires Nested(s1) && Poppable(s1) && s1.depth == 2 && s1.mode == ReadStanza && !restarted.ByParser?
    requires s1.parsers == Accepting(r.stanzas, r.canParse, StartOf(e)) && s1.parsers != []
    requires s1.log == s.log + Deliver(s1.parsers, StartOf(e)) + Broadcast(s1.parsers, EventsOfAll(e.kids))
    requires CanRestart(s1, restarted)
    ensures HolderOf(EndTag1(s1, restarted).log, p).found
            == !(restarted.ByHandler? && p == s1.parsers[|s1.parsers| - 1])
  {
    hide Broadcast, Accepting, EventsOfAll, Nested, Deliver, Follow, FollowEvents, Distinct;
    var ps, f := s1.parsers, s1.parsers[|s1.parsers| - 1];
    AcceptingIsFilter(r.stanzas, r.canParse, StartOf(e), p);
    var h := HolderOf(s.log, p);
    FollowAppend(FRESH, s.log, Deliver(ps, StartOf(e)), p);
    FollowAppend(FRESH, s.log + Deliver(ps, StartOf(e)), Broadcast(ps, EventsOfAll(e.kids)), p);
    FollowDeliver(h, ps, StartOf(e), p);
    var h1 := if p in ps then Callback(h, StartOf(e)) else h;
    FollowBroadcast(h1, ps, EventsOfAll(e.kids), p);
    if p in ps {
      HoldsThroughNodes(h1, e, e.kids);
    }
    FollowAppend(FRESH, s1.log, Deliver(ps, End), p);
    FollowDeliver(h1, ps, End, p);
    var h2 := if p in ps then Callback(h1, End) else h1;
    var log := s1.log + Deliver(ps, End);
    FollowAppend(FRESH, log, [Taken(f)], p);
    FollowTaken(h2, f, p);
    var h3 := if f == p then h2.(holds := false) else h2;
    if restarted.ByHandler? {
      FollowAppend(FRESH, log + [Taken(f)], Deliver(ps, End), p);
      FollowDeliver(h3, ps, End, p);
    }
  }

  /** At the start nothing has been delivered: every factory is ready and has missed no stanza. */
  lemma FactoriesStartReady(r: Registry, payloads: F.Registry)
    ensures AllReady([], r, payloads)
    ensures forall p :: p in r.stanzas ==> HolderOf([], p) == FRESH
  {
  }
}
