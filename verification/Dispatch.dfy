/**
 Routing of stream events to the stack of sub-parsers (Parser::handleStartElement,
 handleEndElement, handleCharacterData and the stack part of reset).
 */
module Dispatch {
  import opened XmlTree

  datatype Mode = WaitingForStanza | ReadFeatures | ReadStanza | ReadCustom

  /** The stanza factories and stream features, and which start tags each of them accepts. */
  datatype Registry = Registry(stanzas: seq<nat>, features: seq<nat>, canParse: (nat, Event) -> bool)

  /** One event handed to one sub-parser, or the stanza taken from a factory that has built it. */
  datatype Delivery = Delivery(parser: nat, event: Event) | Taken(factory: nat)

  /** What the end of a level-1 element leads to: a feature is activated, or the stanza made by a
      factory is handled. */
  datatype Outcome = ActivateFeature | HandleStanza(factory: nat)

  datatype State = State(
    depth: int, mode: Mode,
    parsers: seq<nat>, counts: seq<nat>,
    log: seq<Delivery>, outcomes: seq<Outcome>)

  /** One event for each of these parsers, in order. */
  function Deliver(parsers: seq<nat>, ev: Event): (d: seq<Delivery>)
    ensures |d| == |parsers|
  {
    seq(|parsers|, i requires 0 <= i < |parsers| => Delivery(parsers[i], ev))
  }

  /** Every event for all of these parsers. */
  function Broadcast(parsers: seq<nat>, evs: seq<Event>): seq<Delivery> {
    if evs == [] then [] else Deliver(parsers, evs[0]) + Broadcast(parsers, evs[1..])
  }

  /** The sub-parsers pushed by a start tag, and the mode after it. */
  function Route(s: State, start: Event, r: Registry): (seq<nat>, Mode)
    requires start.Start?
  {
    if s.depth == 1 then
      if start.name == "features" then (s.parsers, ReadFeatures)
      else
        var stanzas := s.parsers + Accepting(r.stanzas, r.canParse, start);
        if stanzas == [] then (Accepting(r.features, r.canParse, start), ReadCustom)
        else (stanzas, ReadStanza)
    else if s.mode == ReadFeatures && s.depth == 2 then
      (s.parsers + Accepting(r.features, r.canParse, start), s.mode)
    else (s.parsers, s.mode)
  }

  /** Every level that is open has its entry on the stack of counts, the counts grow with the
      level, and the stream itself and its level-1 elements were opened without sub-parsers. Older
      entries, left behind by a restart, may lie below. */
  predicate Nested(s: State) {
    && 0 <= s.depth <= |s.counts|
    && NestedCounts(s.counts[|s.counts| - s.depth..], |s.parsers|)
    && (s.depth <= 1 ==> s.parsers == [])
    && (s.mode == ReadStanza && s.depth == 2 ==> s.parsers != [])
    && (s.mode == ReadStanza && s.depth > 2 ==> s.counts[|s.counts| - s.depth + 2] > 0)
  }

  predicate NestedCounts(top: seq<nat>, open: nat) {
    && (forall i :: 0 <= i < |top| ==> top[i] <= open)
    && (forall i, j :: 0 <= i < j < |top| ==> top[i] <= top[j])
    && (forall i :: 0 <= i < |top| && i < 2 ==> top[i] == 0)
  }

  function Start1(s: State, start: Event, r: Registry): State
    requires start.Start?
  {
    var (parsers, mode) := Route(s, start, r);
    State(s.depth + 1, mode, parsers, s.counts + [|s.parsers|], s.log + Deliver(parsers, start), s.outcomes)
  }

  function Characters1(s: State, ev: Event): State {
    s.(log := s.log + Deliver(s.parsers, ev))
  }

  /** What the code needs at an end tag: a count to pop and, for a stanza, a factory on top. */
  predicate Poppable(s: State) {
    && s.counts != [] && s.counts[|s.counts| - 1] <= |s.parsers|
    && (s.mode == ReadStanza && s.depth == 2 ==> s.parsers != [])
  }

  /** An end tag after which nothing restarts the stream. */
  function End1(s: State): State
    requires Poppable(s)
  {
    var m := |s.counts| - 1;
    var s' := State(s.depth - 1, if s.depth == 2 then WaitingForStanza else s.mode,
                    s.parsers[..s.counts[m]], s.counts[..m], s.log + Deliver(s.parsers, End), s.outcomes);
    if s.depth == 2 && s.mode == ReadFeatures then s'.(outcomes := s.outcomes + [ActivateFeature])
    else if s.depth == 2 && s.mode == ReadStanza then
      var f := s.parsers[|s.parsers| - 1];
      s'.(log := s'.log + [Taken(f)], outcomes := s.outcomes + [HandleStanza(f)])
    else s'
  }

  /** Parser::reset: every sub-parser gets a synthetic end event; the counts stay. */
  function Reset1(s: State): State {
    State(0, WaitingForStanza, [], s.counts, s.log + Deliver(s.parsers, End), s.outcomes)
  }

  /** An end tag whose delivery to the k-th sub-parser restarts the stream. */
  function EndWithRestart1(s: State, k: nat): State
    requires Nested(s) && s.depth == 2 && k < |s.parsers|
  {
    var s' := Reset1(s.(log := s.log + Deliver(s.parsers[..k + 1], End)));
    s'.(counts := s.counts[..|s.counts| - 1])
  }

  /** An end tag of the features element whose activation of a feature restarts the stream. */
  function EndWithRestartedActivation1(s: State): State
    requires Nested(s) && s.depth == 2
  {
    var s' := Reset1(s.(log := s.log + Deliver(s.parsers, End), outcomes := s.outcomes + [ActivateFeature]));
    s'.(counts := s.counts[..|s.counts| - 1])
  }

  /** The end tag of a stanza whose handler restarts the stream, by reconnecting in a nested event loop. */
  function EndWithRestartedHandler1(s: State): State
    requires Nested(s) && s.depth == 2 && s.parsers != []
  {
    var f := s.parsers[|s.parsers| - 1];
    var log := s.log + Deliver(s.parsers, End) + [Taken(f)];
    var s' := Reset1(s.(log := log, outcomes := s.outcomes + [HandleStanza(f)]));
    s'.(counts := s.counts[..|s.counts| - 1])
  }

  /** What restarts the stream during an end tag: nothing, the end callback of the k-th sub-parser, the
      activation of a feature, or the handler of a stanza. */
  datatype Restarted = Never | ByParser(k: nat) | ByActivation | ByHandler

  /** The stream is restarted only at the end of a level-1 element. */
  predicate CanRestart(s: State, restarted: Restarted) {
    match restarted
    case Never => true
    case ByParser(k) => s.depth == 2 && k < |s.parsers|
    case ByActivation => s.depth == 2 && s.mode == ReadFeatures
    case ByHandler => s.depth == 2 && s.mode == ReadStanza
  }

  function EndTag1(s: State, restarted: Restarted): State
    requires Nested(s) && Poppable(s) && CanRestart(s, restarted)
  {
    match restarted
    case Never => End1(s)
    case ByParser(k) => EndWithRestart1(s, k)
    case ByActivation => EndWithRestartedActivation1(s)
    case ByHandler => EndWithRestartedHandler1(s)
  }

  class Parser {
    const registry: Registry
    var depth: int
    var mode: Mode
    var parsers: seq<nat>
    var parsersCount: seq<nat>
    ghost var log: seq<Delivery>
    ghost var outcomes: seq<Outcome>

    ghost function Abs(): State
      reads this
    {
      State(depth, mode, parsers, parsersCount, log, outcomes)
    }

    constructor (registry: Registry)
      ensures Abs() == State(0, WaitingForStanza, [], [], [], []) && Nested(Abs())
      ensures this.registry == registry
    {
      this.registry := registry;
      depth, mode, parsers, parsersCount := 0, WaitingForStanza, [], [];
      log, outcomes := [], [];
    }

    method HandleStartElement(name: string, uri: string, attributes: Attributes)
      requires Nested(Abs())
      modifies this
      ensures Abs() == Start1(old(Abs()), Start(name, uri, attributes), registry)
      ensures Nested(Abs())
    {
      StartKeepsNested(Abs(), Start(name, uri, attributes), registry);
      hide Nested;
      var start := Start(name, uri, attributes);
      parsersCount := parsersCount + [|parsers|];
      if depth == 1 {
        if name == "features" {
          mode := ReadFeatures;
        } else {
          PushAccepting(registry.stanzas, start);
          if parsers == [] {
            PushAccepting(registry.features, start);
            assert [] + Accepting(registry.features, registry.canParse, start)
                == Accepting(registry.features, registry.canParse, start);
            mode := ReadCustom;
          } else {
            mode := ReadStanza;
          }
        }
      } else if mode == ReadFeatures && depth == 2 {
        PushAccepting(registry.features, start);
      }
      DeliverAll(start);
      depth := depth + 1;
    }

    method PushAccepting(candidates: seq<nat>, start: Event)
      modifies `parsers
      ensures parsers == old(parsers) + Accepting(candidates, registry.canParse, start)
    {
      assert candidates[0..] == candidates;
      for i := 0 to |candidates|
        invariant parsers + Accepting(candidates[i..], registry.canParse, start)
               == old(parsers) + Accepting(candidates, registry.canParse, start)
      {
        AcceptingStep(candidates, registry.canParse, start, i);
        ghost var rest := Accepting(candidates[i + 1..], registry.canParse, start);
        if registry.canParse(candidates[i], start) {
          assert parsers + ([candidates[i]] + rest) == parsers + [candidates[i]] + rest;
          parsers := parsers + [candidates[i]];
        } else {
          assert [] + rest == rest;
        }
      }
      assert candidates[|candidates|..] == [];
      assert parsers + Accepting([], registry.canParse, start) == parsers;
    }

    /** The loop that hands an event to every sub-parser. */
    method DeliverAll(ev: Event)
      modifies `log
      ensures log == old(log) + Deliver(parsers, ev)
    {
      for i := 0 to |parsers|
        invariant log == old(log) + Deliver(parsers, ev)[..i]
      {
        log := log + [Delivery(parsers[i], ev)];
      }
    }

    method HandleCharacterData(text: string)
      requires Nested(Abs())
      modifies this
      ensures Abs() == Characters1(old(Abs()), Characters(text)) && Nested(Abs())
    {
      DeliverAll(Characters(text));
    }

    method Reset()
      modifies this
      ensures Abs() == Reset1(old(Abs())) && Nested(Abs())
    {
      mode, depth := WaitingForStanza, 0;
      DeliverAll(End);
      parsers := [];
    }

    /** The loop over the end callbacks; a callback that restarts the stream empties the stack
        under the loop. */
    method DeliverEnd(restarted: Restarted)
      requires restarted.ByParser? ==> restarted.k < |parsers|
      modifies this
      ensures Abs() == if !restarted.ByParser? then old(Abs()).(log := old(log) + Deliver(old(parsers), End))
                       else Reset1(old(Abs()).(log := old(log) + Deliver(old(parsers)[..restarted.k + 1], End)))
    {
      ghost var was := Abs();
      var i := 0;
      while i < |parsers|
        invariant 0 <= i <= |was.parsers|
        invariant restarted.ByParser? ==> i <= restarted.k + 1
        invariant if restarted.ByParser? && i > restarted.k
                  then Abs() == Reset1(was.(log := was.log + Deliver(was.parsers[..i], End)))
                  else Abs() == was.(log := was.log + Deliver(was.parsers[..i], End))
        decreases |was.parsers| - i
      {
        assert Deliver(was.parsers[..i], End) + [Delivery(was.parsers[i], End)] == Deliver(was.parsers[..i + 1], End);
        log := log + [Delivery(parsers[i], End)];
        if restarted == ByParser(i) {
          Reset();
        }
        i := i + 1;
      }
      assert was.parsers[..|was.parsers|] == was.parsers;
    }

    /** What the end of a level-1 element leads to. */
    method FinishElement(restarted: Restarted)
      requires mode == ReadStanza ==> parsers != []
      modifies this
      ensures var s := old(Abs());
              Abs() ==
                if s.mode == ReadFeatures then
                  var s' := s.(outcomes := s.outcomes + [ActivateFeature]);
                  if restarted.ByActivation? then Reset1(s') else s'.(mode := WaitingForStanza)
                else if s.mode == ReadStanza then
                  var f := s.parsers[|s.parsers| - 1];
                  var s' := s.(log := s.log + [Taken(f)], outcomes := s.outcomes + [HandleStanza(f)]);
                  if restarted.ByHandler? then Reset1(s') else s'.(mode := WaitingForStanza)
                else s.(mode := WaitingForStanza)
    {
      if mode == ReadFeatures {
        outcomes := outcomes + [ActivateFeature];
        if restarted.ByActivation? {
          Reset();
        }
      } else if mode == ReadStanza {
        var factory := parsers[|parsers| - 1];
        log := log + [Taken(factory)];
        outcomes := outcomes + [HandleStanza(factory)];
        if restarted.ByHandler? {
          Reset();
        }
      }
      mode := WaitingForStanza;
    }

    method HandleEndElement(restarted: Restarted)
      requires Nested(Abs()) && depth >= 1 && CanRestart(Abs(), restarted)
      modifies this
      ensures Nested(Abs()) && old(Poppable(Abs()))
      ensures Abs() == EndTag1(old(Abs()), restarted)
    {
      ghost var was := Abs();
      PoppedCount(was);
      EndKeepsNested(was);
      RestartKeepsNested(was);
      hide Nested, Deliver;
      depth := depth - 1;
      DeliverEnd(restarted);
      if depth == 1 {
        FinishElement(restarted);
      }
      var count := parsersCount[|parsersCount| - 1];
      parsersCount := parsersCount[..|parsersCount| - 1];
      parsers := parsers[..count];
      assert Abs() == EndTag1(was, restarted);
    }
  }

  // ---------------------------------------------------------------- the stack invariant

  lemma StartKeepsNested(s: State, start: Event, r: Registry)
    requires Nested(s) && start.Start?
    ensures Nested(Start1(s, start, r))
  {
  }

  lemma PoppedCount(s: State)
    requires Nested(s) && s.depth >= 1
    ensures Poppable(s) && (s.depth == 2 ==> s.counts[|s.counts| - 1] == 0)
  {
  }

  lemma EndKeepsNested(s: State)
    requires Nested(s) && s.depth >= 1 && Poppable(s)
    ensures Nested(End1(s))
  {
    var s', top := End1(s), s.counts[|s.counts| - s.depth..];
    assert s'.counts[|s'.counts| - s'.depth..] == top[..s.depth - 1];
    assert top[s.depth - 1] == s.counts[|s.counts| - 1];
    if s.depth > 2 {
      assert top[2] == s.counts[|s.counts| - s.depth + 2];
      assert s.depth > 3 ==> s'.counts[|s'.counts| - s'.depth + 2] == top[2];
    }
  }

  lemma RestartKeepsNested(s: State)
    requires Nested(s)
    ensures forall k :: 0 <= k < |s.parsers| && s.depth == 2 ==> Nested(EndWithRestart1(s, k))
    ensures s.depth == 2 ==> Nested(EndWithRestartedActivation1(s))
    ensures s.depth == 2 && s.parsers != [] ==> Nested(EndWithRestartedHandler1(s))
  {
  }

  // ---------------------------------------------------------------- element trees

  function Step(s: State, ev: Event, r: Registry): State {
    match ev
    case Start(_, _, _) => Start1(s, ev, r)
    case Characters(_) => Characters1(s, ev)
    case End => if Poppable(s) then End1(s) else s
  }

  function Run(s: State, evs: seq<Event>, r: Registry): State
    decreases |evs|
  {
    if evs == [] then s else Run(Step(s, evs[0], r), evs[1..], r)
  }

  lemma {:induction false} RunAppend(s: State, a: seq<Event>, b: seq<Event>, r: Registry)
    ensures Run(s, a + b, r) == Run(Run(s, a, r), b, r)
    decreases |a|
  {
    hide Step;
    if a == [] {
      assert a + b == b;
    } else {
      assert (a + b)[1..] == a[1..] + b;
      RunAppend(Step(s, a[0], r), a[1..], b, r);
    }
  }

  lemma RunOne(s: State, ev: Event, r: Registry)
    ensures Run(s, [ev], r) == Step(s, ev, r)
  {
  }

  /** The run of an element is that of its start tag, its children and its end tag. */
  lemma RunElement(s: State, e: Element, r: Registry)
    ensures Run(s, Events(e), r) ==
              Step(Run(Step(s, StartOf(e), r), EventsOfAll(e.kids), r), End, r)
  {
    hide Step, Run, EventsOfAll;
    var kids := EventsOfAll(e.kids);
    RunAppend(s, [StartOf(e)] + kids, [End], r);
    RunAppend(s, [StartOf(e)], kids, r);
    RunOne(s, StartOf(e), r);
    RunOne(Run(Step(s, StartOf(e), r), kids, r), End, r);
  }

  lemma {:induction false} BroadcastAppend(parsers: seq<nat>, a: seq<Event>, b: seq<Event>)
    ensures Broadcast(parsers, a + b) == Broadcast(parsers, a) + Broadcast(parsers, b)
    decreases |a|
  {
    hide Deliver;
    if a == [] {
      assert a + b == b;
    } else {
      assert (a + b)[1..] == a[1..] + b;
      BroadcastAppend(parsers, a[1..], b);
    }
  }

  lemma BroadcastElement(parsers: seq<nat>, e: Element)
    ensures Broadcast(parsers, Events(e)) ==
              Deliver(parsers, StartOf(e)) + Broadcast(parsers, EventsOfAll(e.kids)) + Deliver(parsers, End)
  {
    hide Deliver, EventsOfAll;
    var kids := EventsOfAll(e.kids);
    BroadcastAppend(parsers, [StartOf(e)] + kids, [End]);
    BroadcastAppend(parsers, [StartOf(e)], kids);
    BroadcastOne(parsers, StartOf(e));
    BroadcastOne(parsers, End);
  }

  lemma BroadcastOne(parsers: seq<nat>, ev: Event)
    ensures Broadcast(parsers, [ev]) == Deliver(parsers, ev)
  {
  }

  /** Below the levels where sub-parsers are chosen, every event goes to those on the stack. */
  predicate Settled(s: State) {
    s.depth >= 2 && !(s.mode == ReadFeatures && s.depth == 2)
  }

  lemma {:induction false} RunBelow(parent: Element, s: State, ns: seq<Node>, r: Registry)
    requires Settled(s) && forall n :: n in ns ==> n < parent
    ensures Run(s, EventsOfAll(ns), r) == s.(log := s.log + Broadcast(s.parsers, EventsOfAll(ns)))
    decreases parent, 0, |ns|
  {
    hide Step, Broadcast, EventsOf;
    if ns == [] {
      BroadcastNothing(s.parsers);
      assert s.log + [] == s.log;
    } else {
      assert ns[0] in ns && forall k :: k in ns[1..] ==> k in ns;
      var a, b := EventsOf(ns[0]), EventsOfAll(ns[1..]);
      RunAppend(s, a, b, r);
      RunNodeBelow(s, ns[0], r);
      RunBelow(parent, s.(log := s.log + Broadcast(s.parsers, a)), ns[1..], r);
      BroadcastAppend(s.parsers, a, b);
      assert s.log + Broadcast(s.parsers, a) + Broadcast(s.parsers, b)
          == s.log + (Broadcast(s.parsers, a) + Broadcast(s.parsers, b));
    }
  }

  lemma BroadcastNothing(parsers: seq<nat>)
    ensures Broadcast(parsers, []) == []
  {
  }

  lemma {:induction false} RunNodeBelow(s: State, n: Node, r: Registry)
    requires Settled(s)
    ensures Run(s, EventsOf(n), r) == s.(log := s.log + Broadcast(s.parsers, EventsOf(n)))
    decreases n, 1
  {
    hide Run, Broadcast, Deliver, EventsOfAll, Events, Accepting;
    match n
    case Text(text) =>
      RunOne(s, Characters(text), r);
      BroadcastOne(s.parsers, Characters(text));
    case Child(e) =>
      RunElement(s, e, r);
      BroadcastElement(s.parsers, e);
      var s1 := Step(s, StartOf(e), r);
      RunBelow(e, s1, e.kids, r);
      PopAfterPush(s, e, r);
  }

  /** The end tag gives back the stack that the start tag found. */
  lemma PopAfterPush(s: State, e: Element, r: Registry)
    requires Settled(s)
    ensures var s1 := Step(s, StartOf(e), r);
            var kids := Broadcast(s.parsers, EventsOfAll(e.kids));
            s1.parsers == s.parsers &&
            Step(s1.(log := s1.log + kids), End, r) ==
              s.(log := s.log + (Deliver(s.parsers, StartOf(e)) + kids + Deliver(s.parsers, End)))
  {
  }

  /** The sub-parsers for a level-1 element: the accepting stanza factories or, without any, the
      accepting features; nobody for the features element itself. */
  function Chosen(e: Element, r: Registry): seq<nat> {
    if e.name == "features" then []
    else
      var stanzas := Accepting(r.stanzas, r.canParse, StartOf(e));
      if stanzas == [] then Accepting(r.features, r.canParse, StartOf(e)) else stanzas
  }

  function OutcomeOf(e: Element, r: Registry): seq<Outcome> {
    if e.name == "features" then [ActivateFeature]
    else
      var stanzas := Accepting(r.stanzas, r.canParse, StartOf(e));
      if stanzas == [] then [] else [HandleStanza(stanzas[|stanzas| - 1])]
  }

  /** Inside the features element every child goes to the features that accept it. */
  function FeatureDeliveries(ns: seq<Node>, r: Registry): seq<Delivery> {
    if ns == [] then [] else FeatureDeliveriesOf(ns[0], r) + FeatureDeliveries(ns[1..], r)
  }

  function FeatureDeliveriesOf(n: Node, r: Registry): seq<Delivery> {
    match n
    case Text(_) => []
    case Child(e) => Broadcast(Accepting(r.features, r.canParse, StartOf(e)), Events(e))
  }

  function DeliveriesOf(e: Element, r: Registry): seq<Delivery> {
    if e.name == "features" then FeatureDeliveries(e.kids, r)
    else
      var stanzas := Accepting(r.stanzas, r.canParse, StartOf(e));
      Broadcast(Chosen(e, r), Events(e)) + if stanzas == [] then [] else [Taken(stanzas[|stanzas| - 1])]
  }

  lemma {:induction false} RunFeature(s: State, n: Node, r: Registry)
    requires s.mode == ReadFeatures && s.depth == 2 && s.parsers == []
    ensures Run(s, EventsOf(n), r) == s.(log := s.log + FeatureDeliveriesOf(n, r))
  {
    hide Run, Broadcast, EventsOfAll, Accepting, Events;
    match n
    case Text(text) =>
      RunOne(s, Characters(text), r);
    case Child(e) =>
      var fs := Accepting(r.features, r.canParse, StartOf(e));
      assert [] + fs == fs;
      RunElement(s, e, r);
      BroadcastElement(fs, e);
      var s1 := Step(s, StartOf(e), r);
      assert s1.parsers == fs;
      RunBelow(e, s1, e.kids, r);
      var kids := Broadcast(fs, EventsOfAll(e.kids));
      assert (s.counts + [0])[..|s.counts|] == s.counts;
      assert s.outcomes + [] == s.outcomes;
      assert s.log + Deliver(fs, StartOf(e)) + kids + Deliver(fs, End)
          == s.log + (Deliver(fs, StartOf(e)) + kids + Deliver(fs, End));
  }

  lemma {:induction false} RunFeatures(s: State, ns: seq<Node>, r: Registry)
    requires s.mode == ReadFeatures && s.depth == 2 && s.parsers == []
    ensures Run(s, EventsOfAll(ns), r) == s.(log := s.log + FeatureDeliveries(ns, r))
    decreases |ns|
  {
    hide Step, EventsOf, FeatureDeliveriesOf;
    if ns == [] {
      assert s.log + [] == s.log;
    } else {
      RunAppend(s, EventsOf(ns[0]), EventsOfAll(ns[1..]), r);
      RunFeature(s, ns[0], r);
      RunFeatures(s.(log := s.log + FeatureDeliveriesOf(ns[0], r)), ns[1..], r);
      assert s.log + FeatureDeliveriesOf(ns[0], r) + FeatureDeliveries(ns[1..], r)
          == s.log + FeatureDeliveries(ns, r);
    }
  }

  lemma {:induction false} FeaturesAreDispatched(s: State, e: Element, r: Registry)
    requires s.depth == 1 && s.parsers == [] && e.name == "features"
    ensures Run(s, Events(e), r) ==
              State(1, WaitingForStanza, [], s.counts, s.log + DeliveriesOf(e, r), s.outcomes + OutcomeOf(e, r))
  {
    hide Run, Broadcast, EventsOfAll, Accepting, Events, FeatureDeliveries;
    RunElement(s, e, r);
    var s1 := Step(s, StartOf(e), r);
    assert s1.parsers == [] && s1.log == s.log;
    assert (s.counts + [0])[..|s.counts|] == s.counts;
    RunFeatures(s1, e.kids, r);
  }

  lemma {:induction false} OtherElementIsDispatched(s: State, e: Element, r: Registry)
    requires s.depth == 1 && s.parsers == [] && e.name != "features"
    ensures Run(s, Events(e), r) ==
              State(1, WaitingForStanza, [], s.counts, s.log + DeliveriesOf(e, r), s.outcomes + OutcomeOf(e, r))
  {
    hide Run, Broadcast, EventsOfAll, Accepting, Events, Deliver;
    RunElement(s, e, r);
    var s1 := Step(s, StartOf(e), r);
    assert [] + Accepting(r.stanzas, r.canParse, StartOf(e)) == Accepting(r.stanzas, r.canParse, StartOf(e));
    assert s1.parsers == Chosen(e, r);
    assert (s.counts + [0])[..|s.counts|] == s.counts;
    var ps := Chosen(e, r);
    BroadcastElement(ps, e);
    RunBelow(e, s1, e.kids, r);
    var kids := Broadcast(ps, EventsOfAll(e.kids));
    assert s.log + Deliver(ps, StartOf(e)) + kids + Deliver(ps, End)
        == s.log + (Deliver(ps, StartOf(e)) + kids + Deliver(ps, End));
  }

  /** A level-1 element, whatever lies on the stack of counts: the chosen sub-parsers get exactly
      its events, the stacks are as before, and at most one stanza is handled. */
  lemma {:induction false} ElementIsDispatched(s: State, e: Element, r: Registry)
    requires s.depth == 1 && s.parsers == []
    ensures Run(s, Events(e), r) ==
              State(1, WaitingForStanza, [], s.counts, s.log + DeliveriesOf(e, r), s.outcomes + OutcomeOf(e, r))
  {
    hide *;
    if e.name == "features" {
      FeaturesAreDispatched(s, e, r);
    } else {
      OtherElementIsDispatched(s, e, r);
    }
  }

  // ---------------------------------------------------------------- what one sub-parser sees

  function Seen(log: seq<Delivery>, parser: nat): seq<Event> {
    if log == [] then []
    else (if log[0].Delivery? && log[0].parser == parser then [log[0].event] else []) + Seen(log[1..], parser)
  }

  predicate Distinct(parsers: seq<nat>) {
    forall i, j :: 0 <= i < j < |parsers| ==> parsers[i] != parsers[j]
  }

  lemma {:induction false} SeenAppend(a: seq<Delivery>, b: seq<Delivery>, parser: nat)
    ensures Seen(a + b, parser) == Seen(a, parser) + Seen(b, parser)
    decreases |a|
  {
    if a == [] {
      assert a + b == b;
    } else {
      SeenAppend(a[1..], b, parser);
      var head := if a[0].Delivery? && a[0].parser == parser then [a[0].event] else [];
      assert (a + b)[0] == a[0] && (a + b)[1..] == a[1..] + b;
      assert Seen(a + b, parser) == head + (Seen(a[1..], parser) + Seen(b, parser));
      assert head + (Seen(a[1..], parser) + Seen(b, parser)) == head + Seen(a[1..], parser) + Seen(b, parser);
    }
  }

  lemma {:induction false} SeenDeliver(parsers: seq<nat>, ev: Event, parser: nat)
    requires Distinct(parsers)
    ensures Seen(Deliver(parsers, ev), parser) == if parser in parsers then [ev] else []
    decreases |parsers|
  {
    if parsers != [] {
      assert Deliver(parsers, ev)[1..] == Deliver(parsers[1..], ev);
      SeenDeliver(parsers[1..], ev, parser);
      assert parser in parsers <==> parser == parsers[0] || parser in parsers[1..];
      if parser == parsers[0] {
        assert parser !in parsers[1..];
      }
    }
  }

  lemma SeenTaken(f: nat, parser: nat)
    ensures Seen([Taken(f)], parser) == []
  {
  }

  /** Of a broadcast, every sub-parser in it sees exactly the events, in order. */
  lemma {:induction false} SeenBroadcast(parsers: seq<nat>, evs: seq<Event>, parser: nat)
    requires Distinct(parsers)
    ensures Seen(Broadcast(parsers, evs), parser) == if parser in parsers then evs else []
    decreases |evs|
  {
    hide Deliver;
    if evs != [] {
      SeenAppend(Deliver(parsers, evs[0]), Broadcast(parsers, evs[1..]), parser);
      SeenDeliver(parsers, evs[0], parser);
      SeenBroadcast(parsers, evs[1..], parser);
      assert [evs[0]] + evs[1..] == evs;
    }
  }

  lemma {:induction false} AcceptingIsFilter(parsers: seq<nat>, canParse: (nat, Event) -> bool, start: Event, p: nat)
    ensures p in Accepting(parsers, canParse, start) <==> p in parsers && canParse(p, start)
    ensures Distinct(parsers) ==> Distinct(Accepting(parsers, canParse, start))
    decreases |parsers|
  {
    if parsers != [] {
      var rest := Accepting(parsers[1..], canParse, start);
      forall q ensures q in rest <==> q in parsers[1..] && canParse(q, start) {
        AcceptingIsFilter(parsers[1..], canParse, start, q);
      }
      AcceptingIsFilter(parsers[1..], canParse, start, p);
      assert p in parsers <==> p == parsers[0] || p in parsers[1..];
      if Distinct(parsers) {
        assert parsers[0] !in parsers[1..];
        assert parsers[0] !in rest;
      }
    }
  }

  predicate LastToAccept(f: nat, parsers: seq<nat>, canParse: (nat, Event) -> bool, start: Event) {
    exists i :: 0 <= i < |parsers| && parsers[i] == f && canParse(f, start)
                && forall j :: i < j < |parsers| ==> !canParse(parsers[j], start)
  }

  lemma {:induction false} AcceptingEndsWithTheLast(
      parsers: seq<nat>, canParse: (nat, Event) -> bool, start: Event)
    ensures var ps := Accepting(parsers, canParse, start);
            if ps == [] then forall j :: 0 <= j < |parsers| ==> !canParse(parsers[j], start)
            else LastToAccept(ps[|ps| - 1], parsers, canParse, start)
    decreases |parsers|
  {
    if parsers != [] {
      AcceptingEndsWithTheLast(parsers[1..], canParse, start);
      var ps := Accepting(parsers[1..], canParse, start);
      if ps != [] {
        var i :| 0 <= i < |parsers| - 1 && parsers[1..][i] == ps[|ps| - 1] && canParse(ps[|ps| - 1], start)
                 && forall j :: i < j < |parsers| - 1 ==> !canParse(parsers[1..][j], start);
        assert forall j :: i + 1 < j < |parsers| ==> parsers[j] == parsers[1..][j - 1];
        assert parsers[i + 1] == ps[|ps| - 1];
      } else {
        assert forall j :: 1 <= j < |parsers| ==> parsers[j] == parsers[1..][j - 1];
        assert canParse(parsers[0], start) ==> parsers[0] == Accepting(parsers, canParse, start)[0];
      }
    }
  }

  /** A stanza: each stanza factory sees the events of the stanza if it accepts its start tag and
      nothing otherwise, no feature sees anything, and exactly one stanza is handled, made by an
      accepting factory. */
  lemma {:induction false} StanzaIsSeenByItsFactories(s: State, e: Element, r: Registry, p: nat)
    requires s.depth == 1 && s.parsers == [] && Distinct(r.stanzas)
    requires e.name != "features" && exists f :: f in r.stanzas && r.canParse(f, StartOf(e))
    ensures var s' := Run(s, Events(e), r);
            && Seen(s'.log, p) ==
                 Seen(s.log, p) + (if p in r.stanzas && r.canParse(p, StartOf(e)) then Events(e) else [])
            && |s'.outcomes| == |s.outcomes| + 1
            && var last := s'.outcomes[|s.outcomes|];
               last.HandleStanza? && LastToAccept(last.factory, r.stanzas, r.canParse, StartOf(e))
  {
    hide Run, Broadcast, Accepting, Events, Seen, LastToAccept;
    var f :| f in r.stanzas && r.canParse(f, StartOf(e));
    var ps := Accepting(r.stanzas, r.canParse, StartOf(e));
    AcceptingIsFilter(r.stanzas, r.canParse, StartOf(e), f);
    AcceptingIsFilter(r.stanzas, r.canParse, StartOf(e), p);
    AcceptingEndsWithTheLast(r.stanzas, r.canParse, StartOf(e));
    ElementIsDispatched(s, e, r);
    var taken := [Taken(ps[|ps| - 1])];
    SeenAppend(s.log, Broadcast(ps, Events(e)) + taken, p);
    SeenAppend(Broadcast(ps, Events(e)), taken, p);
    SeenTaken(taken[0].factory, p);
    SeenBroadcast(ps, Events(e), p);
  }

  /** An element that no stanza factory accepts: each feature sees its events if it accepts the start
      tag and nothing otherwise, and nothing is handled. */
  lemma {:induction false} OtherElementIsSeenByItsFeatures(s: State, e: Element, r: Registry, p: nat)
    requires s.depth == 1 && s.parsers == [] && Distinct(r.features)
    requires e.name != "features" && forall f :: f in r.stanzas ==> !r.canParse(f, StartOf(e))
    ensures var s' := Run(s, Events(e), r);
            && Seen(s'.log, p) ==
                 Seen(s.log, p) + (if p in r.features && r.canParse(p, StartOf(e)) then Events(e) else [])
            && s'.outcomes == s.outcomes
  {
    hide Run, Broadcast, Accepting, Events, Seen;
    AcceptingEndsWithTheLast(r.stanzas, r.canParse, StartOf(e));
    var ps := Accepting(r.features, r.canParse, StartOf(e));
    assert Accepting(r.stanzas, r.canParse, StartOf(e)) == [];
    AcceptingIsFilter(r.features, r.canParse, StartOf(e), p);
    ElementIsDispatched(s, e, r);
    assert Broadcast(ps, Events(e)) + [] == Broadcast(ps, Events(e));
    SeenAppend(s.log, Broadcast(ps, Events(e)), p);
    SeenBroadcast(ps, Events(e), p);
  }

  /** The children that a parser accepts. */
  function AcceptedEvents(ns: seq<Node>, accepts: Event -> bool): seq<Event> {
    if ns == [] then []
    else (if ns[0].Child? && accepts(StartOf(ns[0].e)) then Events(ns[0].e) else [])
         + AcceptedEvents(ns[1..], accepts)
  }

  /** The features element: each feature sees exactly the children that it accepts, and one feature is
      activated behind it. */
  lemma {:induction false} FeaturesAreSeen(s: State, e: Element, r: Registry, p: nat)
    requires s.depth == 1 && s.parsers == [] && Distinct(r.features) && e.name == "features"
    ensures var s' := Run(s, Events(e), r);
            && Seen(s'.log, p) == Seen(s.log, p)
                 + (if p in r.features then AcceptedEvents(e.kids, ev => r.canParse(p, ev)) else [])
            && s'.outcomes == s.outcomes + [ActivateFeature]
  {
    hide Run, FeatureDeliveries, AcceptedEvents, Accepting, Events, Seen;
    ElementIsDispatched(s, e, r);
    SeenAppend(s.log, FeatureDeliveries(e.kids, r), p);
    ChildrenAreSeen(e.kids, r, p);
  }

  lemma {:induction false} ChildrenAreSeen(ns: seq<Node>, r: Registry, p: nat)
    requires Distinct(r.features)
    ensures Seen(FeatureDeliveries(ns, r), p) ==
              if p in r.features then AcceptedEvents(ns, ev => r.canParse(p, ev)) else []
    decreases |ns|
  {
    hide Accepting, Events, Broadcast;
    if ns != [] {
      ChildrenAreSeen(ns[1..], r, p);
      var first := FeatureDeliveriesOf(ns[0], r);
      SeenAppend(first, FeatureDeliveries(ns[1..], r), p);
      if ns[0].Child? {
        var start := StartOf(ns[0].e);
        AcceptingIsFilter(r.features, r.canParse, start, p);
        SeenBroadcast(Accepting(r.features, r.canParse, start), Events(ns[0].e), p);
      }
    }
  }

  /** An end tag: every sub-parser on the stack sees it once, and if the stream is restarted meanwhile,
      once more as the end that the restart makes up; those behind a restarting one see only the latter. */
  lemma {:induction false} EndIsSeen(s: State, restarted: Restarted, p: nat)
    requires Nested(s) && Poppable(s) && CanRestart(s, restarted) && Distinct(s.parsers)
    ensures var more := if p !in s.parsers then []
                        else match restarted
                             case Never => [End]
                             case ByParser(k) => if p in s.parsers[..k + 1] then [End, End] else [End]
                             case _ => [End, End];
            Seen(EndTag1(s, restarted).log, p) == Seen(s.log, p) + more
    ensures EndTag1(s, restarted).parsers == if restarted.Never? then s.parsers[..s.counts[|s.counts| - 1]] else []
    ensures restarted.Never? || EndTag1(s, restarted).depth == 0
  {
    hide Deliver, Nested, Seen;
    SeenDeliver(s.parsers, End, p);
    var all := Deliver(s.parsers, End);
    SeenAppend(s.log, all, p);
    if restarted.ByParser? {
      var first := s.parsers[..restarted.k + 1];
      SeenDeliver(first, End, p);
      SeenAppend(s.log, Deliver(first, End), p);
      SeenAppend(s.log + Deliver(first, End), all, p);
    } else if restarted.ByActivation? {
      SeenAppend(s.log + all, all, p);
    } else if s.depth == 2 && s.mode == ReadStanza {
      var taken := [Taken(s.parsers[|s.parsers| - 1])];
      SeenTaken(taken[0].factory, p);
      SeenAppend(s.log + all, taken, p);
      SeenAppend(s.log + all + taken, all, p);
    }
  }
}
