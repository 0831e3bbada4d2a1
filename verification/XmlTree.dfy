/** Element trees and the events a stream reader reports for them. */
module XmlTree {
  type Attributes = map<string, string>

  datatype Node = Text(text: string) | Child(e: Element)
  datatype Element = Element(name: string, uri: string, attributes: Attributes, kids: seq<Node>)

  /** Events as seen by an XmlStreamParser; the recorded tokens of a stanza have the same shape. */
  datatype Event = Start(name: string, uri: string, attributes: Attributes) | Characters(text: string) | End

  function StartOf(e: Element): Event {
    Start(e.name, e.uri, e.attributes)
  }

  function Events(e: Element): seq<Event> {
    [StartOf(e)] + EventsOfAll(e.kids) + [End]
  }

  function EventsOfAll(ns: seq<Node>): seq<Event> {
    if ns == [] then [] else EventsOf(ns[0]) + EventsOfAll(ns[1..])
  }

  function EventsOf(n: Node): seq<Event> {
    match n
    case Text(text) => [Characters(text)]
    case Child(e) => Events(e)
  }

  lemma {:induction false} EventsOfAppend(a: seq<Node>, b: seq<Node>)
    ensures EventsOfAll(a + b) == EventsOfAll(a) + EventsOfAll(b)
  {
    if a == [] {
      assert a + b == b;
    } else {
      assert (a + b)[1..] == a[1..] + b;
      EventsOfAppend(a[1..], b);
    }
  }

  lemma EventsOfOne(n: Node)
    ensures EventsOfAll([n]) == EventsOf(n)
  {
  }

  /** The events of a tree determine the tree. */
  lemma {:induction false} EventsAreInjective(e: Element, f: Element)
    requires Events(e) == Events(f)
    ensures e == f
  {
    UnpackElement(e, [], f, []);
  }

  lemma {:induction false} UnpackElement(e: Element, r: seq<Event>, f: Element, s: seq<Event>)
    requires Events(e) + r == Events(f) + s
    ensures e == f && r == s
    decreases e, 0
  {
    hide EventsOfAll;
    var x, y := EventsOfAll(e.kids) + ([End] + r), EventsOfAll(f.kids) + ([End] + s);
    assert Events(e) + r == [StartOf(e)] + x;
    assert Events(f) + s == [StartOf(f)] + y;
    assert ([StartOf(e)] + x)[0] == ([StartOf(f)] + y)[0];
    assert ([StartOf(e)] + x)[1..] == x && ([StartOf(f)] + y)[1..] == y;
    UnpackNodes(e, e.kids, r, f.kids, s);
  }

  lemma {:induction false} UnpackNodes(parent: Element, ns: seq<Node>, r: seq<Event>, ms: seq<Node>, s: seq<Event>)
    requires EventsOfAll(ns) + ([End] + r) == EventsOfAll(ms) + ([End] + s)
    requires forall n :: n in ns ==> n < parent
    ensures ns == ms && r == s
    decreases parent, 0, |ns|
  {
    var x, y := EventsOfAll(ns) + ([End] + r), EventsOfAll(ms) + ([End] + s);
    FirstEvent(ns, [End] + r);
    FirstEvent(ms, [End] + s);
    if ns == [] {
      assert x[1..] == r && y[1..] == s;
    } else {
      var n, m := ns[0], ms[0];
      assert n in ns && forall k :: k in ns[1..] ==> k in ns;
      var x', y' := EventsOfAll(ns[1..]) + ([End] + r), EventsOfAll(ms[1..]) + ([End] + s);
      assert x == EventsOf(n) + x' && y == EventsOf(m) + y';
      if n.Text? {
        assert x[1..] == x' && y[1..] == y';
      } else {
        UnpackElement(n.e, x', m.e, y');
      }
      UnpackNodes(parent, ns[1..], r, ms[1..], s);
    }
  }

  lemma {:induction false} FirstEvent(ns: seq<Node>, r: seq<Event>)
    requires r != [] && r[0] == End
    ensures var first := (EventsOfAll(ns) + r)[0];
            if ns == [] then first == End
            else if ns[0].Text? then first == Characters(ns[0].text)
            else first == StartOf(ns[0].e)
  {
    if ns != [] {
      if ns[0].Child? {
        assert Events(ns[0].e) == [StartOf(ns[0].e)] + (EventsOfAll(ns[0].e.kids) + [End]);
        assert EventsOf(ns[0]) == Events(ns[0].e);
      }
      assert (EventsOfAll(ns) + r)[0] == EventsOf(ns[0])[0];
    }
  }

  // ---------------------------------------------------------------- who accepts an element

  /** The parsers among these that accept a start tag, in their order. */
  function Accepting(parsers: seq<nat>, canParse: (nat, Event) -> bool, start: Event): seq<nat> {
    if parsers == [] then []
    else (if canParse(parsers[0], start) then [parsers[0]] else []) + Accepting(parsers[1..], canParse, start)
  }

  lemma AcceptingStep(parsers: seq<nat>, canParse: (nat, Event) -> bool, start: Event, i: nat)
    requires i < |parsers|
    ensures Accepting(parsers[i..], canParse, start) ==
              (if canParse(parsers[i], start) then [parsers[i]] else []) + Accepting(parsers[i + 1..], canParse, start)
  {
  }
}
