/**
 The parse loop of Parser (appendData, parseData, event and the buffer part of reset): after every
 stanza it gives control back to the event loop and posts itself a hook event to go on later.
 While the element of a part is handled, a nested event loop may deliver more data and pending hook
 events, and a stream feature may restart the stream; the loop then goes on with the new stream.
 */
module ParseLoop {
  import opened Bytes
  import opened Framer
  import opened Chunking

  /** What reaches the parser from outside its own loop. */
  datatype Event = Data(bytes: string) | Hook | Restart

  /** What the two XML readers make of a part: it is broken, it ends no level-1 element, or it ends
      one, and then `events` are delivered while that is handled; a restart among them leaves the
      parser at depth 0. */
  datatype Turn = Broken | Quiet | StanzaEnd(events: seq<Event>)

  /** The bytes of the current stream: everything since the last restart. */
  function CurrentStream(log: seq<Event>): string {
    if log == [] then ""
    else
      var earlier := CurrentStream(log[..|log| - 1]);
      match log[|log| - 1]
      case Data(bytes) => earlier + bytes
      case Hook => earlier
      case Restart => ""
  }

  /** The run so far takes the same parts as draining the whole stream at once, now and for every
      continuation of the stream that puts nothing behind its closing tag. */
  ghost predicate OnTrack(r: Run, received: string, before: char) {
    forall b :: NothingAfterClose(received + b, true, before) ==> OnTrackFor(r, received, b, before)
  }

  predicate OnTrackFor(r: Run, received: string, b: string, before: char) {
    NothingAfterClose(r.left + b, r.first, before) && Feed(START, received + b, before) == Feed(r, b, before)
  }

  lemma {:induction false} StartIsOnTrack(before: char)
    ensures OnTrack(START, "", before) && Conserved(START, "", before)
  {
    hide Drain, NothingAfterClose;
    forall b | NothingAfterClose("" + b, true, before) ensures OnTrackFor(START, "", b, before) {
      assert "" + b == b;
    }
  }

  /** Data appended to the buffer. */
  lemma {:induction false} OnTrackAppend(r: Run, received: string, a: string, before: char)
    requires OnTrack(r, received, before)
    ensures OnTrack(r.(left := r.left + a), received + a, before)
  {
    hide Drain, NothingAfterClose;
    forall b | NothingAfterClose(received + a + b, true, before)
      ensures OnTrackFor(r.(left := r.left + a), received + a, b, before)
    {
      assert received + a + b == received + (a + b);
      assert OnTrackFor(r, received, a + b, before);
      assert r.left + a + b == r.left + (a + b);
    }
  }

  lemma {:induction false} ConservedAppend(r: Run, received: string, a: string, before: char)
    requires Conserved(r, received, before)
    ensures Conserved(r.(left := r.left + a), received + a, before)
  {
    hide Prologue, HeaderEnd;
    if r.parts != [] {
      HeaderStable(received, a, before);
    }
    assert Flatten(r.parts) + (r.left + a) == (Flatten(r.parts) + r.left) + a;
  }

  /** One part taken off the buffer. */
  lemma {:induction false} OnTrackTake(r: Run, received: string, before: char)
    requires OnTrack(r, received, before) && Take(r.left, r.first, before).Framed?
    ensures var f := Take(r.left, r.first, before);
            OnTrack(Run(r.parts + [f.part], f.rest, false), received, before)
  {
    hide Drain, Take, NothingAfterClose, OnTrackFor;
    var f := Take(r.left, r.first, before);
    forall b | NothingAfterClose(received + b, true, before)
      ensures OnTrackFor(Run(r.parts + [f.part], f.rest, false), received, b, before)
    {
      assert OnTrackFor(r, received, b, before);
      TakeOne(r, received, b, before);
    }
  }

  lemma {:induction false} TakeOne(r: Run, received: string, b: string, before: char)
    requires OnTrackFor(r, received, b, before) && Take(r.left, r.first, before).Framed?
    ensures var f := Take(r.left, r.first, before);
            OnTrackFor(Run(r.parts + [f.part], f.rest, false), received, b, before)
  {
    hide Drain, Take, Scan;
    var f := Take(r.left, r.first, before);
    TakeAlong(r.left, b, r.first, before);
    DrainTake(r.left + b, r.first, before);
    var d := Drain(f.rest + b, false, before);
    assert r.parts + ([f.part] + d.parts) == r.parts + [f.part] + d.parts;
  }

  /** Taking the first part leaves the bytes behind it, when nothing follows a closing tag. */
  lemma {:induction false} TakeAlong(a: string, b: string, first: bool, before: char)
    requires Take(a, first, before).Framed? && NothingAfterClose(a + b, first, before)
    ensures Take(a + b, first, before) == Framed(Take(a, first, before).part, Take(a, first, before).rest + b)
    ensures NothingAfterClose(Take(a, first, before).rest + b, false, before)
  {
    if first || Scan(a, 0).Part? {
      TakeStable(a, b, first, before);
      if !first {
        ScanStable(a, b, 0);
      }
    } else {
      ScanStable(a, b, 0);
      assert b == "";
      assert a + b == a;
      assert "" + b == "";
      assert Take("", false, before).Incomplete?;
    }
  }

  lemma {:induction false} ConservedTake(r: Run, received: string, before: char)
    requires Conserved(r, received, before) && Take(r.left, r.first, before).Framed?
    ensures var f := Take(r.left, r.first, before);
            Conserved(Run(r.parts + [f.part], f.rest, false), received, before)
  {
    hide Prologue, Take, Flatten;
    var f := Take(r.left, r.first, before);
    TakeConserves(r.left, r.first, before);
    FlattenAppend(r.parts, [f.part]);
    FlattenOne(f.part);
    assert Flatten(r.parts) + f.part + f.rest == Flatten(r.parts) + (f.part + f.rest);
    if r.first {
      FlattenNone();
      assert "" + r.left == r.left;
      assert "" + received == received && "" + f.part == f.part;
      TakeFindsHeader(r.left, before);
    } else {
      assert "" + r.left == r.left;
    }
  }

  lemma TakeOfNothing(first: bool, before: char)
    ensures Take("", first, before).Incomplete?
  {
  }

  lemma TakeFindsHeader(s: string, before: char)
    requires Take(s, true, before).Framed?
    ensures HeaderEnd(s, before) != -1
  {
  }

  lemma FlattenOne(s: string)
    ensures Flatten([s]) == s
  {
  }

  lemma FlattenNone()
    ensures Flatten([]) == ""
  {
  }

  class Parser {
    const before: char
    const turns: nat -> Turn       // how the k-th part is read, for every k
    const calm: nat                // from this part on the stream is not restarted any more
    var buffer: string
    var first: bool
    var atParsing: bool
    var taken: nat                 // parts taken in all, over all streams
    var hooks: nat                 // hook events posted and not yet delivered
    ghost var parts: seq<string>   // parts taken from the current stream
    ghost var log: seq<Event>      // everything that has reached the parser

    ghost predicate Valid()
      reads this
    {
      && OnTrack(Run(parts, buffer, first), CurrentStream(log), before)
      && Conserved(Run(parts, buffer, first), CurrentStream(log), before)
      && (forall k :: k >= calm && turns(k).StanzaEnd? ==> Restart !in turns(k).events)
    }

    /** The parser rests, and no complete part waits in the buffer without a hook to fetch it. */
    ghost predicate Settled()
      reads this
    {
      !atParsing && (Take(buffer, first, before).Framed? ==> hooks > 0)
    }

    constructor (before: char, turns: nat -> Turn, calm: nat)
      requires forall k :: k >= calm && turns(k).StanzaEnd? ==> Restart !in turns(k).events
      ensures Valid() && Settled() && log == [] && hooks == 0
      ensures this.before == before && this.turns == turns && this.calm == calm
    {
      this.before, this.turns, this.calm := before, turns, calm;
      buffer, first, atParsing, taken, hooks := "", true, false, 0, 0;
      parts, log := [], [];
      new;
      StartIsOnTrack(before);
    }

    /** Parser::reset, as far as the buffer is concerned. */
    method Reset()
      requires Valid()
      modifies this
      ensures Valid() && log == old(log) + [Restart]
      ensures buffer == "" && first && parts == [] && atParsing == old(atParsing) && hooks == old(hooks)
      ensures taken == old(taken)
    {
      hide OnTrack, Conserved;
      buffer, first := "", true;
      parts, log := [], log + [Restart];
      StartIsOnTrack(before);
    }

    method AppendData(a: string)
      requires Valid()
      modifies this
      ensures Valid()
      ensures old(log) + [Data(a)] <= log
      ensures if old(atParsing)
              then atParsing && buffer == old(buffer) + a && log == old(log) + [Data(a)] && taken == old(taken)
              else Settled()
      ensures taken >= old(taken)
      ensures !old(atParsing) && Take(old(buffer) + a, old(first), before).Framed? ==> taken > old(taken)
      decreases if atParsing then 0 else 1, 1
    {
      hide OnTrack, Conserved, Take;
      OnTrackAppend(Run(parts, buffer, first), CurrentStream(log), a, before);
      ConservedAppend(Run(parts, buffer, first), CurrentStream(log), a, before);
      buffer := buffer + a;
      log := log + [Data(a)];
      ParseData();
    }

    /** Parser::event for a hook event. */
    method DeliverHook()
      requires Valid() && hooks > 0
      modifies this
      ensures Valid() && old(log) + [Hook] <= log
      ensures if old(atParsing) then atParsing && log == old(log) + [Hook] && taken == old(taken) else Settled()
      ensures taken >= old(taken)
      ensures !old(atParsing) && old(Take(buffer, first, before)).Framed? ==> taken > old(taken)
      decreases if atParsing then 0 else 1, 1
    {
      hooks := hooks - 1;
      log := log + [Hook];
      ParseData();
    }

    method ParseData()
      requires Valid()
      modifies this
      ensures Valid() && old(log) <= log
      ensures if old(atParsing)
              then atParsing && buffer == old(buffer) && log == old(log) && hooks == old(hooks) && parts == old(parts)
                   && taken == old(taken)
              else Settled()
      ensures taken >= old(taken)
      ensures !old(atParsing) && old(Take(buffer, first, before)).Framed? ==> taken > old(taken)
      decreases if atParsing then 0 else 1, 0
    {
      hide OnTrack, Conserved, Scan, HeaderEnd, Prologue;
      if atParsing {
        return;
      }
      atParsing := true;
      var needMoreData := false;
      while buffer != ""
        invariant Valid() && atParsing && old(log) <= log && taken >= old(taken)
        invariant taken == old(taken) ==> buffer == old(buffer) && first == old(first)
        decreases if taken < calm then calm - taken else 0, |buffer|
      {
        ghost var was := Run(parts, buffer, first);
        var result, rest;
        result, rest, needMoreData := NextPart(buffer, first, before);
        buffer := rest;
        if needMoreData {
          atParsing := false;
          return;
        }
        OnTrackTake(was, CurrentStream(log), before);
        ConservedTake(was, CurrentStream(log), before);
        first := false;
        parts := parts + [result];
        var turn := turns(taken);
        taken := taken + 1;
        if turn.Broken? {
          continue;
        }
        if turn.StanzaEnd? {
          HandleStanza(turn.events);
          if Restart !in turn.events {
            atParsing := false;
            hooks := hooks + 1;
            return;
          }
        }
      }
      atParsing := false;
      TakeOfNothing(first, before);
    }

    /** The handlers of one level-1 element, with the events that a nested event loop delivers and
        the restarts that a stream feature causes. */
    method HandleStanza(events: seq<Event>)
      requires Valid() && atParsing
      modifies this
      ensures Valid() && atParsing && old(log) <= log && taken == old(taken)
      decreases 0, 2
    {
      hide OnTrack, Conserved, Take;
      for i := 0 to |events|
        invariant Valid() && atParsing && old(log) <= log && taken == old(taken)
      {
        match events[i]
        case Data(bytes) => AppendData(bytes);
        case Hook =>
          if hooks > 0 {
            DeliverHook();
          }
        case Restart => Reset();
      }
    }

    /** Once the parser rests with no hook pending it has taken exactly the parts of the stream,
        whatever the chunks and the nested events were. */
    lemma CaughtUp()
      requires Valid() && Settled() && hooks == 0
      requires NothingAfterClose(CurrentStream(log), true, before)
      ensures Run(parts, buffer, first) == Drain(CurrentStream(log), true, before)
    {
      var r := Run(parts, buffer, first);
      RestingRunIsDrain(r, CurrentStream(log), before);
    }
  }

  lemma {:induction false} RestingRunIsDrain(r: Run, received: string, before: char)
    requires OnTrack(r, received, before) && NothingAfterClose(received, true, before)
    requires Take(r.left, r.first, before).Incomplete?
    ensures r == Drain(received, true, before)
  {
    hide Drain, Take, NothingAfterClose;
    assert received + "" == received && r.left + "" == r.left && "" + received == received;
    assert OnTrackFor(r, received, "", before);
    DrainTake(r.left, r.first, before);
    assert r.parts + [] == r.parts;
    assert [] + Drain(received, true, before).parts == Drain(received, true, before).parts;
  }
}
