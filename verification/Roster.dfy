/**
 The roster: a table of shared items that full loads and pushes change, and the callbacks that report
 every change.
 */
module Roster {

  datatype Subscription = SubscriptionNone | From | To | Both | Removal | Invalid

  datatype Data = Data(name: string, ask: string, groups: seq<string>, subscription: Subscription)

  // ---------------------------------------------------------------- callbacks

  /** A callback with the data its item had at the time. */
  datatype Note = Added(jid: string, data: Data) | Updated(jid: string, data: Data) | Removed(jid: string)

  /** What somebody who only hears the callbacks makes of one. */
  function Hear(table: map<string, Data>, note: Note): map<string, Data> {
    match note
    case Added(jid, data) => table[jid := data]
    case Updated(jid, data) => if jid in table then table[jid := data] else table
    case Removed(jid) => table - {jid}
  }

  function Replay(notes: seq<Note>): map<string, Data> {
    if notes == [] then map[] else Hear(Replay(notes[..|notes| - 1]), notes[|notes| - 1])
  }

  lemma ReplayNext(notes: seq<Note>, note: Note)
    ensures Replay(notes + [note]) == Hear(Replay(notes), note)
  {
  }

  /** Every callback fits the table it finds: an item is added once, and updated only when it is there. */
  predicate Fitting(notes: seq<Note>) {
    notes != [] ==>
      && Fitting(notes[..|notes| - 1])
      && var table := Replay(notes[..|notes| - 1]);
         match notes[|notes| - 1]
         case Added(jid, _) => jid !in table
         case Updated(jid, _) => jid in table
         case Removed(_) => true
  }

  lemma FittingNext(notes: seq<Note>, note: Note)
    requires Fitting(notes)
    requires note.Added? ==> note.jid !in Replay(notes)
    requires note.Updated? ==> note.jid in Replay(notes)
    ensures Fitting(notes + [note])
  {
    assert (notes + [note])[..|notes|] == notes;
  }

  // ---------------------------------------------------------------- the table as a value

  /** A listed item: which object it is, its address, and its data. */
  datatype Entry<V> = Entry(item: V, jid: string, data: Data)

  datatype State<V> = State(kept: map<string, V>, table: map<string, Data>)

  /** The object in the table stays; a listed item for the same address only lends it its data. */
  function Step<V(==)>(s: State<V>, e: Entry<V>): State<V> {
    if e.jid !in s.kept then State(s.kept[e.jid := e.item], s.table[e.jid := e.data])
    else if s.kept[e.jid] == e.item then s
    else s.(table := s.table[e.jid := e.data])
  }

  function Load<V(==)>(s: State<V>, entries: seq<Entry<V>>): State<V> {
    if entries == [] then s else Step(Load(s, entries[..|entries| - 1]), entries[|entries| - 1])
  }

  function Jids<V>(entries: seq<Entry<V>>): set<string> {
    set i | 0 <= i < |entries| :: entries[i].jid
  }

  function Without<K, T>(m: map<K, T>, gone: set<K>): map<K, T> {
    m - gone
  }

  /** A complete roster: everything listed is taken in, everything else goes. */
  function FullLoad<V(==)>(s: State<V>, entries: seq<Entry<V>>): State<V> {
    var gone := s.kept.Keys - Jids(entries);
    var loaded := Load(s, entries);
    State(Without(loaded.kept, gone), Without(loaded.table, gone))
  }

  function PushStep<V(==)>(s: State<V>, e: Entry<V>): State<V> {
    if e.data.subscription == Removal then State(s.kept - {e.jid}, s.table - {e.jid}) else Step(s, e)
  }

  function Push<V(==)>(s: State<V>, entries: seq<Entry<V>>): State<V> {
    if entries == [] then s else PushStep(Push(s, entries[..|entries| - 1]), entries[|entries| - 1])
  }

  lemma LoadNone<V>(s: State<V>)
    ensures Load(s, []) == s
  {
  }

  lemma PushNone<V>(s: State<V>)
    ensures Push(s, []) == s
  {
  }

  lemma LoadNext<V>(s: State<V>, entries: seq<Entry<V>>, e: Entry<V>)
    ensures Load(s, entries + [e]) == Step(Load(s, entries), e)
  {
  }

  lemma PushNext<V>(s: State<V>, entries: seq<Entry<V>>, e: Entry<V>)
    ensures Push(s, entries + [e]) == PushStep(Push(s, entries), e)
  {
  }

  lemma {:induction false} LoadKeys<V>(s: State<V>, entries: seq<Entry<V>>)
    requires s.kept.Keys == s.table.Keys
    ensures Load(s, entries).kept.Keys == Load(s, entries).table.Keys == s.kept.Keys + Jids(entries)
  {
    if entries == [] {
    } else {
      var front, e := entries[..|entries| - 1], entries[|entries| - 1];
      LoadKeys(s, front);
      assert Jids(entries) == Jids(front) + {e.jid};
    }
  }

  /** After a complete roster the addresses are exactly the listed ones. */
  lemma {:induction false} FullLoadKeepsTheListed<V>(s: State<V>, entries: seq<Entry<V>>)
    requires s.kept.Keys == s.table.Keys
    ensures FullLoad(s, entries).kept.Keys == FullLoad(s, entries).table.Keys == Jids(entries)
    ensures forall j <- Jids(entries) ::
              j in Load(s, entries).table && FullLoad(s, entries).table[j] == Load(s, entries).table[j]
  {
    LoadKeys(s, entries);
    var gone := s.kept.Keys - Jids(entries);
    assert s.kept.Keys + Jids(entries) - gone == Jids(entries);
  }

  // ---------------------------------------------------------------- the last occurrence

  /** The last entry for an address, and the last that is not a certain object; -1 without one. */
  function Last<V>(entries: seq<Entry<V>>, jid: string): (i: int)
    ensures -1 <= i < |entries|
    ensures i >= 0 ==> entries[i].jid == jid
  {
    if entries == [] then -1
    else if entries[|entries| - 1].jid == jid then |entries| - 1
    else Last(entries[..|entries| - 1], jid)
  }

  function LastOther<V(==)>(entries: seq<Entry<V>>, jid: string, kept: V): (i: int)
    ensures -1 <= i < |entries|
    ensures i >= 0 ==> entries[i].jid == jid && entries[i].item != kept
  {
    if entries == [] then -1
    else if entries[|entries| - 1].jid == jid && entries[|entries| - 1].item != kept then |entries| - 1
    else LastOther(entries[..|entries| - 1], jid, kept)
  }

  function First<V>(entries: seq<Entry<V>>, jid: string): (i: nat)
    requires jid in Jids(entries)
    ensures i < |entries| && entries[i].jid == jid && jid !in Jids(entries[..i])
  {
    var front := entries[..|entries| - 1];
    if jid in Jids(front) then
      assert front[..First(front, jid)] == entries[..First(front, jid)];
      First(front, jid)
    else |entries| - 1
  }

  /** The entries show every object as it was before the load. */
  ghost predicate Snapshot<V>(s: State<V>, entries: seq<Entry<V>>) {
    && s.kept.Keys == s.table.Keys
    && (forall i, j :: 0 <= i < j < |entries| && entries[i].item == entries[j].item ==> entries[i] == entries[j])
    && (forall i :: 0 <= i < |entries| && entries[i].jid in s.kept && s.kept[entries[i].jid] == entries[i].item
                    ==> entries[i].data == s.table[entries[i].jid])
  }

  /** The object that is in the table in the end, and the data it had in the beginning. */
  function Keeper<V>(s: State<V>, entries: seq<Entry<V>>, jid: string): (V, Data)
    requires jid in Jids(entries) && s.kept.Keys == s.table.Keys
  {
    if jid in s.kept then (s.kept[jid], s.table[jid])
    else (entries[First(entries, jid)].item, entries[First(entries, jid)].data)
  }

  /** What an address has after a load: the data of the last listed object other than its keeper,
      else what the keeper had. */
  lemma {:induction false} LoadYields<V>(s: State<V>, entries: seq<Entry<V>>, jid: string)
    requires s.kept.Keys == s.table.Keys && jid in Jids(entries)
    ensures var keeper := Keeper(s, entries, jid);
            var other := LastOther(entries, jid, keeper.0);
            var after := Load(s, entries);
            && jid in after.kept && after.kept[jid] == keeper.0 && jid in after.table
            && after.table[jid] == if other == -1 then keeper.1 else entries[other].data
  {
    var front, e := entries[..|entries| - 1], entries[|entries| - 1];
    LoadKeys(s, front);
    if jid in Jids(front) {
      LoadYields(s, front, jid);
    } else {
      assert e.jid == jid;
      LoadLeaves(s, front, jid);
      NoOther(front, jid, Keeper(s, entries, jid).0);
    }
  }

  lemma {:induction false} NoOther<V>(entries: seq<Entry<V>>, jid: string, kept: V)
    requires jid !in Jids(entries)
    ensures LastOther(entries, jid, kept) == -1
  {
  }

  lemma {:induction false} LoadLeaves<V>(s: State<V>, entries: seq<Entry<V>>, jid: string)
    requires s.kept.Keys == s.table.Keys && jid !in Jids(entries)
    ensures jid in s.kept ==> jid in Load(s, entries).kept && Load(s, entries).kept[jid] == s.kept[jid]
    ensures jid in s.kept ==> jid in Load(s, entries).table && Load(s, entries).table[jid] == s.table[jid]
    ensures jid !in s.kept ==> jid !in Load(s, entries).kept
  {
    if entries != [] {
      assert entries[|entries| - 1].jid in Jids(entries);
      assert forall j <- Jids(entries[..|entries| - 1]) :: j in Jids(entries);
      LoadLeaves(s, entries[..|entries| - 1], jid);
    }
  }

  lemma {:induction false} LastIsThere<V>(entries: seq<Entry<V>>, jid: string, kept: V)
    requires jid in Jids(entries)
    ensures Last(entries, jid) >= 0
    ensures entries[Last(entries, jid)].item != kept ==> LastOther(entries, jid, kept) == Last(entries, jid)
  {
    var front, e := entries[..|entries| - 1], entries[|entries| - 1];
    if e.jid != jid {
      assert jid in Jids(front);
      LastIsThere(front, jid, kept);
    }
  }

  /** After a load an address has the data of its last occurrence, exactly unless that occurrence is the
      very object already in the table (or inserted by an earlier occurrence) and a different object
      with other data was listed before it. */
  lemma {:induction false} LastOccurrenceWins<V>(s: State<V>, entries: seq<Entry<V>>, jid: string)
    requires Snapshot(s, entries) && jid in Jids(entries)
    ensures jid in Load(s, entries).table && Last(entries, jid) >= 0
    ensures var last, keeper := entries[Last(entries, jid)], Keeper(s, entries, jid).0;
            var other := LastOther(entries, jid, keeper);
            Load(s, entries).table[jid] == last.data
            <==> last.item != keeper || other == -1 || entries[other].data == last.data
  {
    var keeper := Keeper(s, entries, jid);
    LoadYields(s, entries, jid);
    LastIsThere(entries, jid, keeper.0);
    var last := Last(entries, jid);
    if entries[last].item == keeper.0 {
      if jid in s.kept {
        assert keeper.1 == entries[last].data;
      } else {
        var first := First(entries, jid);
        assert entries[first] == entries[last];
      }
    }
  }

  /** A list of objects that are all different and not yet in the table, as the parser makes them. */
  ghost predicate Unaliased<V>(kept: map<string, V>, entries: seq<Entry<V>>) {
    && (forall i, j :: 0 <= i < j < |entries| ==> entries[i].item != entries[j].item)
    && (forall i, j :: 0 <= i < |entries| && j in kept ==> entries[i].item != kept[j])
  }

  /** A complete roster of new objects: the addresses are the listed ones, each with its last data. */
  lemma {:induction false} NewRosterIsAsListed<V>(s: State<V>, entries: seq<Entry<V>>)
    requires s.kept.Keys == s.table.Keys && Unaliased(s.kept, entries)
    ensures FullLoad(s, entries).table.Keys == Jids(entries)
    ensures forall j <- Jids(entries) ::
              Last(entries, j) >= 0 && FullLoad(s, entries).table[j] == entries[Last(entries, j)].data
  {
    hide Load;
    FullLoadKeepsTheListed(s, entries);
    forall j <- Jids(entries)
      ensures Last(entries, j) >= 0 && FullLoad(s, entries).table[j] == entries[Last(entries, j)].data
    {
      LastOccurrenceWins(s, entries, j);
      if entries[Last(entries, j)].item == Keeper(s, entries, j).0 {
        OnlyKeeper(s, entries, j);
      }
    }
  }

  lemma {:induction false} PushKeepsObjects<V>(s: State<V>, entries: seq<Entry<V>>, jid: string)
    requires s.kept.Keys == s.table.Keys
    ensures Push(s, entries).kept.Keys == Push(s, entries).table.Keys
    ensures jid in Push(s, entries).kept ==>
              || (jid in s.kept && Push(s, entries).kept[jid] == s.kept[jid])
              || exists i :: 0 <= i < |entries| && entries[i].item == Push(s, entries).kept[jid]
  {
    if entries != [] {
      var front := entries[..|entries| - 1];
      PushKeepsObjects(s, front, jid);
      assert forall i :: 0 <= i < |front| ==> entries[i] == front[i];
    }
  }

  /** A push of new objects: an address whose last entry is a removal is gone, any other listed one has the
      data of its last entry, and one that is not listed is as before. */
  lemma {:induction false} PushIsAsListed<V>(s: State<V>, entries: seq<Entry<V>>, jid: string)
    requires s.kept.Keys == s.table.Keys && Unaliased(s.kept, entries)
    ensures var after, last := Push(s, entries), Last(entries, jid);
            && after.kept.Keys == after.table.Keys
            && if last == -1 then
                 && (jid in after.table <==> jid in s.table)
                 && (jid in s.table ==> after.table[jid] == s.table[jid] && after.kept[jid] == s.kept[jid])
               else if entries[last].data.subscription == Removal then jid !in after.table
               else jid in after.table && after.table[jid] == entries[last].data
  {
    if entries != [] {
      var front, e := entries[..|entries| - 1], entries[|entries| - 1];
      PushIsAsListed(s, front, jid);
      PushKeepsObjects(s, front, e.jid);
    }
  }

  /** When the last occurrence is the keeper, nothing else is listed for the address. */
  lemma {:induction false} OnlyKeeper<V>(s: State<V>, entries: seq<Entry<V>>, jid: string)
    requires s.kept.Keys == s.table.Keys && Unaliased(s.kept, entries) && jid in Jids(entries)
    requires Last(entries, jid) >= 0 && entries[Last(entries, jid)].item == Keeper(s, entries, jid).0
    ensures LastOther(entries, jid, Keeper(s, entries, jid).0) == -1
  {
    hide Last, LastOther, First;
    var other, last := LastOther(entries, jid, Keeper(s, entries, jid).0), Last(entries, jid);
    if other != -1 {
      var first := First(entries, jid);
      assert jid !in s.kept && first == last;
      NoneBehindLast(entries, jid, other);
      assert false;
    }
  }

  lemma {:induction false} NoneBehindLast<V>(entries: seq<Entry<V>>, jid: string, i: nat)
    requires i < |entries| && entries[i].jid == jid
    ensures i <= Last(entries, jid)
  {
    if i < |entries| - 1 && entries[|entries| - 1].jid != jid {
      NoneBehindLast(entries[..|entries| - 1], jid, i);
    }
  }

  /** The same object listed before and behind another one for its address keeps the other's data. */
  lemma RepeatedObjectLosesItsData(jid: string, mine: Data, theirs: Data)
    requires mine != theirs
    ensures var entries := [Entry(0, jid, mine), Entry(1, jid, theirs), Entry(0, jid, mine)];
            Snapshot(State(map[], map[]), entries) && FullLoad(State(map[], map[]), entries).table == map[jid := theirs]
  {
    var none: State<int> := State(map[], map[]);
    var a, b := Entry(0, jid, mine), Entry(1, jid, theirs);
    var entries := [a, b, a];
    LoadNext(none, [], a);
    LoadNext(none, [a], b);
    LoadNext(none, [a, b], a);
    assert [] + [a] == [a] && [a] + [b] == [a, b] && [a, b] + [a] == entries;
  }

  // ---------------------------------------------------------------- the roster

  class RosterItem {
    const jid: string
    var name: string
    var ask: string
    var groups: seq<string>
    var subscription: Subscription

    constructor (jid: string, data: Data)
      ensures this.jid == jid && Value() == data
    {
      this.jid := jid;
      name, ask, groups, subscription := data.name, data.ask, data.groups, data.subscription;
    }

    function Value(): Data
      reads this
    {
      Data(name, ask, groups, subscription)
    }

    /** setData: everything but the address. */
    method SetData(item: RosterItem)
      modifies this
      ensures Value() == old(item.Value())
    {
      ask := item.ask;
      groups := item.groups;
      subscription := item.subscription;
      name := item.name;
    }
  }

  class AbstractRoster {
    var version: string
    var items: map<string, RosterItem>
    ghost var table: map<string, Data>     // the items' data
    ghost var notes: seq<Note>             // the callbacks so far

    /** Every item is under its own address, and the callbacks replay to the table. */
    ghost predicate Valid()
      reads `items, `table, `notes, items.Values
    {
      && ItemsAgree()
      && Replay(notes) == table && Fitting(notes)
    }

    ghost predicate ItemsAgree()
      reads `items, `table, items.Values
    {
      && items.Keys == table.Keys
      && (forall k <- items :: items[k].jid == k && items[k].Value() == table[k])
    }

    ghost function Now(): State<RosterItem>
      reads `items, `table
    {
      State(items, table)
    }

    constructor ()
      ensures Valid() && items == map[] && notes == []
    {
      version, items, table, notes := "", map[], map[], [];
    }

    /** A callback. */
    ghost method Tell(note: Note)
      requires Fitting(notes)
      requires (note.Added? ==> note.jid !in Replay(notes)) && (note.Updated? ==> note.jid in Replay(notes))
      modifies `notes
      ensures Replay(notes) == Hear(old(Replay(notes)), note) && Fitting(notes) && notes == old(notes) + [note]
    {
      ReplayNext(notes, note);
      FittingNext(notes, note);
      notes := notes + [note];
    }

    /** The loop body of a push and of a load for an item that is not removed. */
    method Take(item: RosterItem)
      requires Valid()
      modifies `items, `table, `notes, if item.jid in items then {items[item.jid]} else {}
      ensures Valid() && Now() == Step(old(Now()), Entry(item, item.jid, old(item.Value())))
      ensures notes == old(notes) + [if item.jid in old(items) then Updated(item.jid, old(item.Value()))
                                     else Added(item.jid, old(item.Value()))]
    {
      if item.jid !in items {
        Insert(item);
      } else {
        Update(item);
      }
    }

    method Insert(item: RosterItem)
      requires Valid() && item.jid !in items
      modifies `items, `table, `notes
      ensures Valid() && items == old(items)[item.jid := item] && table == old(table)[item.jid := item.Value()]
      ensures notes == old(notes) + [Added(item.jid, item.Value())]
    {
      hide Replay, Fitting;
      items := items[item.jid := item];
      table := table[item.jid := item.Value()];
      Tell(Added(item.jid, item.Value()));
    }

    method Update(item: RosterItem)
      requires Valid() && item.jid in items
      modifies `table, `notes, items[item.jid]
      ensures Valid() && table == old(table)[item.jid := old(item.Value())]
      ensures items[item.jid] == item ==> table == old(table)
      ensures notes == old(notes) + [Updated(item.jid, old(item.Value()))]
    {
      hide Replay, Fitting;
      items[item.jid].SetData(item);
      table := table[item.jid := items[item.jid].Value()];
      Tell(Updated(item.jid, items[item.jid].Value()));
    }

    method Drop(jid: string)
      requires Valid()
      modifies `items, `table, `notes
      ensures Valid() && Now() == State(old(items) - {jid}, old(table) - {jid})
      ensures notes == old(notes) + [Removed(jid)]
    {
      hide Replay, Fitting;
      Tell(Removed(jid));
      items := items - {jid};
      table := table - {jid};
    }

    /** The listed objects as they are. */
    static ghost function Listing(list: seq<RosterItem>): seq<Entry<RosterItem>>
      reads list
    {
      seq(|list|, i requires 0 <= i < |list| reads list => Entry(list[i], list[i].jid, list[i].Value()))
    }

    /** A roster push. The entries are its items as the loop finds them; for items that the parser has
        made for this push, they are its items as they came. */
    method HandleIq(version: string, list: seq<RosterItem>) returns (ghost entries: seq<Entry<RosterItem>>)
      requires Valid()
      modifies `version, `items, `table, `notes, items.Values, list
      ensures Valid() && this.version == version
      ensures Now() == Push(old(Now()), entries) && MadeOf(entries, list)
      ensures old(Waiting(list)) ==> entries == old(Listing(list))
      ensures |notes| == |old(notes)| + |list| && old(notes) <= notes
    {
      this.version := version;
      entries := TakePushed(list);
    }

    method TakePushed(list: seq<RosterItem>) returns (ghost entries: seq<Entry<RosterItem>>)
      requires Valid()
      modifies `items, `table, `notes, items.Values, list
      ensures Valid() && Now() == Push(old(Now()), entries) && MadeOf(entries, list)
      ensures old(Waiting(list)) ==> entries == old(Listing(list))
      ensures |notes| == |old(notes)| + |list| && old(notes) <= notes
    {
      hide Push, PushStep, ItemsAgree, Replay, Fitting, MadeOf;
      ghost var start, pool, before, waiting := Listing(list), items.Values + (set o <- list), Now(), Waiting(list);
      entries := [];
      PushNone(before);
      MadeOfNone();
      assert list[..0] == [] && start[..0] == [] && list[0..] == list && start[0..] == start;
      for i := 0 to |list|
        invariant Valid() && Now() == Push(before, entries) && MadeOf(entries, list[..i])
        invariant |notes| == |old(notes)| + i && old(notes) <= notes
        invariant forall k <- items :: items[k] in pool
        invariant waiting ==> entries == start[..i] && Listing(list[i..]) == start[i..] && Waiting(list[i..])
      {
        ghost var e := Entry(list[i], list[i].jid, list[i].Value());
        PushNext(before, entries, e);
        MadeOfNext(entries, e, list[..i], list[i]);
        assert list[..i] + [list[i]] == list[..i + 1];
        assert list[i..][1..] == list[i + 1..] && start[i..][1..] == start[i + 1..];
        if waiting {
          assert Listing(list[i..])[0] == start[i] == e;
          assert start[..i] + [e] == start[..i + 1];
        }
        TakeFirst(list[i..]);
        entries := entries + [e];
      }
      assert start[..|list|] == start && list[..|list|] == list;
    }

    /** Entries of these objects, with their addresses. */
    static ghost predicate MadeOf(entries: seq<Entry<RosterItem>>, list: seq<RosterItem>) {
      |entries| == |list| && forall i :: 0 <= i < |list| ==> entries[i].item == list[i] && entries[i].jid == list[i].jid
    }

    static lemma MadeOfNone()
      ensures MadeOf([], [])
    {
    }

    static lemma MadeOfNext(
        entries: seq<Entry<RosterItem>>, e: Entry<RosterItem>, list: seq<RosterItem>, item: RosterItem)
      requires MadeOf(entries, list) && e.item == item && e.jid == item.jid
      ensures MadeOf(entries + [e], list + [item])
    {
    }

    /** The listed objects are all different and not in the table. */
    ghost predicate Waiting(list: seq<RosterItem>)
      reads `items
    {
      && (forall i, j :: 0 <= i < j < |list| ==> list[i] != list[j])
      && (forall j, k <- items :: 0 <= j < |list| ==> list[j] != items[k])
    }

    /** The loop body of a push, for the first of the items that are left. */
    method TakeFirst(list: seq<RosterItem>)
      requires Valid() && |list| > 0
      modifies `items, `table, `notes, if list[0].jid in items then {items[list[0].jid]} else {}
      ensures Valid() && Now() == PushStep(old(Now()), Entry(list[0], list[0].jid, old(list[0].Value())))
      ensures forall k <- items :: items[k] == list[0] || (k in old(items) && items[k] == old(items)[k])
      ensures old(Waiting(list)) ==>
                Waiting(list[1..]) && Listing(list[1..]) == old(Listing(list[1..])) == old(Listing(list)[1..])
      ensures |notes| == |old(notes)| + 1 && old(notes) <= notes
    {
      hide PushStep, ItemsAgree, Replay, Fitting;
      TakeOrDrop(list[0]);
    }

    method TakeOrDrop(item: RosterItem)
      requires Valid()
      modifies `items, `table, `notes, if item.jid in items then {items[item.jid]} else {}
      ensures Valid() && Now() == PushStep(old(Now()), Entry(item, item.jid, old(item.Value())))
      ensures forall k <- items :: items[k] == item || (k in old(items) && items[k] == old(items)[k])
      ensures notes == old(notes) + [if old(item.subscription) == Removal then Removed(item.jid)
                                     else if item.jid in old(items) then Updated(item.jid, old(item.Value()))
                                     else Added(item.jid, old(item.Value()))]
    {
      if item.subscription == Removal {
        Drop(item.jid);
      } else {
        Take(item);
      }
    }

    /** The addresses that a complete roster does not list. */
    method Unlisted(list: seq<RosterItem>) returns (rest: set<string>)
      ensures rest == items.Keys - (set o <- list :: o.jid)
    {
      rest := items.Keys;
      var i := 0;
      while rest != {} && i < |list|
        invariant 0 <= i <= |list| && rest == items.Keys - (set o <- list[..i] :: o.jid)
      {
        rest := rest - {list[i].jid};
        assert (set o <- list[..i + 1] :: o.jid) == (set o <- list[..i] :: o.jid) + {list[i].jid};
        i := i + 1;
      }
    }

    method TakeAll(list: seq<RosterItem>)
      requires Valid()
      modifies `items, `table, `notes, items.Values, list
      ensures Valid() && Now() == Load(old(Now()), old(Listing(list)))
      ensures |notes| == |old(notes)| + |list| && old(notes) <= notes
    {
      ghost var entries, pool, before := Listing(list), items.Values + (set o <- list), Now();
      hide Load, Step, Replay, Fitting, ItemsAgree;
      LoadNone(before);
      assert entries[..0] == [] && Lent(list, entries);
      hide Lent;
      for i := 0 to |list|
        invariant Valid() && Now() == Load(before, entries[..i])
        invariant |notes| == |old(notes)| + i && old(notes) <= notes
        invariant forall k <- items :: items[k] in pool
        invariant Lent(list, entries)
      {
        LoadNext(before, entries[..i], entries[i]);
        assert entries[..i] + [entries[i]] == entries[..i + 1];
        TakeListed(list, i, entries);
      }
      assert entries[..|list|] == entries;
    }

    ghost predicate IsKept(item: RosterItem)
      reads `items
    {
      item.jid in items && items[item.jid] == item
    }

    /** Only an object in the table can have other data than it was listed with. */
    ghost predicate Lent(list: seq<RosterItem>, entries: seq<Entry<RosterItem>>)
      reads `items, list
    {
      && |entries| == |list|
      && forall j :: 0 <= j < |list| ==>
           && entries[j].item == list[j] && entries[j].jid == list[j].jid
           && (IsKept(list[j]) || list[j].Value() == entries[j].data)
    }

    /** The loop body of a load. Taking an object that is in the table already changes nothing. */
    method TakeListed(list: seq<RosterItem>, i: nat, ghost entries: seq<Entry<RosterItem>>)
      requires Valid() && Lent(list, entries) && i < |list| == |entries|
      modifies `items, `table, `notes, if list[i].jid in items then {items[list[i].jid]} else {}
      ensures Valid() && Lent(list, entries) && Now() == Step(old(Now()), entries[i])
      ensures items == if list[i].jid in old(items) then old(items) else old(items)[list[i].jid := list[i]]
      ensures |notes| == |old(notes)| + 1 && old(notes) <= notes
    {
      hide Replay, Fitting;
      assert list[i].jid in items ==> items[list[i].jid].jid == list[i].jid;
      Take(list[i]);
    }

    /** What the lemmas about loads ask of a list holds of every list. */
    lemma ListingIsSnapshot(list: seq<RosterItem>)
      requires Valid()
      ensures Snapshot(Now(), Listing(list))
      ensures Waiting(list) ==> Unaliased(Now().kept, Listing(list))
    {
    }

    static lemma ListedJids(list: seq<RosterItem>)
      ensures (set o <- list :: o.jid) == Jids(Listing(list))
    {
      var entries := Listing(list);
      forall i | 0 <= i < |list| ensures list[i].jid in Jids(entries) {
        assert entries[i].jid == list[i].jid;
      }
      forall j <- Jids(entries) ensures j in (set o <- list :: o.jid) {
        var i :| 0 <= i < |entries| && entries[i].jid == j;
        assert list[i] in list;
      }
    }

    /** The loop over the addresses that go. */
    method DropAll(gone: set<string>)
      requires Valid()
      modifies `items, `table, `notes
      ensures Valid() && Now() == State(Without(old(items), gone), Without(old(table), gone))
      ensures |notes| == |old(notes)| + |gone| && old(notes) <= notes
    {
      hide Without, ItemsAgree, Replay, Fitting;
      var rest := gone;
      DropNone(Now());
      assert gone - rest == {};
      while rest != {}
        invariant Valid() && rest <= gone
        invariant |notes| == |old(notes)| + |gone| - |rest| && old(notes) <= notes
        invariant items == Without(old(items), gone - rest) && table == Without(old(table), gone - rest)
        decreases |rest|
      {
        var jid :| jid in rest;
        DropNext(old(Now()), gone - rest, jid);
        assert gone - rest + {jid} == gone - (rest - {jid});
        rest := rest - {jid};
        Drop(jid);
      }
      assert gone - rest == gone;
    }

    /** A complete roster. */
    method OnLoaded(list: seq<RosterItem>)
      requires Valid()
      modifies `items, `table, `notes, items.Values, list
      ensures Valid() && Now() == FullLoad(old(Now()), old(Listing(list)))
      ensures old(notes) <= notes
      ensures |notes| == |old(notes)| + |list| + |old(items).Keys - Jids(old(Listing(list)))|
    {
      hide Load, Without, ItemsAgree, Replay, Jids;
      ListedJids(list);
      var rest := Unlisted(list);
      TakeAll(list);
      DropAll(rest);
    }
  }

  lemma DropNone<V>(s: State<V>)
    ensures Without(s.kept, {}) == s.kept && Without(s.table, {}) == s.table
  {
  }

  lemma DropNext<V>(s: State<V>, gone: set<string>, jid: string)
    ensures Without(s.kept, gone) - {jid} == Without(s.kept, gone + {jid})
    ensures Without(s.table, gone) - {jid} == Without(s.table, gone + {jid})
  {
  }
}
