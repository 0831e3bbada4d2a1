/**
 Message sessions and the two hashes of the session manager that find them by full and by bare address.
 A QMultiHash is the sequence of its entries, newest first; a QPointer is null once its session is destroyed.
 */
module Sessions {
  import opened Bytes
  import opened Wrappers
  import J = Jid

  datatype Entry<V> = Entry(key: string, value: V)

  // ---------------------------------------------------------------- QMultiHash

  function Insert<V>(hash: seq<Entry<V>>, key: string, value: V): seq<Entry<V>> {
    [Entry(key, value)] + hash
  }

  /** remove(key, value): every such entry. */
  function Remove<V(==)>(hash: seq<Entry<V>>, key: string, value: V): seq<Entry<V>> {
    if hash == [] then []
    else if hash[0] == Entry(key, value) then Remove(hash[1..], key, value)
    else [hash[0]] + Remove(hash[1..], key, value)
  }

  /** values(key), newest first. */
  function Values<V>(hash: seq<Entry<V>>, key: string): seq<V> {
    if hash == [] then []
    else if hash[0].key == key then [hash[0].value] + Values(hash[1..], key)
    else Values(hash[1..], key)
  }

  lemma {:induction false} RemoveKeepsTheOthers<V>(hash: seq<Entry<V>>, key: string, value: V, e: Entry<V>)
    ensures e in Remove(hash, key, value) <==> e in hash && e != Entry(key, value)
  {
    if hash != [] {
      RemoveKeepsTheOthers(hash[1..], key, value, e);
      assert e in hash <==> e == hash[0] || e in hash[1..];
    }
  }

  lemma {:induction false} ValuesAreFiled<V>(hash: seq<Entry<V>>, key: string, value: V)
    ensures value in Values(hash, key) <==> Entry(key, value) in hash
  {
    if hash != [] {
      ValuesAreFiled(hash[1..], key, value);
      assert Entry(key, value) in hash <==> Entry(key, value) == hash[0] || Entry(key, value) in hash[1..];
    }
  }

  /** An insertion puts the value in front of the others under its key, and leaves the other keys; a removal
      leaves the order. */
  lemma {:induction false} NewestFirst<V>(hash: seq<Entry<V>>, key: string, value: V, other: string)
    ensures Values(Insert(hash, key, value), key) == [value] + Values(hash, key)
    ensures other != key ==> Values(Insert(hash, key, value), other) == Values(hash, other)
    ensures other != key ==> Values(Remove(hash, key, value), other) == Values(hash, other)
  {
    assert Insert(hash, key, value)[1..] == hash;
    if hash != [] {
      NewestFirst(hash[1..], key, value, other);
    }
  }

  /** Every value with an address is in the hash, under that address, and nothing else is. */
  ghost predicate Filed<V>(hash: seq<Entry<V>>, address: map<V, string>) {
    && (forall e <- hash :: e.value in address && address[e.value] == e.key)
    && (forall v <- address :: Entry(address[v], v) in hash)
  }

  /** No value is in the hash twice. */
  ghost predicate Once<V>(hash: seq<Entry<V>>) {
    forall i, j :: 0 <= i < j < |hash| ==> hash[i].value != hash[j].value
  }

  lemma {:induction false} FiledInsert<V>(hash: seq<Entry<V>>, address: map<V, string>, key: string, value: V)
    requires Filed(hash, address) && (value in address ==> address[value] == key)
    ensures Filed(Insert(hash, key, value), address[value := key])
    ensures Once(hash) && value !in address ==> Once(Insert(hash, key, value))
  {
  }

  lemma {:induction false} OnceRemoved<V>(hash: seq<Entry<V>>, key: string, value: V)
    requires Once(hash)
    ensures Once(Remove(hash, key, value))
  {
    if hash != [] {
      OnceRemoved(hash[1..], key, value);
      var rest := Remove(hash[1..], key, value);
      forall j | 0 <= j < |rest| ensures rest[j].value != hash[0].value {
        RemoveKeepsTheOthers(hash[1..], key, value, rest[j]);
      }
    }
  }

  lemma {:induction false} FiledRemove<V>(hash: seq<Entry<V>>, address: map<V, string>, value: V)
    requires Filed(hash, address) && value in address
    ensures Filed(Remove(hash, address[value], value), address - {value})
    ensures Once(hash) ==> Once(Remove(hash, address[value], value))
  {
    if Once(hash) {
      OnceRemoved(hash, address[value], value);
    }
    var rest, left := Remove(hash, address[value], value), address - {value};
    forall e <- rest ensures e.value in left && left[e.value] == e.key {
      RemoveKeepsTheOthers(hash, address[value], value, e);
      assert e == Entry(e.key, e.value);
    }
    forall v <- left ensures Entry(left[v], v) in rest {
      RemoveKeepsTheOthers(hash, address[value], value, Entry(left[v], v));
    }
  }

  lemma {:induction false} RemoveAbsent<V>(hash: seq<Entry<V>>, key: string, value: V)
    requires Entry(key, value) !in hash
    ensures Remove(hash, key, value) == hash
  {
    if hash != [] {
      assert forall e <- hash[1..] :: e in hash;
      RemoveAbsent(hash[1..], key, value);
    }
  }

  /** An address change: remove under the old address, insert under the new one. */
  lemma {:induction false} FiledMove<V>(
      hash: seq<Entry<V>>, address: map<V, string>, before: string, after: string, value: V)
    requires Filed(hash, address) && (value in address ==> address[value] == before)
    ensures Filed(Insert(Remove(hash, before, value), after, value), address[value := after])
    ensures Once(hash) ==> Once(Insert(Remove(hash, before, value), after, value))
  {
    hide Once, Insert, Remove;
    if value in address {
      FiledRemove(hash, address, value);
      FiledInsert(Remove(hash, before, value), address - {value}, after, value);
      assert (address - {value})[value := after] == address[value := after];
    } else {
      RemoveAbsent(hash, before, value);
      FiledInsert(hash, address, after, value);
    }
  }

  lemma {:induction false} FiledDrop<V>(hash: seq<Entry<V>>, address: map<V, string>, before: string, value: V)
    requires Filed(hash, address) && (value in address ==> address[value] == before)
    ensures Filed(Remove(hash, before, value), address - {value})
    ensures Once(hash) ==> Once(Remove(hash, before, value))
  {
    if value in address {
      FiledRemove(hash, address, value);
    } else {
      RemoveAbsent(hash, before, value);
      assert address - {value} == address;
    }
  }

  // ---------------------------------------------------------------- sessions

  datatype Message = Message(from: J.Jid, thread: string, body: string, subtype: nat)

  /** trimmed().isEmpty() */
  predicate Blank(s: string) {
    forall i :: 0 <= i < |s| ==> IsSpace(s[i])
  }

  class MessageSession {
    const manager: MessageSessionManager
    const ignoreThread: bool
    var jid: J.Jid
    var thread: string
    var wantUpgrade: bool
    var alive: bool                // what a QPointer to this session can tell

    constructor (manager: MessageSessionManager, jid: J.Jid, ignoreThread: bool, thread: string)
      requires manager.Valid()
      modifies manager`fullSessions, manager`bareSessions, manager`fullOf, manager`bareOf, manager`singly
      ensures manager.Valid() && alive && !wantUpgrade && manager.singly == old(manager.singly)
      ensures this.manager == manager && this.jid == jid && this.ignoreThread == ignoreThread && this.thread == thread
      ensures manager.fullOf == if jid.valid then old(manager.fullOf)[this := jid.full] else old(manager.fullOf)
      ensures manager.bareOf == if jid.valid then old(manager.bareOf)[this := jid.bare] else old(manager.bareOf)
    {
      this.manager, this.jid, this.ignoreThread, this.wantUpgrade := manager, jid, ignoreThread, false;
      this.thread, this.alive := "", true;
      new;
      manager.RegisterMessageSession(this);
      this.thread := thread;
    }

    /** The destructor. */
    method Destroy()
      requires manager.Valid() && alive
      modifies `alive, manager`fullSessions, manager`bareSessions, manager`fullOf, manager`bareOf
      ensures manager.Valid() && !alive
      ensures manager.fullOf == old(manager.fullOf) - {this} && manager.bareOf == old(manager.bareOf) - {this}
    {
      manager.Unfile(this);
      alive := false;
    }

    method SetJid(jid: J.Jid)
      requires manager.Valid() && alive
      modifies `jid, manager`fullSessions, manager`bareSessions, manager`fullOf, manager`bareOf
      ensures manager.Valid() && this.jid.full == jid.full
      ensures this.jid == if old(this.jid.full) == jid.full then old(this.jid) else jid
      ensures old(this.jid.full) == jid.full ==>
                manager.fullOf == old(manager.fullOf) && manager.bareOf == old(manager.bareOf)
      ensures old(this.jid.full) != jid.full ==>
                && manager.fullOf == old(manager.fullOf)[this := jid.full]
                && manager.bareOf == old(manager.bareOf)[this := jid.bare]
    {
      if this.jid.full != jid.full {
        manager.Refile(this, jid);
        this.jid := jid;
      }
    }

    /** Forget the resource until the next message upgrades the address again. */
    method ResetResource()
      requires manager.Valid() && alive
      modifies `jid, `wantUpgrade, manager`fullSessions, manager`bareSessions, manager`fullOf, manager`bareOf
      ensures manager.Valid() && wantUpgrade && jid.full == J.BareJid(old(jid)).full
      ensures old(jid.valid && jid.resource != "") ==> jid.full == old(jid.bare)
    {
      wantUpgrade := true;
      SetJid(J.BareJid(jid));
    }

    predicate Accepts(thread: string)
      reads this
    {
      thread == "" || ignoreThread || this.thread == thread
    }

    /** The address a message from a resource gives to a session that waits for one. */
    method Upgrade(from: J.Jid)
      requires manager.Valid() && alive
      modifies `jid, manager`fullSessions, manager`bareSessions, manager`fullOf, manager`bareOf
      ensures manager.Valid()
      ensures var filed := this in old(manager.fullOf) || jid.full != old(jid.full);
              && manager.fullOf == (if filed then old(manager.fullOf)[this := jid.full] else old(manager.fullOf))
              && manager.bareOf == (if filed then old(manager.bareOf)[this := jid.bare] else old(manager.bareOf))
      ensures jid == if wantUpgrade && from.bare == old(jid.full) && from.full != old(jid.full) then from else old(jid)
    {
      if wantUpgrade && from.bare == jid.full {
        SetJid(from);
      }
    }

    /** The session's thread, and the thread of the message as it is passed on. */
    method TakeThread(given: string, random: string) returns (thread: string)
      modifies `thread
      ensures thread == if old(this.thread) == "" && Blank(given) then random else given
      ensures this.thread == if old(this.thread) == "" then thread else old(this.thread)
    {
      thread := given;
      if this.thread == "" {
        if Blank(given) {
          this.thread := random;
          thread := random;
        } else {
          this.thread := given;
        }
      }
    }

    /** The session's own part of a message; random is the next random hash. */
    method HandleMessage(message: Message, random: string) returns (thread: string)
      requires manager.Valid() && alive
      modifies `jid, `thread, manager`fullSessions, manager`bareSessions, manager`fullOf, manager`bareOf
      ensures manager.Valid()
      ensures var filed := this in old(manager.fullOf) || jid.full != old(jid.full);
              && manager.fullOf == (if filed then old(manager.fullOf)[this := jid.full] else old(manager.fullOf))
              && manager.bareOf == (if filed then old(manager.bareOf)[this := jid.bare] else old(manager.bareOf))
      ensures jid == if wantUpgrade && message.from.bare == old(jid.full) && message.from.full != old(jid.full)
                     then message.from else old(jid)
      ensures var blank := forall i :: 0 <= i < |message.thread| ==>
                             message.thread[i] == ' ' || 9 <= message.thread[i] as int <= 13;
              thread == if old(this.thread) == "" && blank then random else message.thread
      ensures this.thread == if old(this.thread) == "" then thread else old(this.thread)
    {
      hide MessageSessionManager.HashesAgree, MessageSessionManager.AddressesAgree;
      Upgrade(message.from);
      thread := TakeThread(message.thread, random);
    }
  }

  datatype Outcome = Delivered(session: MessageSession) | Created(session: MessageSession) | Unhandled

  class MessageSessionManager {
    var fullSessions: seq<Entry<MessageSession>>
    var bareSessions: seq<Entry<MessageSession>>
    var sessionHandlers: set<nat>              // the message types with a handler
    ghost var fullOf: map<MessageSession, string>    // the registered sessions and their addresses
    ghost var bareOf: map<MessageSession, string>
    ghost var singly: bool                     // no session has been registered twice

    /** Each hash holds the registered sessions, each under its address, and once unless one has been
        registered twice. */
    ghost predicate HashesAgree()
      reads this
    {
      && fullOf.Keys == bareOf.Keys && Filed(fullSessions, fullOf) && Filed(bareSessions, bareOf)
      && (singly ==> Once(fullSessions) && Once(bareSessions))
    }

    /** The address of a registered session is its current one, and the session is alive. */
    ghost predicate AddressesAgree()
      reads this, fullOf.Keys`jid, fullOf.Keys`alive
      requires fullOf.Keys == bareOf.Keys
    {
      forall s <- fullOf.Keys :: s.alive && s.manager == this && fullOf[s] == s.jid.full && bareOf[s] == s.jid.bare
    }

    ghost predicate Valid()
      reads this, fullOf.Keys`jid, fullOf.Keys`alive
    {
      HashesAgree() && AddressesAgree()
    }

    constructor ()
      ensures Valid() && fullOf == map[] && sessionHandlers == {} && singly
    {
      singly := true;
      fullSessions, bareSessions, sessionHandlers, fullOf, bareOf := [], [], {}, map[], map[];
    }

    method RegisterMessageSession(session: MessageSession)
      requires Valid() && session.alive && session.manager == this
      modifies `fullSessions, `bareSessions, `fullOf, `bareOf, `singly
      ensures Valid() && singly == (old(singly) && (session.jid.valid ==> session !in old(fullOf)))
      ensures fullOf == if session.jid.valid then old(fullOf)[session := session.jid.full] else old(fullOf)
      ensures bareOf == if session.jid.valid then old(bareOf)[session := session.jid.bare] else old(bareOf)
    {
      hide Filed, Once;
      if !session.jid.valid {
        return;
      }
      FiledInsert(fullSessions, fullOf, session.jid.full, session);
      FiledInsert(bareSessions, bareOf, session.jid.bare, session);
      bareSessions := Insert(bareSessions, session.jid.bare, session);
      fullSessions := Insert(fullSessions, session.jid.full, session);
      singly := singly && session !in fullOf;
      fullOf := fullOf[session := session.jid.full];
      bareOf := bareOf[session := session.jid.bare];
    }

    /** The removals of the destructor. */
    method Unfile(session: MessageSession)
      requires Valid()
      modifies `fullSessions, `bareSessions, `fullOf, `bareOf
      ensures HashesAgree() && fullOf == old(fullOf) - {session} && bareOf == old(bareOf) - {session}
    {
      hide Filed, Once;
      FiledDrop(fullSessions, fullOf, session.jid.full, session);
      FiledDrop(bareSessions, bareOf, session.jid.bare, session);
      fullSessions := Remove(fullSessions, session.jid.full, session);
      bareSessions := Remove(bareSessions, session.jid.bare, session);
      fullOf := fullOf - {session};
      bareOf := bareOf - {session};
    }

    /** The removals and insertions of an address change. */
    method Refile(session: MessageSession, jid: J.Jid)
      requires Valid()
      modifies `fullSessions, `bareSessions, `fullOf, `bareOf
      ensures HashesAgree() && fullOf == old(fullOf)[session := jid.full] && bareOf == old(bareOf)[session := jid.bare]
    {
      hide Filed, Once;
      FiledMove(fullSessions, fullOf, session.jid.full, jid.full, session);
      FiledMove(bareSessions, bareOf, session.jid.bare, jid.bare, session);
      fullSessions := Remove(fullSessions, session.jid.full, session);
      bareSessions := Remove(bareSessions, session.jid.bare, session);
      fullSessions := Insert(fullSessions, jid.full, session);
      bareSessions := Insert(bareSessions, jid.bare, session);
      fullOf := fullOf[session := jid.full];
      bareOf := bareOf[session := jid.bare];
    }

    /** The loop over the values of a key: the newest session that takes the thread. No session found
        there is destroyed, so nothing is ever cleaned up. */
    method Find(hash: seq<Entry<MessageSession>>, key: string, thread: string) returns (found: Option<MessageSession>)
      requires forall e <- hash :: e.value.alive
      ensures found.Some? ==> Entry(key, found.value) in hash && found.value.Accepts(thread)
      ensures found.None? ==> forall e <- hash :: e.key == key ==> !e.value.Accepts(thread)
      ensures found.Some? ==> Newest(Values(hash, key), thread, found.value)
      ensures found.Some? ==> thread == "" || found.value.ignoreThread || found.value.thread == thread
      ensures found.None? ==> forall e <- hash :: e.key == key ==>
                                !(thread == "" || e.value.ignoreThread || e.value.thread == thread)
    {
      hide Values;
      var sessions := Values(hash, key);
      for i := 0 to |sessions|
        invariant forall j :: 0 <= j < i ==> !sessions[j].Accepts(thread)
      {
        ValuesAreFiled(hash, key, sessions[i]);
        if !sessions[i].alive {
          assert false;
        }
        if sessions[i].Accepts(thread) {
          return Some(sessions[i]);
        }
      }
      forall e <- hash | e.key == key ensures !e.value.Accepts(thread) {
        assert e == Entry(key, e.value);
        ValuesAreFiled(hash, key, e.value);
      }
      return None;
    }

    /** The session is the newest of these that takes the thread. */
    static ghost predicate Newest(sessions: seq<MessageSession>, thread: string, session: MessageSession)
      reads sessions
    {
      exists i :: 0 <= i < |sessions| && sessions[i] == session && session.Accepts(thread)
                  && forall j :: 0 <= j < i ==> !sessions[j].Accepts(thread)
    }

    /** session: the newest session with this full address, else a new one that a handler of this type
        accepts. The new session's address is parsed from the full text of the address. */
    method Session(jid: J.Jid, subtype: nat, create: bool, prep: J.Prep) returns (session: Option<MessageSession>)
      requires Valid()
      modifies `fullSessions, `bareSessions, `fullOf, `bareOf, `singly
      ensures Valid() && singly == old(singly)
      ensures session.Some? && session.value in old(fullOf) ==>
                fullOf == old(fullOf) && fullOf[session.value] == jid.full
      ensures session.Some? && session.value !in old(fullOf) ==>
                && fresh(session.value) && session.value.jid == J.Parse(jid.full, prep)
                && create && subtype in sessionHandlers
                && ( J.GoodPrep(prep) && J.Canonical(jid, prep) && J.Unambiguous(jid) ==>
                       session.value in fullOf && fullOf[session.value] == jid.full)
      ensures session.None? || session.value !in old(fullOf) ==> jid.full !in old(fullOf).Values
      ensures session.None? ==> fullOf == old(fullOf) && !(create && subtype in sessionHandlers)
    {
      var sessions := Values(fullSessions, jid.full);
      if sessions != [] {
        ValuesAreFiled(fullSessions, jid.full, sessions[0]);
        if !sessions[0].alive {
          assert false;
        }
        return Some(sessions[0]);
      }
      if jid.full in fullOf.Values {
        ghost var s :| s in fullOf && fullOf[s] == jid.full;
        ValuesAreFiled(fullSessions, jid.full, s);
        assert false;
      }
      if !create || subtype !in sessionHandlers {
        return None;
      }
      if J.GoodPrep(prep) && J.Canonical(jid, prep) {
        J.FullTextRoundTrips(jid, prep);
      }
      var started := new MessageSession(this, J.Parse(jid.full, prep), false, "");
      return Some(started);
    }

    /** The registered sessions with the sender's full address that take the message. */
    ghost predicate TakesByFull(message: Message, session: MessageSession)
      reads this, session
    {
      session in fullOf && fullOf[session] == message.from.full && session.Accepts(message.thread)
    }

    ghost predicate TakesByBare(message: Message, session: MessageSession)
      reads this, session
    {
      session in bareOf && bareOf[session] == message.from.bare && session.Accepts(message.thread)
    }

    /** The session a message belongs to: the newest that takes it by its full address, or, when there is
        none, the newest that takes it by its bare address. */
    ghost predicate Recipient(message: Message, session: MessageSession)
      reads this, fullOf.Keys, session, Values(fullSessions, message.from.full), Values(bareSessions, message.from.bare)
    {
      if exists s <- fullOf :: TakesByFull(message, s) then
        TakesByFull(message, session) && Newest(Values(fullSessions, message.from.full), message.thread, session)
      else
        TakesByBare(message, session) && Newest(Values(bareSessions, message.from.bare), message.thread, session)
    }

    ghost predicate NobodyTakes(message: Message)
      reads this, fullOf.Keys, bareOf.Keys
    {
      (forall s <- fullOf :: !TakesByFull(message, s)) && (forall s <- bareOf :: !TakesByBare(message, s))
    }

    lemma KnownValues(message: Message)
      requires Valid()
      ensures forall s <- Values(fullSessions, message.from.full) :: s in fullOf
      ensures forall s <- Values(bareSessions, message.from.bare) :: s in fullOf
    {
      hide Values;
      forall s <- Values(fullSessions, message.from.full) ensures s in fullOf {
        ValuesAreFiled(fullSessions, message.from.full, s);
      }
      forall s <- Values(bareSessions, message.from.bare) ensures s in fullOf {
        ValuesAreFiled(bareSessions, message.from.bare, s);
      }
    }

    /** The two loops of handleMessage. */
    method Route(message: Message) returns (found: Option<MessageSession>)
      requires Valid()
      ensures found.Some? ==> found.value in fullOf && Recipient(message, found.value)
      ensures found.None? ==> NobodyTakes(message)
      ensures found.None? ==> forall s <- fullOf ::
                fullOf[s] == message.from.full || bareOf[s] == message.from.bare ==>
                  message.thread != "" && !s.ignoreThread && s.thread != message.thread
    {
      hide Newest;
      found := Find(fullSessions, message.from.full, message.thread);
      if found.Some? {
        assert TakesByFull(message, found.value);
        return;
      }
      assert forall s <- fullOf :: !TakesByFull(message, s);
      found := Find(bareSessions, message.from.bare, message.thread);
      if found.None? {
        forall s <- fullOf | fullOf[s] == message.from.full || bareOf[s] == message.from.bare
          ensures message.thread != "" && !s.ignoreThread && s.thread != message.thread
        {
          assert !TakesByFull(message, s) && !TakesByBare(message, s);
        }
      }
    }

    /** Looking for the recipient does not change who it is. */
    method FindRecipient(message: Message) returns (found: Option<MessageSession>)
      requires Valid()
      ensures found.Some? ==> found.value in old(fullOf) && old(Recipient(message, found.value))
      ensures found.None? ==> old(NobodyTakes(message))
      ensures found.Some? ==> var s := found.value;
                && (old(fullOf)[s] == message.from.full || old(bareOf)[s] == message.from.bare)
                && (message.thread == "" || s.ignoreThread || old(s.thread) == message.thread)
      ensures found.None? ==> forall s <- old(fullOf) ::
                old(fullOf)[s] == message.from.full || old(bareOf)[s] == message.from.bare ==>
                  message.thread != "" && !s.ignoreThread && old(s.thread) != message.thread
    {
      hide Newest, HashesAgree;
      KnownValues(message);
      found := Route(message);
      assert forall s <- fullOf :: s.thread == old(s.thread);
      if found.Some? {
        ghost var full, bare := Values(fullSessions, message.from.full), Values(bareSessions, message.from.bare);
        assert forall s <- fullOf :: TakesByFull(message, s) == old(TakesByFull(message, s));
        assert Newest(full, message.thread, found.value) == old(Newest(full, message.thread, found.value));
        assert Newest(bare, message.thread, found.value) == old(Newest(bare, message.thread, found.value));
      }
    }

    /** An incoming message goes to its recipient, else to a new session, else to nobody. */
    method HandleMessage(message: Message, random: string) returns (outcome: Outcome)
      requires Valid()
      modifies this, fullOf.Keys
      ensures Valid() && singly == old(singly)
      ensures outcome.Delivered? ==> outcome.session in old(fullOf) && old(Recipient(message, outcome.session))
      ensures !outcome.Delivered? ==> old(NobodyTakes(message))
      ensures outcome.Delivered? ==> var s := outcome.session;
                && (old(fullOf)[s] == message.from.full || old(bareOf)[s] == message.from.bare)
                && (message.thread == "" || s.ignoreThread || old(s.thread) == message.thread)
      ensures (exists s <- old(fullOf) ::
                && (old(fullOf)[s] == message.from.full || old(bareOf)[s] == message.from.bare)
                && (message.thread == "" || s.ignoreThread || old(s.thread) == message.thread)) ==> outcome.Delivered?
      ensures outcome.Created? <==> !outcome.Delivered? && message.subtype in sessionHandlers
      ensures outcome.Created? ==>
                && fresh(outcome.session) && outcome.session.jid == message.from && !outcome.session.ignoreThread
                && outcome.session.thread == (if message.thread == "" then random else message.thread)
      ensures outcome.Unhandled? ==> fullOf == old(fullOf) && bareOf == old(bareOf)
      ensures outcome.Created? ==> var filed := message.from.valid;
                && fullOf == (if filed then old(fullOf)[outcome.session := message.from.full] else old(fullOf))
                && bareOf == (if filed then old(bareOf)[outcome.session := message.from.bare] else old(bareOf))
      ensures outcome.Delivered? ==>
                && fullOf == old(fullOf)[outcome.session := outcome.session.jid.full]
                && bareOf == old(bareOf)[outcome.session := outcome.session.jid.bare]
      ensures outcome.Delivered? ==> var session := outcome.session;
                var upgrade := session.wantUpgrade && message.from.bare == old(session.jid.full) != message.from.full;
                session.jid == if upgrade then message.from else old(session.jid)
      ensures forall s <- old(fullOf) :: outcome != Delivered(s) ==> unchanged(s)
    {
      hide Recipient, NobodyTakes, HashesAgree;
      var found := FindRecipient(message);
      if found.Some? {
        var thread := found.value.HandleMessage(message, random);
        return Delivered(found.value);
      }
      if message.subtype !in sessionHandlers {
        return Unhandled;
      }
      var started := new MessageSession(this, message.from, false, message.thread);
      var thread := started.HandleMessage(message, random);
      return Created(started);
    }
  }
}
