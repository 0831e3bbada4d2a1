/**
 The BOSH transport (ConnectionBOSH, XEP-0124): request ids, the hash-chain key sequence of
 section 15 with its switch-over to a new chain, the one-slot data channel with its backlog, and
 the empty request kept open so that the server can push.
 The hash is an arbitrary function, and the seeds are arbitrary. Only replies without a network
 error are modelled.
 */
module Bosh {
  import opened Wrappers

  type Key = string
  const RID_RANGE := 0x1_0000_0000_0000_0000   // quint64

  /** A request as the server sees it. */
  datatype Request = Request(
    rid: int, opening: bool, sid: string,
    key: Option<Key>, newkey: Option<Key>,
    empty: bool, body: string)

  /** The connection. Requests are named by their position in `sent`. */
  datatype Session = Session(
    rid: int, keyNum: nat, keys: seq<Key>,
    sessionId: string, streamInitiation: bool, authorized: bool,
    payloads: string,
    dataRequest: Option<nat>, emptyRequest: Option<nat>,
    inFlight: set<nat>,
    sent: seq<Request>,
    written: string)

  const NEW := Session(0, 20, [], "", false, false, "", None, None, {}, [], "")

  // ---------------------------------------------------------------- the steps as functions

  /** The chain h(seed), h(h(seed)), ... of length n. */
  function Chain(hash: Key -> Key, seed: Key, n: nat): (keys: seq<Key>)
    ensures |keys| == n
    decreases n
  {
    if n == 0 then [] else [hash(seed)] + Chain(hash, hash(seed), n - 1)
  }

  function Last(keys: seq<Key>): Key
    requires keys != []
  {
    keys[|keys| - 1]
  }

  /** Append a request with the next rid and put it into its slot. */
  function Post(s: Session, r: Request, keys: seq<Key>): Session {
    var id := |s.sent|;
    s.(rid := (s.rid + 1) % RID_RANGE, keys := keys, sent := s.sent + [r], inFlight := s.inFlight + {id},
       dataRequest := if r.empty then s.dataRequest else Some(id),
       emptyRequest := if r.empty then Some(id) else s.emptyRequest)
  }

  function HeaderSent(s: Session, hash: Key -> Key, first: bool, seed: Key): Session
    requires first || s.keys != []
    requires s.keyNum > 0
  {
    var key := if first then None else Some(Last(s.keys));
    var keys := Chain(hash, seed, s.keyNum);
    Post(s.(streamInitiation := first),
         Request(s.rid, first, if first then "" else s.sessionId, key, Some(hash(Last(keys))), false, ""), keys)
  }

  function DataWritten(s: Session, hash: Key -> Key, data: string, seed: Key): Session
    requires s.keys != [] && s.keyNum > 0
  {
    if s.dataRequest.Some? && data != "" then s.(payloads := s.payloads + data)
    else
      var rest := s.keys[..|s.keys| - 1];
      var fresh' := Chain(hash, seed, s.keyNum);
      if |rest| == 1 then
        Post(s,
             Request(s.rid, false, s.sessionId, Some(Last(s.keys)), Some(hash(Last(fresh'))), data == "", data),
             fresh')
      else
        Post(s, Request(s.rid, false, s.sessionId, Some(Last(s.keys)), None, data == "", data), rest)
  }

  /** What the client may ask of the connection. `rid`, `random` and `seed` are what the random
      sources return. */
  datatype Op =
    | Open(rid: int, random: nat, seed: Key)
    | Write(data: string, seed: Key)
    | Restart(seed: Key)
    | Authorize(seed: Key)

  predicate Legal(s: Session, op: Op) {
    if op.Open? then 0 <= op.rid < RID_RANGE else s.keys != [] && s.keyNum > 0
  }

  function Apply(s: Session, hash: Key -> Key, op: Op): Session
    requires Legal(s, op)
  {
    match op
    case Open(rid, random, seed) =>
      HeaderSent(s.(rid := rid, keyNum := random % 30 + 20), hash, true, seed).(authorized := false)
    case Write(data, seed) => DataWritten(s.(written := s.written + data), hash, data, seed)
    case Restart(seed) => HeaderSent(s, hash, false, seed)
    case Authorize(seed) => DataWritten(s.(authorized := true), hash, "", seed)
  }

  /** The part of onRequestFinished that reads the reply up to the stream parser. */
  function Receive(s: Session, id: nat, sid: string): Session {
    var s' := s.(inFlight := s.inFlight - {id});
    if s.streamInitiation then s'.(streamInitiation := false, sessionId := sid) else s'
  }

  /** The part of onRequestFinished behind the parse loop. */
  function Settle(s: Session, hash: Key -> Key, id: nat, seed: Key): Session
    requires s.keys != [] && s.keyNum > 0
  {
    if s.payloads != "" && s.dataRequest == Some(id) then
      DataWritten(s.(dataRequest := None), hash, s.payloads, seed).(payloads := "")
    else
      var s' := s.(dataRequest := if s.dataRequest == Some(id) then None else s.dataRequest,
                   emptyRequest := if s.emptyRequest == Some(id) then None else s.emptyRequest);
      if s'.authorized && s'.emptyRequest.None? then DataWritten(s', hash, "", seed) else s'
  }

  // ---------------------------------------------------------------- the class

  class ConnectionBosh {
    const hash: Key -> Key
    var rid: int
    var keyNum: nat
    var keys: seq<Key>
    var sessionId: string
    var streamInitiation: bool
    var authorized: bool
    var payloads: string
    var dataRequest: Option<nat>
    var emptyRequest: Option<nat>
    var inFlight: set<nat>
    var sent: seq<Request>
    ghost var written: string

    ghost function Abs(): Session
      reads this
    {
      Session(rid, keyNum, keys, sessionId, streamInitiation, authorized, payloads,
              dataRequest, emptyRequest, inFlight, sent, written)
    }

    constructor (hash: Key -> Key)
      ensures Abs() == NEW && this.hash == hash
    {
      this.hash := hash;
      rid, keyNum, keys, sessionId, streamInitiation, authorized := 0, 20, [], "", false, false;
      payloads, dataRequest, emptyRequest, inFlight, sent, written := "", None, None, {}, [], "";
    }

    method GenerateKey(randomHash: Key) returns (newkey: Key)
      requires keyNum > 0
      modifies `keys
      ensures keys == Chain(hash, randomHash, keyNum) && newkey == hash(Last(keys))
    {
      var seed := randomHash;
      keys := [];
      for i := 0 to keyNum
        invariant |keys| == i && keys + Chain(hash, seed, keyNum - i) == Chain(hash, randomHash, keyNum)
        invariant i > 0 ==> seed == Last(keys)
      {
        ghost var rest := Chain(hash, hash(seed), keyNum - i - 1);
        assert keys + ([hash(seed)] + rest) == keys + [hash(seed)] + rest;
        seed := hash(seed);
        keys := keys + [seed];
      }
      assert keys + [] == keys;
      return hash(seed);
    }

    method NextKey() returns (key: Key)
      requires keys != []
      modifies `keys
      ensures key == Last(old(keys)) && keys == old(keys)[..|old(keys)| - 1]
    {
      key := keys[|keys| - 1];
      keys := keys[..|keys| - 1];
    }

    method Send(request: Request)
      modifies `sent, `inFlight, `dataRequest, `emptyRequest
      ensures sent == old(sent) + [request] && inFlight == old(inFlight) + {|old(sent)|}
      ensures dataRequest == if request.empty then old(dataRequest) else Some(|old(sent)|)
      ensures emptyRequest == if request.empty then Some(|old(sent)|) else old(emptyRequest)
    {
      var reply := |sent|;
      sent := sent + [request];
      inFlight := inFlight + {reply};
      if request.empty {
        emptyRequest := Some(reply);
      } else {
        dataRequest := Some(reply);
      }
    }

    method SendHeader(first: bool, seed: Key)
      requires first || keys != []
      requires keyNum > 0
      modifies this
      ensures Abs() == HeaderSent(old(Abs()), hash, first, seed)
    {
      hide Chain, Last;
      streamInitiation := first;
      var r := rid;
      rid := (rid + 1) % RID_RANGE;
      var key := None;
      var sid := "";
      if !first {
        var k := NextKey();
        key, sid := Some(k), sessionId;
      }
      var newkey := GenerateKey(seed);
      Send(Request(r, first, sid, key, Some(newkey), false, ""));
    }

    method WriteData(data: string, seed: Key)
      requires keys != [] && keyNum > 0
      modifies this
      ensures Abs() == DataWritten(old(Abs()), hash, data, seed)
    {
      hide Chain, Last;
      if dataRequest.Some? && |data| > 0 {
        payloads := payloads + data;
        return;
      }
      var isEmpty := |data| == 0;
      var r := rid;
      rid := (rid + 1) % RID_RANGE;
      var key := NextKey();
      var newkey := None;
      if |keys| == 1 {
        var k := GenerateKey(seed);
        newkey := Some(k);
      }
      Send(Request(r, false, sessionId, Some(key), newkey, isEmpty, data));
    }

    /** open, write, restartStream and authorized. */
    method Call(op: Op)
      requires Legal(Abs(), op)
      modifies this
      ensures Abs() == Apply(old(Abs()), hash, op)
    {
      match op
      case Open(rid', random, seed) =>
        rid := rid';
        keyNum := random % 30 + 20;
        SendHeader(true, seed);
        authorized := false;
      case Write(data, seed) =>
        written := written + data;
        WriteData(data, seed);
      case Restart(seed) =>
        SendHeader(false, seed);
      case Authorize(seed) =>
        authorized := true;
        WriteData("", seed);
    }

    /** The start of reply handling. */
    method Begin(reply: nat, sid: string)
      modifies this
      ensures Abs() == Receive(old(Abs()), reply, sid)
    {
      inFlight := inFlight - {reply};
      if streamInitiation {
        streamInitiation := false;
        sessionId := sid;
      }
    }

    /** The calls that the stream parser's callbacks make, one after the other. */
    method CallAll(ops: seq<Op>)
      requires LegalAll(Abs(), hash, ops)
      modifies this
      ensures Abs() == ApplyAll(old(Abs()), hash, ops)
    {
      hide Legal, Apply;
      ghost var end := ApplyAll(Abs(), hash, ops);
      assert ops[0..] == ops;
      for i := 0 to |ops|
        invariant LegalAll(Abs(), hash, ops[i..]) && ApplyAll(Abs(), hash, ops[i..]) == end
      {
        assert ops[i..][0] == ops[i] && ops[i..][1..] == ops[i + 1..];
        Call(ops[i]);
      }
      assert ops[|ops|..] == [];
    }

    /** A reply without error; `nested` is what the stream parser makes the client do meanwhile. */
    method OnRequestFinished(reply: nat, sid: string, nested: seq<Op>, seed: Key)
      requires LegalAll(Receive(Abs(), reply, sid), hash, nested)
      requires ApplyAll(Receive(Abs(), reply, sid), hash, nested).keys != []
      requires ApplyAll(Receive(Abs(), reply, sid), hash, nested).keyNum > 0
      modifies this
      ensures Abs() == Settle(ApplyAll(Receive(old(Abs()), reply, sid), hash, nested), hash, reply, seed)
    {
      hide Receive, ApplyAll, LegalAll, DataWritten;
      Begin(reply, sid);
      CallAll(nested);
      if payloads != "" && dataRequest == Some(reply) {
        dataRequest := None;
        WriteData(payloads, seed);
        payloads := "";
        return;
      } else if dataRequest == Some(reply) {
        dataRequest := None;
      }
      if emptyRequest == Some(reply) {
        emptyRequest := None;
      }
      if authorized && emptyRequest.None? {
        WriteData("", seed);
      }
    }
  }

  predicate LegalAll(s: Session, hash: Key -> Key, ops: seq<Op>)
    decreases |ops|
  {
    ops != [] ==> Legal(s, ops[0]) && LegalAll(Apply(s, hash, ops[0]), hash, ops[1..])
  }

  function ApplyAll(s: Session, hash: Key -> Key, ops: seq<Op>): Session
    requires LegalAll(s, hash, ops)
    decreases |ops|
  {
    if ops == [] then s else ApplyAll(Apply(s, hash, ops[0]), hash, ops[1..])
  }

  // ---------------------------------------------------------------- the invariant

  /** What the next key must hash to: the newkey of a request or, without one, its key. */
  function Token(r: Request): Key {
    if r.newkey.Some? then r.newkey.value else if r.key.Some? then r.key.value else ""
  }

  /** Behind a request with a key: its key hashes to the token of its predecessor, and its rid is
      the next one. */
  predicate Follows(hash: Key -> Key, prev: Request, r: Request) {
    r.opening || (r.key.Some? && hash(r.key.value) == Token(prev) && r.rid == (prev.rid + 1) % RID_RANGE)
  }

  predicate ChainOfRequests(hash: Key -> Key, sent: seq<Request>) {
    forall i :: 0 < i < |sent| ==> Follows(hash, sent[i - 1], sent[i])
  }

  /** The keys not used yet form a chain that ends in one that hashes to `token`. */
  predicate Linked(hash: Key -> Key, keys: seq<Key>, token: Key) {
    && keys != [] && hash(Last(keys)) == token
    && forall i :: 0 < i < |keys| ==> keys[i] == hash(keys[i - 1])
  }

  function Bodies(sent: seq<Request>): string {
    if sent == [] then "" else Bodies(sent[..|sent| - 1]) + sent[|sent| - 1].body
  }

  predicate KeysOk(hash: Key -> Key, s: Session) {
    && s.sent != [] && s.sent[0].opening && 20 <= s.keyNum < 50
    && 0 <= s.rid < RID_RANGE && s.rid == (s.sent[|s.sent| - 1].rid + 1) % RID_RANGE
    && |s.keys| >= 2 && Linked(hash, s.keys, Token(s.sent[|s.sent| - 1]))
    && ChainOfRequests(hash, s.sent)
  }

  predicate PayloadOk(s: Session) {
    Bodies(s.sent) + s.payloads == s.written && (s.payloads != "" ==> s.dataRequest.Some?)
  }

  /** A slot holds a request of its kind that is in flight, or whose reply is being handled. */
  predicate SlotOk(s: Session, slot: Option<nat>, empty: bool, handled: set<nat>) {
    slot.Some? ==> slot.value < |s.sent| && s.sent[slot.value].empty == empty && slot.value in s.inFlight + handled
  }

  predicate SlotsOk(s: Session, handled: set<nat>) {
    && (forall id :: id in s.inFlight ==> id < |s.sent|)
    && SlotOk(s, s.dataRequest, false, handled) && SlotOk(s, s.emptyRequest, true, handled)
    && (s.authorized ==> s.emptyRequest.Some?)
  }

  predicate Inv(hash: Key -> Key, s: Session, handled: set<nat>) {
    KeysOk(hash, s) && PayloadOk(s) && SlotsOk(s, handled)
  }

  lemma {:induction false} ChainIsLinked(hash: Key -> Key, seed: Key, n: nat)
    requires n > 0
    ensures Linked(hash, Chain(hash, seed, n), hash(Last(Chain(hash, seed, n))))
    ensures Chain(hash, seed, n)[0] == hash(seed)
    decreases n
  {
    if n > 1 {
      ChainIsLinked(hash, hash(seed), n - 1);
      var keys, rest := Chain(hash, seed, n), Chain(hash, hash(seed), n - 1);
      forall i | 0 < i < |keys| ensures keys[i] == hash(keys[i - 1]) {
        assert keys[i] == rest[i - 1];
        if i > 1 {
          assert keys[i - 1] == rest[i - 2];
        }
      }
    }
  }

  lemma BodiesAppend(sent: seq<Request>, r: Request)
    ensures Bodies(sent + [r]) == Bodies(sent) + r.body
  {
  }

  lemma PostKeepsSlots(s: Session, r: Request, keys: seq<Key>, handled: set<nat>)
    requires SlotsOk(s, handled)
    ensures SlotsOk(Post(s, r, keys), handled)
  {
  }

  /** Taking the last key leaves a chain for it. */
  lemma LinkedRest(hash: Key -> Key, keys: seq<Key>, token: Key)
    requires Linked(hash, keys, token) && |keys| >= 2
    ensures Linked(hash, keys[..|keys| - 1], Last(keys))
  {
  }

  lemma PostKeepsKeys(hash: Key -> Key, s: Session, r: Request, keys: seq<Key>)
    requires 20 <= s.keyNum < 50 && 0 <= s.rid < RID_RANGE && r.rid == s.rid
    requires ChainOfRequests(hash, s.sent)
    requires if s.sent == [] then r.opening else s.sent[0].opening && Follows(hash, s.sent[|s.sent| - 1], r)
    requires |keys| >= 2 && Linked(hash, keys, Token(r))
    ensures KeysOk(hash, Post(s, r, keys))
  {
  }

  lemma HeaderKeepsInv(hash: Key -> Key, s: Session, first: bool, seed: Key, handled: set<nat>)
    requires if first then 20 <= s.keyNum < 50 && 0 <= s.rid < RID_RANGE && ChainOfRequests(hash, s.sent)
                           && (s.sent != [] ==> s.sent[0].opening)
             else KeysOk(hash, s)
    requires PayloadOk(s) && SlotsOk(s, handled)
    ensures Inv(hash, HeaderSent(s, hash, first, seed), handled)
  {
    hide Chain, Linked, Bodies;
    var s1 := s.(streamInitiation := first);
    var keys := Chain(hash, seed, s.keyNum);
    ChainIsLinked(hash, seed, s.keyNum);
    var r := Request(s.rid, first, if first then "" else s.sessionId,
                     if first then None else Some(Last(s.keys)), Some(hash(Last(keys))), false, "");
    if !first {
      LinkedLast(hash, s.keys, Token(s.sent[|s.sent| - 1]));
    }
    PostKeepsKeys(hash, s1, r, keys);
    PostKeepsSlots(s1, r, keys, handled);
    BodiesAppend(s.sent, r);
    assert Bodies(s.sent) + "" == Bodies(s.sent);
  }

  lemma LinkedLast(hash: Key -> Key, keys: seq<Key>, token: Key)
    requires Linked(hash, keys, token)
    ensures keys != [] && hash(Last(keys)) == token
  {
  }

  /** What writeData does to the payload: it is sent behind everything sent before, or it joins the
      backlog. */
  predicate WriteReady(s: Session, data: string) {
    && Bodies(s.sent) + s.payloads + data == s.written
    && (s.payloads != "" ==> s.dataRequest.Some?)
  }

  lemma WriteKeepsInv(hash: Key -> Key, s: Session, data: string, seed: Key, handled: set<nat>)
    requires KeysOk(hash, s) && WriteReady(s, data)
    requires SlotsOk(s.(authorized := false), handled) && (s.authorized ==> s.emptyRequest.Some? || data == "")
    ensures Inv(hash, DataWritten(s, hash, data, seed), handled)
  {
    hide Linked, ChainOfRequests, Bodies, Chain;
    if s.dataRequest.Some? && data != "" {
      assert Bodies(s.sent) + (s.payloads + data) == Bodies(s.sent) + s.payloads + data;
    } else {
      var r, keys := PostOfWrite(hash, s, data, seed);
      assert DataWritten(s, hash, data, seed) == Post(s, r, keys);
      PostKeepsKeys(hash, s, r, keys);
      PostKeepsSlots(s.(authorized := false), r, keys, handled);
      BodiesAppend(s.sent, r);
      if data == "" {
        assert Bodies(s.sent) + s.payloads + "" == Bodies(s.sent) + s.payloads;
        assert Bodies(s.sent) + "" == Bodies(s.sent);
      } else {
        assert Bodies(s.sent) + "" + data == Bodies(s.sent) + data + "";
      }
    }
  }

  /** The request that writeData posts, and the keys it leaves. */
  lemma PostOfWrite(hash: Key -> Key, s: Session, data: string, seed: Key) returns (r: Request, keys: seq<Key>)
    requires KeysOk(hash, s) && !(s.dataRequest.Some? && data != "")
    ensures DataWritten(s, hash, data, seed) == Post(s, r, keys)
    ensures r.rid == s.rid && !r.opening && r.body == data && r.empty == (data == "")
    ensures Follows(hash, s.sent[|s.sent| - 1], r)
    ensures |keys| >= 2 && Linked(hash, keys, Token(r))
  {
    hide ChainOfRequests, Post;
    var rest := s.keys[..|s.keys| - 1];
    LinkedRest(hash, s.keys, Token(s.sent[|s.sent| - 1]));
    if |rest| == 1 {
      keys := Chain(hash, seed, s.keyNum);
      ChainIsLinked(hash, seed, s.keyNum);
      r := Request(s.rid, false, s.sessionId, Some(Last(s.keys)), Some(hash(Last(keys))), data == "", data);
    } else {
      keys := rest;
      r := Request(s.rid, false, s.sessionId, Some(Last(s.keys)), None, data == "", data);
    }
  }

  /** Before the first open, or with the invariant: the states a client can be in. */
  predicate Reachable(hash: Key -> Key, s: Session, handled: set<nat>) {
    Inv(hash, s, handled) || s == NEW
  }

  lemma {:induction false} ApplyKeepsInv(hash: Key -> Key, s: Session, op: Op, handled: set<nat>)
    requires Reachable(hash, s, handled) && Legal(s, op)
    ensures Inv(hash, Apply(s, hash, op), handled)
  {
    hide KeysOk, PayloadOk, SlotsOk, HeaderSent, DataWritten;
    match op
    case Open(rid, random, seed) => OpenKeepsInv(hash, s, rid, random, seed, handled);
    case Write(data, seed) =>
      WriteIsReady(hash, s, data, handled);
      WriteKeepsInv(hash, s.(written := s.written + data), data, seed, handled);
    case Restart(seed) => HeaderKeepsInv(hash, s, false, seed, handled);
    case Authorize(seed) =>
      AuthorizeIsReady(hash, s, handled);
      WriteKeepsInv(hash, s.(authorized := true), "", seed, handled);
  }

  lemma OpenKeepsInv(hash: Key -> Key, s: Session, rid: int, random: nat, seed: Key, handled: set<nat>)
    requires Reachable(hash, s, handled) && 0 <= rid < RID_RANGE
    ensures Inv(hash, Apply(s, hash, Open(rid, random, seed)), handled)
  {
    hide Linked, ChainOfRequests, HeaderSent, Bodies;
    NothingSent(hash);
    var s1 := s.(rid := rid, keyNum := random % 30 + 20);
    HeaderKeepsInv(hash, s1, true, seed, handled);
    Unauthorize(hash, HeaderSent(s1, hash, true, seed), handled);
  }

  lemma Unauthorize(hash: Key -> Key, s: Session, handled: set<nat>)
    requires Inv(hash, s, handled)
    ensures Inv(hash, s.(authorized := false), handled)
  {
  }

  lemma WriteIsReady(hash: Key -> Key, s: Session, data: string, handled: set<nat>)
    requires Inv(hash, s, handled)
    ensures var s' := s.(written := s.written + data);
            KeysOk(hash, s') && WriteReady(s', data) && SlotsOk(s'.(authorized := false), handled)
            && (s'.authorized ==> s'.emptyRequest.Some?)
  {
  }

  lemma AuthorizeIsReady(hash: Key -> Key, s: Session, handled: set<nat>)
    requires Inv(hash, s, handled)
    ensures var s' := s.(authorized := true);
            KeysOk(hash, s') && WriteReady(s', "") && SlotsOk(s'.(authorized := false), handled)
  {
  }

  lemma NothingSent(hash: Key -> Key)
    ensures ChainOfRequests(hash, []) && Bodies([]) == ""
  {
  }

  lemma {:induction false} ApplyAllKeepsInv(hash: Key -> Key, s: Session, ops: seq<Op>, handled: set<nat>)
    requires Inv(hash, s, handled) && LegalAll(s, hash, ops)
    ensures Inv(hash, ApplyAll(s, hash, ops), handled)
    decreases |ops|
  {
    hide Inv, Legal;
    if ops != [] {
      ApplyKeepsInv(hash, s, ops[0], handled);
      ApplyAllKeepsInv(hash, Apply(s, hash, ops[0]), ops[1..], handled);
    }
  }

  /** The end of reply handling: every slot refers to a request in flight again. */
  lemma SettleKeepsInv(hash: Key -> Key, s: Session, id: nat, seed: Key)
    requires Inv(hash, s, {id})
    ensures Inv(hash, Settle(s, hash, id, seed), {})
  {
    hide Linked, ChainOfRequests, Bodies;
    if s.payloads != "" && s.dataRequest == Some(id) {
      FlushKeepsInv(hash, s, id, seed);
    } else {
      var s' := s.(dataRequest := if s.dataRequest == Some(id) then None else s.dataRequest,
                   emptyRequest := if s.emptyRequest == Some(id) then None else s.emptyRequest);
      if s'.authorized && s'.emptyRequest.None? {
        assert Bodies(s.sent) + s.payloads + "" == Bodies(s.sent) + s.payloads;
        WriteKeepsInv(hash, s', "", seed, {});
      }
    }
  }

  /** The backlog becomes the body of the next data request. */
  lemma FlushKeepsInv(hash: Key -> Key, s: Session, id: nat, seed: Key)
    requires Inv(hash, s, {id}) && s.payloads != "" && s.dataRequest == Some(id)
    ensures Inv(hash, DataWritten(s.(dataRequest := None), hash, s.payloads, seed).(payloads := ""), {})
  {
    hide Linked, ChainOfRequests, Bodies, DataWritten;
    var s1 := s.(dataRequest := None, payloads := "");
    assert Bodies(s.sent) + "" + s.payloads == Bodies(s.sent) + s.payloads;
    WriteKeepsInv(hash, s1, s.payloads, seed, {});
    WriteIgnoresBacklog(hash, s, s.payloads, seed);
  }

  lemma WriteIgnoresBacklog(hash: Key -> Key, s: Session, data: string, seed: Key)
    requires s.keys != [] && s.keyNum > 0
    ensures DataWritten(s.(dataRequest := None), hash, data, seed).(payloads := "")
         == DataWritten(s.(dataRequest := None, payloads := ""), hash, data, seed)
  {
  }

  // ---------------------------------------------------------------- whole runs

  /** What happens to a connection: a call of the client, or a reply during whose handling the
      client makes more calls. */
  datatype Event = Call(op: Op) | Reply(id: nat, sid: string, nested: seq<Op>, seed: Key)

  predicate Possible(s: Session, hash: Key -> Key, e: Event) {
    match e
    case Call(op) => Legal(s, op)
    case Reply(id, sid, nested, _) =>
      id in s.inFlight && LegalAll(Receive(s, id, sid), hash, nested)
  }

  /** An event that cannot happen changes nothing. */
  function Happen(s: Session, hash: Key -> Key, e: Event): Session {
    if !Possible(s, hash, e) then s
    else
      match e
      case Call(op) => Apply(s, hash, op)
      case Reply(id, sid, nested, seed) =>
        var s' := ApplyAll(Receive(s, id, sid), hash, nested);
        if s'.keys == [] || s'.keyNum == 0 then s else Settle(s', hash, id, seed)
  }

  function Run(s: Session, hash: Key -> Key, events: seq<Event>): Session
    decreases |events|
  {
    if events == [] then s else Run(Happen(s, hash, events[0]), hash, events[1..])
  }

  lemma ReceiveKeepsInv(hash: Key -> Key, s: Session, id: nat, sid: string)
    requires Inv(hash, s, {}) && id in s.inFlight
    ensures Inv(hash, Receive(s, id, sid), {id})
  {
  }

  lemma {:induction false} HappenKeepsInv(hash: Key -> Key, s: Session, e: Event)
    requires Reachable(hash, s, {})
    ensures Reachable(hash, Happen(s, hash, e), {})
  {
    hide KeysOk, PayloadOk, SlotsOk, Apply, Settle, Receive, LegalAll;
    if Possible(s, hash, e) {
      match e
      case Call(op) => ApplyKeepsInv(hash, s, op, {});
      case Reply(id, sid, nested, seed) =>
        ReceiveKeepsInv(hash, s, id, sid);
        ApplyAllKeepsInv(hash, Receive(s, id, sid), nested, {id});
        SettleKeepsInv(hash, ApplyAll(Receive(s, id, sid), hash, nested), id, seed);
    }
  }

  lemma {:induction false} RunKeepsInv(hash: Key -> Key, s: Session, events: seq<Event>)
    requires Reachable(hash, s, {})
    ensures Reachable(hash, Run(s, hash, events), {})
    decreases |events|
  {
    hide Reachable, Happen;
    if events != [] {
      HappenKeepsInv(hash, s, events[0]);
      RunKeepsInv(hash, Happen(s, hash, events[0]), events[1..]);
    }
  }

  /** In every run: each key authenticates the request before it, rids are consecutive, and two
      keys at least are left, so the key list is never popped empty. */
  lemma {:induction false} EveryKeyAuthenticatesItsPredecessor(hash: Key -> Key, events: seq<Event>)
    ensures var s := Run(NEW, hash, events);
            && (forall i :: 0 < i < |s.sent| && !s.sent[i].opening ==>
                  && s.sent[i].key.Some? && hash(s.sent[i].key.value) == Token(s.sent[i - 1])
                  && s.sent[i].rid == (s.sent[i - 1].rid + 1) % RID_RANGE)
            && (s.sent != [] ==> s.sent[0].opening && |s.keys| >= 2)
  {
    hide Run, Linked;
    RunKeepsInv(hash, NEW, events);
    var s := Run(NEW, hash, events);
    if s != NEW {
      forall i | 0 < i < |s.sent| && !s.sent[i].opening
        ensures s.sent[i].key.Some? && hash(s.sent[i].key.value) == Token(s.sent[i - 1])
             && s.sent[i].rid == (s.sent[i - 1].rid + 1) % RID_RANGE
      {
        assert Follows(hash, s.sent[i - 1], s.sent[i]);
      }
    }
  }

  /** In every run: the bodies sent so far and the backlog are exactly what was written, in order,
      and a backlog waits only for a tracked data request that is in flight. */
  lemma {:induction false} PayloadIsSentOnceInOrder(hash: Key -> Key, events: seq<Event>)
    ensures var s := Run(NEW, hash, events);
            && Bodies(s.sent) + s.payloads == s.written
            && (s.payloads != "" ==> s.dataRequest.Some? && s.dataRequest.value in s.inFlight)
  {
    hide Run, KeysOk;
    RunKeepsInv(hash, NEW, events);
    assert Bodies([]) == "";
  }

  /** In every run: once authorized, an empty request is in flight whenever no reply is being
      handled, and no slot refers to a finished request. */
  lemma {:induction false} ServerCanAlwaysPush(hash: Key -> Key, events: seq<Event>)
    ensures var s := Run(NEW, hash, events);
            && (s.authorized ==> s.emptyRequest.Some?)
            && (forall id :: id in s.inFlight ==> id < |s.sent|)
            && (s.emptyRequest.Some? ==> s.emptyRequest.value in s.inFlight && s.sent[s.emptyRequest.value].empty)
            && (s.dataRequest.Some? ==> s.dataRequest.value in s.inFlight && !s.sent[s.dataRequest.value].empty)
  {
    hide Run, KeysOk, PayloadOk;
    RunKeepsInv(hash, NEW, events);
  }

  // ---------------------------------------------------------------- runs, seen from outside

  /** What the calls and replies of a run alone tell: the bytes written, whether the session has been
      authorized since it was opened, the requests answered, how often and with which rid it was
      opened, the session id in the first reply since, and whether a restart came before that reply.
      `carried` is the id that follows from it. */
  datatype Watch = Watch(
    written: string, authorized: bool, replied: set<nat>,
    opens: nat, rid: int, first: Option<string>, early: bool, carried: string)

  const UNSEEN := Watch("", false, {}, 0, 0, None, false, "")

  function SeeOp(w: Watch, op: Op): Watch {
    match op
    case Open(rid, _, _) => w.(authorized := false, opens := w.opens + 1, rid := rid, first := None, early := false)
    case Write(data, _) => w.(written := w.written + data)
    case Restart(_) => w.(early := w.early || w.first.None?)
    case Authorize(_) => w.(authorized := true)
  }

  function SeeOps(w: Watch, ops: seq<Op>): Watch
    decreases |ops|
  {
    if ops == [] then w else SeeOps(SeeOp(w, ops[0]), ops[1..])
  }

  function SeeReply(w: Watch, id: nat, sid: string): Watch {
    if w.first.Some? then w.(replied := w.replied + {id})
    else w.(replied := w.replied + {id}, first := Some(sid), carried := if w.early then w.carried else sid)
  }

  /** The id that the requests of an event carry. */
  function CarriedBy(w: Watch, e: Event): string {
    if e.Reply? then SeeReply(w, e.id, e.sid).carried else w.carried
  }

  function SeeEvent(w: Watch, e: Event): Watch {
    match e
    case Call(op) => SeeOp(w, op)
    case Reply(id, sid, nested, _) => SeeOps(SeeReply(w, id, sid), nested)
  }

  /** All events that can happen. */
  function Watched(s: Session, hash: Key -> Key, w: Watch, events: seq<Event>): Watch
    decreases |events|
  {
    if events == [] then w
    else
      Watched(Happen(s, hash, events[0]), hash,
              if Possible(s, hash, events[0]) then SeeEvent(w, events[0]) else w, events[1..])
  }

  function Openings(sent: seq<Request>): nat {
    if sent == [] then 0 else Openings(sent[..|sent| - 1]) + if sent[|sent| - 1].opening then 1 else 0
  }

  /** The rid of the last opening request, or 0. */
  function OpenedWith(sent: seq<Request>): int {
    if sent == [] then 0
    else if sent[|sent| - 1].opening then sent[|sent| - 1].rid
    else OpenedWith(sent[..|sent| - 1])
  }

  /** The connection is what the run says. */
  predicate AsSeen(s: Session, w: Watch) {
    && s.written == w.written && s.authorized == w.authorized
    && s.inFlight == (set i | 0 <= i < |s.sent| && i !in w.replied) && (forall i :: i in w.replied ==> i < |s.sent|)
    && Openings(s.sent) == w.opens && OpenedWith(s.sent) == w.rid
    && s.sessionId == w.carried && (w.opens > 0 ==> s.streamInitiation == (w.first.None? && !w.early))
    && (w.first.Some? && !w.early ==> w.carried == w.first.value)
  }

  lemma {:induction false} PostAsSeen(s: Session, w: Watch, r: Request, keys: seq<Key>)
    requires AsSeen(s, w) && (r.opening ==> s.streamInitiation == (w.first.None? && !w.early))
    ensures AsSeen(Post(s, r, keys), if r.opening then w.(opens := w.opens + 1, rid := r.rid) else w)
  {
    assert (s.sent + [r])[..|s.sent|] == s.sent;
    var n := |s.sent|;
    assert (set i | 0 <= i < n + 1 && i !in w.replied) == (set i | 0 <= i < n && i !in w.replied) + {n};
  }

  /** Everything posted behind the first n requests that is not opening carries this session id. */
  predicate Carries(s: Session, n: nat, sid: string) {
    forall i :: n <= i < |s.sent| && !s.sent[i].opening ==> s.sent[i].sid == sid
  }

  lemma {:induction false} HeaderAsSeen(s: Session, w: Watch, hash: Key -> Key, first: bool, seed: Key)
    requires AsSeen(s, w) && (first || s.keys != []) && s.keyNum > 0 && (first || w.opens > 0)
    ensures var w' := if first then w.(opens := w.opens + 1, rid := s.rid, first := None, early := false)
                      else w.(early := w.early || w.first.None?);
            var s' := HeaderSent(s, hash, first, seed);
            AsSeen(s', w') && |s'.sent| == |s.sent| + 1 && s.sent <= s'.sent && Carries(s', |s.sent|, w.carried)
  {
    hide Chain, Openings, OpenedWith;
    var keys := Chain(hash, seed, s.keyNum);
    var r := Request(s.rid, first, if first then "" else s.sessionId,
                     if first then None else Some(Last(s.keys)), Some(hash(Last(keys))), false, "");
    var w1 := if first then w.(first := None, early := false) else w.(early := w.early || w.first.None?);
    PostAsSeen(s.(streamInitiation := first), w1, r, keys);
  }

  lemma {:induction false} WriteAsSeen(s: Session, w: Watch, hash: Key -> Key, data: string, seed: Key)
    requires AsSeen(s, w) && s.keys != [] && s.keyNum > 0
    ensures var s' := DataWritten(s, hash, data, seed);
            AsSeen(s', w) && s.sent <= s'.sent && Carries(s', |s.sent|, w.carried)
  {
    hide Chain, Openings, OpenedWith;
    if !(s.dataRequest.Some? && data != "") {
      var rest, keys := s.keys[..|s.keys| - 1], Chain(hash, seed, s.keyNum);
      var newkey := if |rest| == 1 then Some(hash(Last(keys))) else None;
      var r := Request(s.rid, false, s.sessionId, Some(Last(s.keys)), newkey, data == "", data);
      PostAsSeen(s, w, r, if |rest| == 1 then keys else rest);
    }
  }

  lemma {:induction false} OpAsSeen(s: Session, w: Watch, hash: Key -> Key, op: Op)
    requires AsSeen(s, w) && Legal(s, op) && (op.Restart? ==> w.opens > 0)
    ensures var s' := Apply(s, hash, op);
            && AsSeen(s', SeeOp(w, op)) && SeeOp(w, op).carried == w.carried
            && s.sent <= s'.sent && Carries(s', |s.sent|, w.carried)
  {
    hide HeaderSent, DataWritten, Openings, OpenedWith;
    match op
    case Open(rid, random, seed) =>
      HeaderAsSeen(s.(rid := rid, keyNum := random % 30 + 20), w, hash, true, seed);
    case Write(data, seed) =>
      WriteAsSeen(s.(written := s.written + data), w.(written := w.written + data), hash, data, seed);
    case Restart(seed) => HeaderAsSeen(s, w, hash, false, seed);
    case Authorize(seed) => WriteAsSeen(s.(authorized := true), w.(authorized := true), hash, "", seed);
  }

  lemma CarriesOn(s: Session, t: Session, n: nat, sid: string)
    requires n <= |s.sent| && s.sent <= t.sent && Carries(s, n, sid) && Carries(t, |s.sent|, sid)
    ensures Carries(t, n, sid)
  {
  }

  lemma {:induction false} OpsAsSeen(s: Session, w: Watch, hash: Key -> Key, ops: seq<Op>)
    requires AsSeen(s, w) && LegalAll(s, hash, ops) && w.opens > 0
    ensures var s' := ApplyAll(s, hash, ops);
            && AsSeen(s', SeeOps(w, ops)) && SeeOps(w, ops).carried == w.carried
            && s.sent <= s'.sent && Carries(s', |s.sent|, w.carried)
    decreases |ops|
  {
    hide AsSeen, Legal, Apply;
    if ops != [] {
      OpAsSeen(s, w, hash, ops[0]);
      var t := Apply(s, hash, ops[0]);
      OpsAsSeen(t, SeeOp(w, ops[0]), hash, ops[1..]);
      CarriesOn(t, ApplyAll(s, hash, ops), |s.sent|, w.carried);
    }
  }

  lemma {:induction false} ReplyAsSeen(s: Session, w: Watch, id: nat, sid: string)
    requires AsSeen(s, w) && id in s.inFlight && w.opens > 0
    ensures AsSeen(Receive(s, id, sid), SeeReply(w, id, sid))
  {
    hide Openings, OpenedWith;
  }

  lemma {:induction false} SettleAsSeen(s: Session, w: Watch, hash: Key -> Key, id: nat, seed: Key)
    requires AsSeen(s, w) && s.keys != [] && s.keyNum > 0
    ensures var s' := Settle(s, hash, id, seed);
            AsSeen(s', w) && s.sent <= s'.sent && Carries(s', |s.sent|, w.carried)
  {
    hide DataWritten, Openings, OpenedWith;
    if s.payloads != "" && s.dataRequest == Some(id) {
      WriteAsSeen(s.(dataRequest := None), w, hash, s.payloads, seed);
    } else {
      var s' := s.(dataRequest := if s.dataRequest == Some(id) then None else s.dataRequest,
                   emptyRequest := if s.emptyRequest == Some(id) then None else s.emptyRequest);
      if s'.authorized && s'.emptyRequest.None? {
        WriteAsSeen(s', w, hash, "", seed);
      }
    }
  }

  lemma SomethingOpened(hash: Key -> Key, s: Session, w: Watch, handled: set<nat>)
    requires AsSeen(s, w) && Inv(hash, s, handled)
    ensures w.opens > 0
  {
    hide Linked, ChainOfRequests;
    FirstCounts(s.sent);
  }

  lemma {:induction false} FirstCounts(sent: seq<Request>)
    requires sent != [] && sent[0].opening
    ensures Openings(sent) > 0
  {
    if |sent| > 1 {
      FirstCounts(sent[..|sent| - 1]);
    }
  }

  /** One event: what the connection is behind it, and what its requests carry. */
  lemma {:induction false} EventAsSeen(s: Session, w: Watch, hash: Key -> Key, e: Event)
    requires Reachable(hash, s, {}) && AsSeen(s, w)
    ensures var s' := Happen(s, hash, e);
            && AsSeen(s', if Possible(s, hash, e) then SeeEvent(w, e) else w)
            && s.sent <= s'.sent && Carries(s', |s.sent|, CarriedBy(w, e))
  {
    hide AsSeen, KeysOk, PayloadOk, SlotsOk, Apply, Settle, Receive, LegalAll;
    if Possible(s, hash, e) {
      match e
      case Call(op) =>
        if s != NEW {
          SomethingOpened(hash, s, w, {});
        }
        OpAsSeen(s, w, hash, op);
      case Reply(id, sid, nested, seed) =>
        SomethingOpened(hash, s, w, {});
        ReceiveKeepsInv(hash, s, id, sid);
        ReplyAsSeen(s, w, id, sid);
        SameSent(s, id, sid);
        var s1, w1 := Receive(s, id, sid), SeeReply(w, id, sid);
        ApplyAllKeepsInv(hash, s1, nested, {id});
        OpsAsSeen(s1, w1, hash, nested);
        var s2 := ApplyAll(s1, hash, nested);
        KeysLeft(hash, s2, {id});
        SettleAsSeen(s2, SeeOps(w1, nested), hash, id, seed);
        CarriesOn(s2, Settle(s2, hash, id, seed), |s.sent|, w1.carried);
    }
  }

  lemma SameSent(s: Session, id: nat, sid: string)
    ensures Receive(s, id, sid).sent == s.sent
  {
  }

  lemma KeysLeft(hash: Key -> Key, s: Session, handled: set<nat>)
    requires Inv(hash, s, handled)
    ensures s.keys != [] && s.keyNum > 0
  {
  }

  lemma {:induction false} RunAsSeen(s: Session, w: Watch, hash: Key -> Key, events: seq<Event>)
    requires Reachable(hash, s, {}) && AsSeen(s, w)
    ensures AsSeen(Run(s, hash, events), Watched(s, hash, w, events))
    decreases |events|
  {
    hide Reachable, AsSeen, Happen, Possible, SeeEvent;
    if events != [] {
      EventAsSeen(s, w, hash, events[0]);
      HappenKeepsInv(hash, s, events[0]);
      var w' := if Possible(s, hash, events[0]) then SeeEvent(w, events[0]) else w;
      RunAsSeen(Happen(s, hash, events[0]), w', hash, events[1..]);
    }
  }

  lemma NewIsUnseen()
    ensures AsSeen(NEW, UNSEEN)
  {
  }

  /** In every run the requests show what was called: there is one opening request for every open, with its
      rid, the bytes written are sent or wait, and the requests in flight are those not answered. */
  lemma {:induction false} RequestsShowTheRun(hash: Key -> Key, events: seq<Event>)
    ensures var s, w := Run(NEW, hash, events), Watched(NEW, hash, UNSEEN, events);
            && Openings(s.sent) == w.opens && OpenedWith(s.sent) == w.rid
            && Bodies(s.sent) + s.payloads == w.written
            && s.inFlight == (set i | 0 <= i < |s.sent| && i !in w.replied)
            && (w.authorized ==> s.emptyRequest.Some? && s.emptyRequest.value in s.inFlight)
  {
    hide Run, Watched, Openings, OpenedWith;
    NewIsUnseen();
    RunAsSeen(NEW, UNSEEN, hash, events);
    PayloadIsSentOnceInOrder(hash, events);
    ServerCanAlwaysPush(hash, events);
  }

  /** In every run: what an event posts besides opening requests carries the session id of the first reply
      since the last open, exactly unless a restart came before that reply; then it carries the id of the
      session before. */
  lemma {:induction false} RequestsCarryTheSessionId(hash: Key -> Key, events: seq<Event>, e: Event)
    ensures var s, w := Run(NEW, hash, events), Watched(NEW, hash, UNSEEN, events);
            var s' := Happen(s, hash, e);
            && s.sent <= s'.sent
            && (forall i :: |s.sent| <= i < |s'.sent| && !s'.sent[i].opening ==> s'.sent[i].sid == CarriedBy(w, e))
            && (w.first.Some? && !w.early ==> CarriedBy(w, e) == w.first.value)
            && (w.first.None? && !w.early && e.Reply? ==> CarriedBy(w, e) == e.sid)
            && (w.early ==> CarriedBy(w, e) == w.carried)
  {
    hide Run, Watched, Happen;
    NewIsUnseen();
    RunKeepsInv(hash, NEW, events);
    RunAsSeen(NEW, UNSEEN, hash, events);
    EventAsSeen(Run(NEW, hash, events), Watched(NEW, hash, UNSEEN, events), hash, e);
  }

  /** A restart before the first reply: the id in that reply is never taken. */
  lemma {:induction false} RestartLosesTheSessionId(hash: Key -> Key, seed: Key)
    ensures var events := [Call(Open(7, 0, seed)), Call(Restart(seed)), Reply(0, "abc", [], seed)];
            Watched(NEW, hash, UNSEEN, events).first == Some("abc") && Run(NEW, hash, events).sessionId == ""
  {
    hide Chain, Settle;
    var a, b, c := Call(Open(7, 0, seed)), Call(Restart(seed)), Reply(0, "abc", [], seed);
    var s1 := Happen(NEW, hash, a);
    assert s1.keyNum == 20 && s1.sent == [s1.sent[0]] && s1.sessionId == "" && s1.inFlight == {0};
    var s2 := Happen(s1, hash, b);
    assert !s2.streamInitiation && s2.sessionId == "" && s2.inFlight == {0, 1} && s2.keys != [];
    assert Possible(s2, hash, c);
    ThreeEvents(hash, a, b, c);
    RequestsShowTheRun(hash, [a, b, c]);
    NewIsUnseen();
    RunAsSeen(NEW, UNSEEN, hash, [a, b, c]);
  }

  lemma ThreeEvents(hash: Key -> Key, a: Event, b: Event, c: Event)
    ensures var s1 := Happen(NEW, hash, a);
            var s2 := Happen(s1, hash, b);
            var w1 := if Possible(NEW, hash, a) then SeeEvent(UNSEEN, a) else UNSEEN;
            var w2 := if Possible(s1, hash, b) then SeeEvent(w1, b) else w1;
            Watched(NEW, hash, UNSEEN, [a, b, c]) == if Possible(s2, hash, c) then SeeEvent(w2, c) else w2
  {
    hide Happen, Possible, SeeEvent;
    assert [a, b, c][1..] == [b, c] && [b, c][1..] == [c] && [c][1..] == [];
    var s1, s2 := Happen(NEW, hash, a), Happen(Happen(NEW, hash, a), hash, b);
    var w1 := if Possible(NEW, hash, a) then SeeEvent(UNSEEN, a) else UNSEEN;
    var w2 := if Possible(s1, hash, b) then SeeEvent(w1, b) else w1;
    var w3 := if Possible(s2, hash, c) then SeeEvent(w2, c) else w2;
    assert Watched(NEW, hash, UNSEEN, [a, b, c]) == Watched(s1, hash, w1, [b, c]);
    assert Watched(s1, hash, w1, [b, c]) == Watched(s2, hash, w2, [c]);
    assert Watched(s2, hash, w2, [c]) == Watched(Happen(s2, hash, c), hash, w3, []);
  }

  // ---------------------------------------------------------------- one body at a time

  predicate IsHeader(r: Request) {
    !r.empty && r.body == ""
  }

  predicate HeaderBetween(sent: seq<Request>, i: nat, j: nat)
    requires j <= |sent|
  {
    exists h :: i < h < j && IsHeader(sent[h])
  }

  /** A data request in flight is the tracked one, unless a header request has taken its slot; and nothing
      with a body has been posted behind it since, unless a header request came between. */
  predicate Single(s: Session) {
    && (forall i :: i in s.inFlight ==> i < |s.sent|)
    && (forall i :: i in s.inFlight && !s.sent[i].empty && s.dataRequest != Some(i) ==>
          HeaderBetween(s.sent, i, |s.sent|))
    && (forall i, j :: i in s.inFlight && !s.sent[i].empty && i < j < |s.sent| && s.sent[j].body != "" ==>
          HeaderBetween(s.sent, i, j))
  }

  lemma {:induction false} PostKeepsSingle(s: Session, r: Request, keys: seq<Key>)
    requires Single(s) && (r.empty ==> r.body == "") && (r.body != "" ==> s.dataRequest.None?)
    ensures Single(Post(s, r, keys))
  {
    var s', n := Post(s, r, keys), |s.sent|;
    assert forall i, j :: 0 <= i < j <= n && HeaderBetween(s.sent, i, j) ==> HeaderBetween(s'.sent, i, j) by {
      forall i, j | 0 <= i < j <= n && HeaderBetween(s.sent, i, j) ensures HeaderBetween(s'.sent, i, j) {
        var h :| i < h < j && IsHeader(s.sent[h]);
        assert s'.sent[h] == s.sent[h];
      }
    }
    forall i | i in s'.inFlight && !s'.sent[i].empty && s'.dataRequest != Some(i)
      ensures HeaderBetween(s'.sent, i, n + 1)
    {
      if s.dataRequest == Some(i) {
        assert IsHeader(s'.sent[n]);
      } else {
        var h :| i < h < n && IsHeader(s.sent[h]);
        assert s'.sent[h] == s.sent[h];
      }
    }
  }

  lemma {:induction false} WriteKeepsSingle(s: Session, hash: Key -> Key, data: string, seed: Key)
    requires Single(s) && s.keys != [] && s.keyNum > 0
    ensures Single(DataWritten(s, hash, data, seed))
  {
    hide Chain, Single, Post;
    if s.dataRequest.Some? && data != "" {
      SameSingle(s, s.(payloads := s.payloads + data));
    } else {
      var rest, keys := s.keys[..|s.keys| - 1], Chain(hash, seed, s.keyNum);
      var newkey := if |rest| == 1 then Some(hash(Last(keys))) else None;
      var r := Request(s.rid, false, s.sessionId, Some(Last(s.keys)), newkey, data == "", data);
      PostKeepsSingle(s, r, if |rest| == 1 then keys else rest);
    }
  }

  lemma {:induction false} HeaderKeepsSingle(s: Session, hash: Key -> Key, first: bool, seed: Key)
    requires Single(s) && (first || s.keys != []) && s.keyNum > 0
    ensures Single(HeaderSent(s, hash, first, seed))
  {
    hide Chain, Single, Post;
    var keys := Chain(hash, seed, s.keyNum);
    var r := Request(s.rid, first, if first then "" else s.sessionId,
                     if first then None else Some(Last(s.keys)), Some(hash(Last(keys))), false, "");
    SameSingle(s, s.(streamInitiation := first));
    PostKeepsSingle(s.(streamInitiation := first), r, keys);
  }

  lemma SameSingle(s: Session, t: Session)
    requires Single(s) && t.sent == s.sent && t.inFlight == s.inFlight && t.dataRequest == s.dataRequest
    ensures Single(t)
  {
  }

  lemma {:induction false} OpKeepsSingle(s: Session, hash: Key -> Key, op: Op)
    requires Single(s) && Legal(s, op)
    ensures Single(Apply(s, hash, op))
  {
    hide Single, HeaderSent, DataWritten;
    match op
    case Open(rid, random, seed) =>
      var t := s.(rid := rid, keyNum := random % 30 + 20);
      SameSingle(s, t);
      HeaderKeepsSingle(t, hash, true, seed);
      SameSingle(HeaderSent(t, hash, true, seed), Apply(s, hash, op));
    case Write(data, seed) =>
      SameSingle(s, s.(written := s.written + data));
      WriteKeepsSingle(s.(written := s.written + data), hash, data, seed);
    case Restart(seed) => HeaderKeepsSingle(s, hash, false, seed);
    case Authorize(seed) =>
      SameSingle(s, s.(authorized := true));
      WriteKeepsSingle(s.(authorized := true), hash, "", seed);
  }

  lemma {:induction false} OpsKeepSingle(s: Session, hash: Key -> Key, ops: seq<Op>)
    requires Single(s) && LegalAll(s, hash, ops)
    ensures Single(ApplyAll(s, hash, ops))
    decreases |ops|
  {
    hide Single, Legal, Apply;
    if ops != [] {
      OpKeepsSingle(s, hash, ops[0]);
      OpsKeepSingle(Apply(s, hash, ops[0]), hash, ops[1..]);
    }
  }

  lemma SlotFreed(s: Session, id: nat)
    requires Single(s) && id !in s.inFlight && s.dataRequest == Some(id)
    ensures Single(s.(dataRequest := None))
  {
  }

  lemma {:induction false} SettleKeepsSingle(s: Session, hash: Key -> Key, id: nat, seed: Key)
    requires Single(s) && id !in s.inFlight && s.keys != [] && s.keyNum > 0
    ensures Single(Settle(s, hash, id, seed))
  {
    hide Single, DataWritten;
    var s1 := s.(dataRequest := if s.dataRequest == Some(id) then None else s.dataRequest);
    if s.dataRequest == Some(id) {
      SlotFreed(s, id);
    }
    if s.payloads != "" && s.dataRequest == Some(id) {
      WriteKeepsSingle(s1, hash, s.payloads, seed);
      SameSingle(DataWritten(s1, hash, s.payloads, seed), Settle(s, hash, id, seed));
    } else {
      var s2 := s1.(emptyRequest := if s.emptyRequest == Some(id) then None else s.emptyRequest);
      SameSingle(s1, s2);
      if s2.authorized && s2.emptyRequest.None? {
        WriteKeepsSingle(s2, hash, "", seed);
      }
    }
  }

  lemma OpKeepsAnswered(s: Session, hash: Key -> Key, op: Op)
    requires Legal(s, op)
    ensures |s.sent| <= |Apply(s, hash, op).sent|
    ensures forall i :: 0 <= i < |s.sent| && i !in s.inFlight ==> i !in Apply(s, hash, op).inFlight
  {
    hide Chain;
  }

  /** Requests are only added, so an answered one stays answered. */
  lemma {:induction false} OpsKeepAnswered(s: Session, hash: Key -> Key, ops: seq<Op>, id: nat)
    requires LegalAll(s, hash, ops) && id < |s.sent| && id !in s.inFlight
    ensures id !in ApplyAll(s, hash, ops).inFlight
    decreases |ops|
  {
    hide Legal, Apply;
    if ops != [] {
      OpKeepsAnswered(s, hash, ops[0]);
      OpsKeepAnswered(Apply(s, hash, ops[0]), hash, ops[1..], id);
    }
  }

  lemma {:induction false} EventKeepsSingle(s: Session, hash: Key -> Key, e: Event)
    requires Reachable(hash, s, {}) && Single(s)
    ensures Single(Happen(s, hash, e))
  {
    hide KeysOk, PayloadOk, SlotsOk, Apply, Settle, LegalAll;
    if Possible(s, hash, e) {
      match e
      case Call(op) => OpKeepsSingle(s, hash, op);
      case Reply(id, sid, nested, seed) =>
        ReceiveKeepsInv(hash, s, id, sid);
        var s1 := Receive(s, id, sid);
        assert Single(s1);
        ApplyAllKeepsInv(hash, s1, nested, {id});
        OpsKeepSingle(s1, hash, nested);
        OpsKeepAnswered(s1, hash, nested, id);
        KeysLeft(hash, ApplyAll(s1, hash, nested), {id});
        SettleKeepsSingle(ApplyAll(s1, hash, nested), hash, id, seed);
    }
  }

  lemma {:induction false} RunKeepsSingle(s: Session, hash: Key -> Key, events: seq<Event>)
    requires Reachable(hash, s, {}) && Single(s)
    ensures Single(Run(s, hash, events))
    decreases |events|
  {
    hide Reachable, Single, Happen;
    if events != [] {
      EventKeepsSingle(s, hash, events[0]);
      HappenKeepsInv(hash, s, events[0]);
      RunKeepsSingle(Happen(s, hash, events[0]), hash, events[1..]);
    }
  }

  /** In every run: behind a data request that is still in flight nothing with a body has been posted, unless
      a header request came between. */
  lemma {:induction false} OneBodyAtATime(hash: Key -> Key, events: seq<Event>, i: nat, j: nat)
    requires var s := Run(NEW, hash, events);
             i in s.inFlight && i < j < |s.sent| && !s.sent[i].empty && s.sent[j].body != ""
    ensures var s := Run(NEW, hash, events);
            exists h :: i < h < j && !s.sent[h].empty && s.sent[h].body == ""
  {
    hide Run;
    RunKeepsSingle(NEW, hash, events);
    var s := Run(NEW, hash, events);
    assert HeaderBetween(s.sent, i, j);
    var h :| i < h < j && IsHeader(s.sent[h]);
  }
}
