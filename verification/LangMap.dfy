/**
 The copy-on-write LangMap: handles that share reference-counted blocks, one of which is the
 static shared null. A Store holds the live handles and the blocks that are not freed; a handle
 behaves like a value of its own, and a block is freed exactly when its last handle goes.
 */
module LangMap {

  /** What a handle means: the text for every language, with "" for the base text. Having an empty
      base text is the same as having none. */
  function Entries(base: string, other: map<string, string>): map<string, string> {
    if base == "" then other else other["" := base]
  }

  // ---------------------------------------------------------------- reference counts as values

  /** The handles that point to a block. */
  ghost function PointersTo(targets: map<LangMap, Block>, b: Block): set<LangMap> {
    set h | h in targets && targets[h] == b
  }

  /** Every handle points to a block that has a count, and each count is the number of handles that
      point to the block, and one more for the shared null; blocks without an owner have none. */
  ghost predicate Balanced(targets: map<LangMap, Block>, refs: map<Block, int>, nil: Block) {
    && nil in refs
    && (forall h :: h in targets ==> targets[h] in refs)
    && (forall b :: b in refs ==> CountedRight(targets, refs, nil, b))
  }

  ghost predicate CountedRight(targets: map<LangMap, Block>, refs: map<Block, int>, nil: Block, b: Block)
    requires b in refs
  {
    refs[b] > 0 && refs[b] == |PointersTo(targets, b)| + if b == nil then 1 else 0
  }

  lemma PointersAfterAdd(targets: map<LangMap, Block>, h: LangMap, to: Block, b: Block)
    requires h !in targets
    ensures PointersTo(targets[h := to], b) == PointersTo(targets, b) + if b == to then {h} else {}
    ensures h !in PointersTo(targets, b)
  {
  }

  lemma PointersAfterDrop(targets: map<LangMap, Block>, h: LangMap, b: Block)
    requires h in targets
    ensures PointersTo(targets - {h}, b) == PointersTo(targets, b) - if b == targets[h] then {h} else {}
    ensures b == targets[h] ==> h in PointersTo(targets, b)
  {
  }

  /** A new handle to a block that has owners. */
  lemma {:induction false} BalanceAdopt(
      targets: map<LangMap, Block>, refs: map<Block, int>, nil: Block, h: LangMap, to: Block)
    requires Balanced(targets, refs, nil) && h !in targets && to in refs
    ensures Balanced(targets[h := to], refs[to := refs[to] + 1], nil)
  {
    hide PointersTo;
    forall b | b in refs ensures CountedRight(targets[h := to], refs[to := refs[to] + 1], nil, b) {
      assert CountedRight(targets, refs, nil, b);
      PointersAfterAdd(targets, h, to, b);
    }
  }

  /** A new handle to a block of its own. */
  lemma {:induction false} BalanceCreate(
      targets: map<LangMap, Block>, refs: map<Block, int>, nil: Block, h: LangMap, to: Block)
    requires Balanced(targets, refs, nil) && h !in targets && to !in refs
    ensures Balanced(targets[h := to], refs[to := 1], nil)
  {
    NoPointers(targets, refs, nil, to);
    hide PointersTo;
    var refs' := refs[to := 1];
    forall b | b in refs' ensures CountedRight(targets[h := to], refs', nil, b) {
      assert b in refs ==> CountedRight(targets, refs, nil, b);
      PointersAfterAdd(targets, h, to, b);
    }
  }

  lemma NoPointers(targets: map<LangMap, Block>, refs: map<Block, int>, nil: Block, b: Block)
    requires Balanced(targets, refs, nil) && b !in refs
    ensures PointersTo(targets, b) == {}
  {
  }

  /** The counts after a handle has gone: the block goes with its last owner. */
  ghost function Released(refs: map<Block, int>, b: Block): map<Block, int>
    requires b in refs
  {
    if refs[b] == 1 then refs - {b} else refs[b := refs[b] - 1]
  }

  /** Another owner is left: another handle, or the shared null's own. */
  ghost predicate OtherOwner(targets: map<LangMap, Block>, nil: Block, h: LangMap)
    requires h in targets
  {
    targets[h] == nil || exists g :: g in targets && g != h && targets[g] == targets[h]
  }

  lemma {:induction false} LastOwner(targets: map<LangMap, Block>, refs: map<Block, int>, nil: Block, h: LangMap)
    requires Balanced(targets, refs, nil) && h in targets
    ensures refs[targets[h]] == 1 <==> !OtherOwner(targets, nil, h)
  {
    var b := targets[h];
    var s := PointersTo(targets, b);
    assert CountedRight(targets, refs, nil, b);
    assert h in s && |s| == |s - {h}| + 1;
    if exists g :: g in targets && g != h && targets[g] == b {
      var g :| g in targets && g != h && targets[g] == b;
      assert g in s - {h};
    } else {
      assert s - {h} == {};
    }
  }

  lemma {:induction false} BalanceDrop(targets: map<LangMap, Block>, refs: map<Block, int>, nil: Block, h: LangMap)
    requires Balanced(targets, refs, nil) && h in targets
    ensures Balanced(targets - {h}, Released(refs, targets[h]), nil)
  {
    LastOwner(targets, refs, nil, h);
    hide PointersTo;
    var refs' := Released(refs, targets[h]);
    forall b | b in refs' ensures CountedRight(targets - {h}, refs', nil, b) {
      assert CountedRight(targets, refs, nil, b);
      PointersAfterDrop(targets, h, b);
    }
  }

  /** A handle redirected to another block. */
  lemma {:induction false} BalanceMove(
      targets: map<LangMap, Block>, refs: map<Block, int>, nil: Block, h: LangMap, to: Block)
    requires Balanced(targets, refs, nil) && h in targets && to in refs && targets[h] != to
    ensures Balanced(targets[h := to], Released(refs[to := refs[to] + 1], targets[h]), nil)
  {
    BalanceDrop(targets, refs, nil, h);
    var refs' := Released(refs, targets[h]);
    BalanceAdopt(targets - {h}, refs', nil, h, to);
    assert (targets - {h})[h := to] == targets[h := to];
    assert refs'[to := refs'[to] + 1] == Released(refs[to := refs[to] + 1], targets[h]);
  }

  lemma KeysMoved(targets: map<LangMap, Block>, refs: map<Block, int>, nil: Block, h: LangMap, to: Block)
    requires Balanced(targets, refs, nil) && h in targets && to in refs && to != targets[h]
    ensures Released(refs[to := refs[to] + 1], targets[h]).Keys ==
              if OtherOwner(targets, nil, h) then refs.Keys else refs.Keys - {targets[h]}
  {
    LastOwner(targets, refs, nil, h);
    hide Balanced, OtherOwner;
  }

  /** A handle detached to a block of its own. */
  lemma {:induction false} BalanceDetach(
      targets: map<LangMap, Block>, refs: map<Block, int>, nil: Block, h: LangMap, to: Block)
    requires Balanced(targets, refs, nil) && h in targets && refs[targets[h]] != 1 && to !in refs
    ensures Balanced(targets[h := to], Released(refs, targets[h])[to := 1], nil)
  {
    BalanceDrop(targets, refs, nil, h);
    BalanceCreate(targets - {h}, Released(refs, targets[h]), nil, h, to);
    assert (targets - {h})[h := to] == targets[h := to];
  }

  lemma TemporaryGone(targets: map<LangMap, Block>, temporary: LangMap, h: LangMap, to: Block)
    requires temporary !in targets && h in targets
    ensures targets[temporary := to][h := to] - {temporary} == targets[h := to]
  {
  }

  // ---------------------------------------------------------------- the heap

  class Block {
    var ref: int
    var base: string
    var other: map<string, string>

    constructor (base: string, other: map<string, string>)
      ensures ref == 1 && this.base == base && this.other == other
    {
      ref, this.base, this.other := 1, base, other;
    }
  }

  class Store {
    const sharedNull: Block
    ghost var targets: map<LangMap, Block>   // the live handles, and where they point
    ghost var refs: map<Block, int>          // the blocks that are not freed, and their counts

    constructor ()
      ensures Valid() && targets == map[] && refs == map[sharedNull := 1] && fresh(sharedNull)
    {
      sharedNull := new Block("", map[]);
      new;
      targets, refs := map[], map[sharedNull := 1];
      assert PointersTo(targets, sharedNull) == {};
    }

    /** No handle points at a freed block, the counts are right, and the shared null is empty. */
    ghost predicate Valid()
      reads this, targets.Keys, refs.Keys
    {
      && Balanced(targets, refs, sharedNull)
      && sharedNull in refs && sharedNull.base == "" && sharedNull.other == map[]
      && Matches()
    }

    /** The tables say what is in the heap. */
    ghost predicate Matches()
      reads this, targets.Keys, refs.Keys
    {
      && (forall h :: h in targets ==> h.d == targets[h])
      && (forall b :: b in refs ==> b.ref == refs[b] && "" !in b.other)
    }

    method Ref(b: Block)
      requires Matches() && b in refs
      modifies this`refs, b`ref
      ensures Matches() && refs == old(refs)[b := old(refs)[b] + 1]
    {
      b.ref := b.ref + 1;
      refs := refs[b := b.ref];
    }

    /** One owner less; the block is freed with its last owner. */
    method Release(b: Block)
      requires Matches() && b in refs
      modifies this`refs, b`ref
      ensures Matches() && refs == Released(old(refs), b)
    {
      b.ref := b.ref - 1;
      if b.ref == 0 {
        refs := refs - {b};
      } else {
        refs := refs[b := b.ref];
      }
    }
  }

  class LangMap {
    var d: Block

    ghost predicate In(store: Store)
      reads store, store.targets.Keys, store.refs.Keys
    {
      store.Valid() && this in store.targets
    }

    ghost function Value(): map<string, string>
      reads this, d
    {
      Entries(d.base, d.other)
    }

    // -------------------------------------------------------------- creation and destruction

    constructor Null(store: Store)
      requires store.Valid()
      modifies store, store.sharedNull`ref
      ensures In(store) && Value() == map[]
      ensures store.targets == old(store.targets)[this := store.sharedNull]
      ensures store.refs == old(store.refs)[d := old(store.refs[store.sharedNull]) + 1]
    {
      d := store.sharedNull;
      new;
      Adopt(store);
    }

    constructor FromValue(store: Store, value: string)
      requires store.Valid()
      modifies store
      ensures In(store) && Value() == Entries(value, map[])
      ensures fresh(d) && store.targets == old(store.targets)[this := d] && store.refs == old(store.refs)[d := 1]
    {
      d := new Block(value, map[]);
      new;
      BalanceCreate(store.targets, store.refs, store.sharedNull, this, d);
      hide PointersTo, Balanced, Entries, Store.Matches;
      MoveTo(store, d);
    }

    constructor Copy(store: Store, other: LangMap)
      requires other.In(store)
      modifies store, other.d`ref
      ensures In(store) && d == other.d && Value() == old(other.Value())
      ensures store.targets == old(store.targets)[this := d]
      ensures store.refs == old(store.refs)[d := old(store.refs)[d] + 1]
    {
      d := other.d;
      new;
      assert d in store.refs;
      hide PointersTo, Balanced, Entries, Store.Matches;
      Adopt(store);
    }

    /** A new handle to a block that has owners. */
    method Adopt(store: Store)
      requires store.Valid() && d in store.refs && this !in store.targets
      modifies store, d`ref
      ensures In(store) && store.targets == old(store.targets)[this := d]
      ensures store.refs == old(store.refs)[d := old(store.refs)[d] + 1]
    {
      BalanceAdopt(store.targets, store.refs, store.sharedNull, this, d);
      hide PointersTo, Balanced;
      d.ref := d.ref + 1;
      store.targets := store.targets[this := d];
      store.refs := store.refs[d := d.ref];
    }

    /** The destructor: the block is freed with its last owner, the shared null never. */
    method Destroy(store: Store)
      requires In(store)
      modifies store, d`ref
      ensures store.Valid() && store.targets == old(store.targets) - {this}
      ensures store.refs.Keys == if old(OtherOwner(store.targets, store.sharedNull, this))
                                 then old(store.refs.Keys) else old(store.refs.Keys) - {d}
    {
      LastOwner(store.targets, store.refs, store.sharedNull, this);
      BalanceDrop(store.targets, store.refs, store.sharedNull, this);
      assert d in store.refs;
      hide PointersTo, Balanced, OtherOwner;
      store.Release(d);
      store.targets := store.targets - {this};
    }

    /** Set the pointer of a live handle. */
    method Point(store: Store, to: Block)
      requires store.Matches()
      modifies this`d, store`targets
      ensures store.Matches() && d == to && store.targets == old(store.targets)[this := to]
    {
      d := to;
      store.targets := store.targets[this := to];
    }

    // -------------------------------------------------------------- assignment and writes

    method Assign(store: Store, other: LangMap)
      requires In(store) && other.In(store)
      modifies this, store, d`ref, other.d`ref
      ensures In(store) && store.targets == old(store.targets)[this := old(other.d)]
      ensures Value() == old(other.Value())
      ensures store.refs.Keys == if old(d) == d || old(OtherOwner(store.targets, store.sharedNull, this))
                                 then old(store.refs.Keys) else old(store.refs.Keys) - {old(d)}
    {
      assert other.d in store.refs;
      hide PointersTo, Balanced, OtherOwner;
      if d != other.d {
        Redirect(store, other.d);
      } else {
        assert store.targets == store.targets[this := d];
      }
    }

    /** Leave one block for another. */
    method Redirect(store: Store, to: Block)
      requires In(store) && to in store.refs && d != to
      modifies this, store, d`ref, to`ref
      ensures In(store) && store.targets == old(store.targets)[this := to] && d == to
      ensures store.refs.Keys == if old(OtherOwner(store.targets, store.sharedNull, this))
                                 then old(store.refs.Keys) else old(store.refs.Keys) - {old(d)}
    {
      BalanceMove(store.targets, store.refs, store.sharedNull, this, to);
      KeysMoved(store.targets, store.refs, store.sharedNull, this, to);
      assert d in store.refs && store.targets[this] == d;
      hide PointersTo, Balanced, OtherOwner, Store.Matches, Released;
      Relink(store, to);
      assert store.sharedNull.base == "" && store.sharedNull.other == map[];
    }

    /** One owner more there, one less here, and the pointer. */
    method Relink(store: Store, to: Block)
      requires store.Matches() && d in store.refs && to in store.refs && d != to
      modifies this, store`refs, store`targets, d`ref, to`ref
      ensures store.Matches() && d == to && store.targets == old(store.targets)[this := to]
      ensures store.refs == Released(old(store.refs)[to := old(store.refs)[to] + 1], old(d))
    {
      hide Store.Matches, Released;
      store.Ref(to);
      store.Release(d);
      Point(store, to);
    }

    /** Make this handle the only owner of its block. */
    method Detach(store: Store)
      requires In(store)
      modifies this, store, d`ref
      ensures In(store) && store.targets == old(store.targets)[this := d]
      ensures !OtherOwner(store.targets, store.sharedNull, this) && (d == old(d) || fresh(d))
      ensures d.base == old(d.base) && d.other == old(d.other)
      ensures OthersKept(store)
    {
      hide In, OtherOwner, Entries;
      DetachIfShared(store);
    }

    method DetachIfShared(store: Store)
      requires In(store)
      modifies this, store, d`ref
      ensures In(store) && store.targets == old(store.targets)[this := d]
      ensures !OtherOwner(store.targets, store.sharedNull, this) && (d == old(d) || fresh(d))
      ensures d.base == old(d.base) && d.other == old(d.other)
    {
      Owned(store);
      hide PointersTo, Balanced, OtherOwner, Released, Entries, Store.Matches;
      if d.ref != 1 {
        DetachHelper(store);
      }
    }

    lemma Owned(store: Store)
      requires In(store)
      ensures d in store.refs && store.targets == store.targets[this := d]
      ensures d.ref == 1 ==> !OtherOwner(store.targets, store.sharedNull, this)
    {
      assert store.targets[this] == d;
      assert d in store.refs;
      LastOwner(store.targets, store.refs, store.sharedNull, this);
    }

    method DetachHelper(store: Store)
      requires In(store) && d.ref != 1
      modifies this, store, d`ref
      ensures In(store) && !OtherOwner(store.targets, store.sharedNull, this) && fresh(d)
      ensures store.targets == old(store.targets)[this := d]
      ensures store.refs.Keys == old(store.refs.Keys) + {d}
      ensures d.base == old(d.base) && d.other == old(d.other)
    {
      var p := d;
      var copy := new Block(p.base, p.other);
      BalanceDetached(store, copy);
      hide PointersTo, Balanced, OtherOwner, Released, Store.Matches;
      store.Release(p);
      MoveTo(store, copy);
      assert store.sharedNull.base == "" && store.sharedNull.other == map[];
      assert Balanced(store.targets, store.refs, store.sharedNull);
      assert store.Valid();
    }

    method MoveTo(store: Store, copy: Block)
      requires store.Matches() && copy !in store.refs && copy.ref == 1 && "" !in copy.other
      modifies this`d, store`refs, store`targets
      ensures store.Matches() && d == copy
      ensures store.refs == old(store.refs)[copy := 1] && store.targets == old(store.targets)[this := copy]
    {
      d := copy;
      store.refs := store.refs[copy := 1];
      store.targets := store.targets[this := copy];
    }

    /** What moving to a new block makes of the counts. */
    lemma BalanceDetached(store: Store, copy: Block)
      requires In(store) && d.ref != 1 && copy !in store.refs
      ensures store.targets[this] == d && d in store.refs && "" !in d.other
      ensures Released(store.refs, d).Keys == store.refs.Keys
      ensures var targets, refs := store.targets[this := copy], Released(store.refs, d)[copy := 1];
              Balanced(targets, refs, store.sharedNull) && !OtherOwner(targets, store.sharedNull, this)
    {
      BalanceDetach(store.targets, store.refs, store.sharedNull, this, copy);
      LastOwner(store.targets[this := copy], Released(store.refs, d)[copy := 1], store.sharedNull, this);
    }

    /** The other handles point where they did and mean what they meant. */
    twostate predicate OthersKept(store: Store)
      reads *
    {
      forall h :: h in old(store.targets) && h != this ==> h.d == old(h.d) && h.Value() == old(h.Value())
    }

    /** A write through one handle changes no other handle, and never the shared null. */
    method Insert(store: Store, lang: string, value: string)
      requires In(store)
      modifies this, store, d
      ensures In(store) && store.targets == old(store.targets)[this := d]
      ensures Value() == if lang == "" && value == "" then old(Value()) - {""} else old(Value())[lang := value]
      ensures OthersKept(store)
    {
      assert d in store.refs;
      hide PointersTo, Balanced, OtherOwner, Entries, Store.Matches;
      Detach(store);
      Put(store, lang, value);
    }

    /** The write itself, to a block of its own. */
    method Put(store: Store, lang: string, value: string)
      requires In(store) && !OtherOwner(store.targets, store.sharedNull, this)
      modifies d`base, d`other
      ensures In(store)
      ensures Value() == if lang == "" && value == "" then old(Value()) - {""} else old(Value())[lang := value]
      ensures OthersKept(store)
    {
      OwnBlock(store);
      hide PointersTo, Balanced;
      if lang == "" {
        d.base := value;
      } else {
        d.other := d.other[lang := value];
      }
    }

    /** The mutable operator[]: a missing language gets an empty text. */
    method At(store: Store, lang: string) returns (text: string)
      requires In(store)
      modifies this, store, d
      ensures In(store) && store.targets == old(store.targets)[this := d]
      ensures text == if lang in old(Value()) then old(Value())[lang] else ""
      ensures Value() == if lang == "" || lang in old(Value()) then old(Value()) else old(Value())[lang := ""]
      ensures OthersKept(store)
    {
      assert d in store.refs;
      hide PointersTo, Balanced, OtherOwner, Entries, Store.Matches;
      Detach(store);
      text := Entry(store, lang);
    }

    /** The entry of a block of its own, made if it is missing. */
    method Entry(store: Store, lang: string) returns (text: string)
      requires In(store) && !OtherOwner(store.targets, store.sharedNull, this)
      modifies d`base, d`other
      ensures In(store)
      ensures text == if lang in old(Value()) then old(Value())[lang] else ""
      ensures Value() == if lang == "" || lang in old(Value()) then old(Value()) else old(Value())[lang := ""]
      ensures OthersKept(store)
    {
      OwnBlock(store);
      hide PointersTo, Balanced, OtherOwner;
      assert "" !in d.other;
      if lang == "" {
        text := d.base;
      } else if lang in d.other {
        text := d.other[lang];
      } else {
        Put(store, lang, "");
        text := "";
      }
    }

    /** A write through the reference to a base text that the mutable operator[] has returned, at any time
        while its block lives: every handle that points to the block by then means the new text. */
    static method WriteThrough(store: Store, block: Block, text: string)
      requires store.Valid() && block in store.refs && block != store.sharedNull
      modifies block`base
      ensures store.Valid() && block.base == text
      ensures forall h :: h in store.targets ==>
                h.Value() == if h.d == block then Entries(text, block.other) else old(h.Value())
    {
      hide Balanced;
      block.base := text;
    }

    /** Such a write stays private to the handle exactly if nobody else counts on the block by then, so
        not after a copy of the map that has not been written to since. */
    lemma WritesThroughArePrivate(store: Store)
      requires In(store) && d != store.sharedNull
      ensures (forall h :: h in store.targets && h != this ==> h.d != d) <==> d.ref == 1
    {
      LastOwner(store.targets, store.refs, store.sharedNull, this);
    }

    lemma OwnBlock(store: Store)
      requires In(store) && !OtherOwner(store.targets, store.sharedNull, this)
      ensures d in store.refs && forall h :: h in store.targets && h != this ==> h.d != d
    {
    }

    method Clear(store: Store)
      requires In(store)
      modifies this, store, d`ref, store.sharedNull`ref
      ensures In(store) && Value() == map[] && store.targets == old(store.targets)[this := store.sharedNull]
    {
      hide PointersTo, Balanced, OtherOwner;
      var temporary := new LangMap.Null(store);
      Assign(store, temporary);
      temporary.Destroy(store);
      TemporaryGone(old(store.targets), temporary, this, store.sharedNull);
    }

    // -------------------------------------------------------------- queries

    method Contains(store: Store, lang: string) returns (r: bool)
      requires In(store)
      ensures r <==> lang in Value()
    {
      assert "" !in d.other;
      r := if lang == "" then d.base != "" else lang in d.other;
    }

    method Size(store: Store) returns (n: int)
      requires In(store)
      ensures n == |Value()|
    {
      assert "" !in d.other;
      n := |d.other| + if d.base == "" then 0 else 1;
    }

    /** Every language once, in no particular order except that the base text comes last. */
    method Langs(store: Store) returns (langs: seq<string>)
      requires In(store)
      ensures forall l :: l in langs <==> l in Value()
      ensures |langs| == |Value()|
    {
      assert "" !in d.other;
      hide PointersTo, Balanced;
      langs := [];
      var keys := d.other.Keys;
      while keys != {}
        invariant keys <= d.other.Keys
        invariant forall l :: l in langs <==> l in d.other.Keys - keys
        invariant |langs| + |keys| == |d.other.Keys|
        decreases |keys|
      {
        var l :| l in keys;
        langs := langs + [l];
        keys := keys - {l};
      }
      if d.base != "" {
        langs := langs + [""];
      }
    }

    /** The text for a language, or the base text if there is none for it. */
    method Lookup(store: Store, lang: string) returns (text: string)
      requires In(store)
      ensures text == if lang in Value() then Value()[lang] else if "" in Value() then Value()[""] else ""
    {
      assert "" !in d.other;
      if lang != "" {
        if lang in d.other {
          return d.other[lang];
        }
      }
      text := d.base;
    }

    method Equals(store: Store, other: LangMap) returns (r: bool)
      requires In(store) && other.In(store)
      ensures r <==> Value() == other.Value()
    {
      r := d == other.d || (d.base == other.d.base && d.other == other.d.other);
      EntriesAreInjective(d.base, d.other, other.d.base, other.d.other);
    }
  }

  /** Base text and language table are determined by what the handle means. */
  lemma EntriesAreInjective(base: string, other: map<string, string>, base': string, other': map<string, string>)
    requires "" !in other && "" !in other'
    ensures Entries(base, other) == Entries(base', other') <==> base == base' && other == other'
  {
    var e, e' := Entries(base, other), Entries(base', other');
    assert other == e - {""} && other' == e' - {""};
    assert base == if "" in e then e[""] else "";
    assert base' == if "" in e' then e'[""] else "";
  }
}
