/**
 The privacy list payload of XEP-0016 (PrivacyQueryFactory): an event-driven parser in which a new
 item starts as a copy of the previous one, and a printer of nested loops with bit flags.
 */
module PrivacyQuery {
  import opened Bytes
  import opened Wrappers
  import opened XmlTree
  import J = Jid

  const NS_PRIVACY := "jabber:iq:privacy"
  const TYPES: seq<string> := ["jid", "group", "subscription"]
  const ACTIONS: seq<string> := ["deny", "allow"]
  const SUBSCRIPTIONS: seq<string> := ["from", "to", "both", "remove", "none"]
  const STANZAS: seq<string> := ["message", "presence-in", "presence-out", "iq"]

  /** What an item matches. Subscriptions are enumeration values, -1 being the invalid one. */
  datatype Rule = All | ByJid(jid: J.Jid) | ByGroup(group: string) | BySubscription(subscription: int)

  /** A privacy item. The order is an unsigned 32-bit number, the stanza types are four bits. */
  datatype Item = Item(rule: Rule, action: int, order: int, types: bv4)

  datatype List = List(name: string, items: seq<Item>)

  /** A query; an absent list name is a null string. */
  datatype Query = Query(active: Option<string>, default: Option<string>, lists: seq<List>)

  const NO_ITEM := Item(All, 0, 0, 0)
  const NO_QUERY := Query(None, None, [])

  // ---------------------------------------------------------------- enumerations and numbers

  function StrToEnum(s: string, names: seq<string>): (i: int)
    ensures -1 <= i < |names|
    ensures i == -1 ==> s !in names
    ensures i != -1 ==> names[i] == s && s !in names[..i]
  {
    if names == [] then -1
    else if names[0] == s then 0
    else
      var i := StrToEnum(s, names[1..]);
      assert i != -1 ==> names[..i + 1] == [names[0]] + names[1..][..i];
      if i == -1 then -1 else i + 1
  }

  function EnumToStr(i: int, names: seq<string>): string {
    if 0 <= i < |names| then names[i] else ""
  }

  predicate Names(names: seq<string>) {
    "" !in names && forall i, j :: 0 <= i < j < |names| ==> names[i] != names[j]
  }

  lemma EnumRoundTrips(i: int, names: seq<string>)
    requires Names(names) && -1 <= i < |names|
    ensures StrToEnum(EnumToStr(i, names), names) == i
  {
  }

  /** The tables hold different, non-empty names. */
  lemma TablesAreNames()
    ensures Names(TYPES) && Names(ACTIONS) && Names(SUBSCRIPTIONS) && Names(STANZAS)
  {
  }

  function Digit(d: nat): char
    requires d < 10
  {
    '0' + d as char
  }

  /** QString::number for an unsigned number. */
  function Decimal(n: nat): string {
    if n < 10 then [Digit(n)] else Decimal(n / 10) + [Digit(n % 10)]
  }

  predicate AllDigits(s: string) {
    forall i :: 0 <= i < |s| ==> '0' <= s[i] <= '9'
  }

  function DigitsValue(s: string): nat
    requires AllDigits(s)
  {
    if s == "" then 0
    else
      DigitsValue(s[..|s| - 1]) * 10 + (s[|s| - 1] - '0') as nat
  }

  const INT_MAX := 0x7fff_ffff
  const UINT_RANGE := 0x1_0000_0000

  /** QString::toInt: 0 for anything that is not a signed 32-bit number, with white space around it. */
  function ToInt(text: string): int {
    var s := Trimmed(text);
    var negative := s != "" && s[0] == '-';
    var digits := if s != "" && (s[0] == '-' || s[0] == '+') then s[1..] else s;
    if digits == "" || !AllDigits(digits) then 0
    else
      var v: int := DigitsValue(digits);
      if negative then (if v <= INT_MAX + 1 then -v else 0) else (if v <= INT_MAX then v else 0)
  }

  /** The conversion to the unsigned order. */
  function OrderOf(s: string): int {
    ToInt(s) % UINT_RANGE
  }

  lemma {:induction false} DecimalIsDigits(n: nat)
    ensures Decimal(n) != "" && AllDigits(Decimal(n)) && DigitsValue(Decimal(n)) == n
    ensures Trimmed(Decimal(n)) == Decimal(n)
  {
    if n < 10 {
      assert Decimal(n)[..0] == "";
    } else {
      DecimalIsDigits(n / 10);
      var s := Decimal(n);
      assert s[..|s| - 1] == Decimal(n / 10);
      assert AllDigits(s);
    }
  }

  /** An order survives printing and parsing exactly if it is a signed number. */
  lemma {:induction false} OrderRoundTrips(n: nat)
    requires n < UINT_RANGE
    ensures OrderOf(Decimal(n)) == if n <= INT_MAX then n else 0
  {
    DecimalIsDigits(n);
  }

  predicate White(s: string) {
    forall i :: 0 <= i < |s| ==> s[i] == ' ' || 9 <= s[i] as int <= 13
  }

  lemma {:induction false} TrimmedCore(left: string, core: string, right: string)
    requires White(left) && White(right) && core != "" && !IsSpace(core[0]) && !IsSpace(core[|core| - 1])
    ensures Trimmed(left + core + right) == core
    decreases |left| + |right|
  {
    var s := left + core + right;
    if left != "" {
      assert s[1..] == left[1..] + core + right && s[0] == left[0];
      TrimmedCore(left[1..], core, right);
    } else if right != "" {
      var n := |right| - 1;
      assert s[0] == core[0] && s[|s| - 1] == right[n];
      assert s[..|s| - 1] == left + core + right[..n];
      TrimmedCore(left, core, right[..n]);
    } else {
      assert s == core;
    }
  }

  /** A received order: a decimal number with an optional sign and white space around it. Negative ones
      wrap to unsigned ones, those that are no signed 32-bit numbers count as 0. */
  lemma {:induction false} OrderFromText(left: string, sign: string, n: nat, right: string)
    requires White(left) && White(right) && sign in ["", "+", "-"]
    ensures OrderOf(left + (sign + Decimal(n)) + right) ==
              if sign != "-" then (if n <= 0x7fff_ffff then n else 0)
              else if 0 < n <= 0x8000_0000 then 0x1_0000_0000 - n else 0
  {
    hide Trimmed, Decimal, DigitsValue;
    DecimalIsDigits(n);
    var core := sign + Decimal(n);
    assert core[|core| - 1] == Decimal(n)[|Decimal(n)| - 1];
    assert sign == "" ==> core == Decimal(n);
    assert sign != "" ==> core[0] == sign[0] && core[1..] == Decimal(n);
    TrimmedCore(left, core, right);
  }

  // ---------------------------------------------------------------- printing

  function Flag(k: nat): bv4
    requires k < 4
  {
    if k == 0 then 1 else if k == 1 then 2 else if k == 2 then 4 else 8
  }

  function EmptyElement(name: string, attributes: Attributes): seq<Event> {
    [Start(name, NS_PRIVACY, attributes), End]
  }

  function TypeOf(rule: Rule): int {
    match rule
    case All => -1
    case ByJid(_) => 0
    case ByGroup(_) => 1
    case BySubscription(_) => 2
  }

  function ValueOf(rule: Rule): string {
    match rule
    case All => ""
    case ByJid(jid) => jid.full
    case ByGroup(group) => group
    case BySubscription(s) => EnumToStr(s, SUBSCRIPTIONS)
  }

  function ItemAttributes(item: Item): Attributes {
    (if item.rule.All? then map[]
     else map["type" := EnumToStr(TypeOf(item.rule), TYPES), "value" := ValueOf(item.rule)])
    + map["action" := EnumToStr(item.action, ACTIONS), "order" := Decimal(if item.order < 0 then 0 else item.order)]
  }

  /** One empty element for every bit from the k-th on. */
  function PrintTypes(types: bv4, k: nat): seq<Event>
    requires k <= 4
    decreases 4 - k
  {
    if k == 4 then []
    else (if types & Flag(k) != 0 then EmptyElement(STANZAS[k], map[]) else []) + PrintTypes(types, k + 1)
  }

  function PrintItem(item: Item): seq<Event> {
    [Start("item", NS_PRIVACY, ItemAttributes(item))] + PrintTypes(item.types, 0) + [End]
  }

  function PrintItems(items: seq<Item>): seq<Event> {
    if items == [] then [] else PrintItem(items[0]) + PrintItems(items[1..])
  }

  function PrintList(list: List): seq<Event> {
    [Start("list", NS_PRIVACY, map["name" := list.name])] + PrintItems(list.items) + [End]
  }

  function PrintLists(lists: seq<List>): seq<Event> {
    if lists == [] then [] else PrintList(lists[0]) + PrintLists(lists[1..])
  }

  function PrintName(element: string, name: Option<string>): seq<Event> {
    if name.None? then []
    else EmptyElement(element, if name.value == "" then map[] else map["name" := name.value])
  }

  function Print(q: Query): seq<Event> {
    [Start("query", NS_PRIVACY, map[])]
    + (PrintName("active", q.active) + (PrintName("default", q.default) + (PrintLists(q.lists) + [End])))
  }

  // ---------------------------------------------------------------- parsing

  datatype Mode = AtNowhere | AtList | AtItem

  datatype State = State(depth: int, mode: Mode, query: Query, name: string, items: seq<Item>)

  function Get(attributes: Attributes, name: string): string {
    if name in attributes then attributes[name] else ""
  }

  function Lookup(attributes: Attributes, name: string): Option<string> {
    if name in attributes then Some(attributes[name]) else None
  }

  /** A new item, started as a copy of `previous`. */
  function ParseItem(previous: Item, attributes: Attributes, prep: J.Prep): Item {
    var data := Get(attributes, "value");
    var given := StrToEnum(Get(attributes, "type"), TYPES);
    var kind := if given == -1 && data != "" then TypeOf(previous.rule) else given;
    var rule := if kind == 0 then ByJid(J.Parse(data, prep))
                else if kind == 1 then ByGroup(data)
                else if kind == 2 then BySubscription(StrToEnum(data, SUBSCRIPTIONS))
                else All;
    Item(rule, StrToEnum(Get(attributes, "action"), ACTIONS), OrderOf(Get(attributes, "order")), 0)
  }

  function Last(items: seq<Item>): Item {
    if items == [] then NO_ITEM else items[|items| - 1]
  }

  function StartElement(s: State, name: string, attributes: Attributes, prep: J.Prep): State {
    var d := s.depth + 1;
    var s1 := s.(depth := d);
    if d == 1 then s1.(query := NO_QUERY)
    else if d == 2 then
      if name == "list" then s1.(mode := AtList, name := Get(attributes, "name"))
      else if name == "active" then s1.(query := s.query.(active := Lookup(attributes, "name")))
      else if name == "default" then s1.(query := s.query.(default := Lookup(attributes, "name")))
      else s1
    else if d == 3 && s.mode == AtList && name == "item" then
      s1.(mode := AtItem, items := s.items + [ParseItem(Last(s.items), attributes, prep)])
    else if d == 4 && s.mode == AtItem then
      var k := StrToEnum(name, STANZAS);
      if k == -1 || s.items == [] then s1
      else
        var item := Last(s.items);
        s1.(items := s.items[..|s.items| - 1] + [item.(types := item.types | Flag(k))])
    else s1
  }

  function EndElement(s: State): State {
    var s1 :=
      if s.depth == 2 && s.mode == AtList then
        var lists := s.query.lists + [List(s.name, s.items)];
        s.(mode := AtNowhere, query := s.query.(lists := lists), name := "", items := [])
      else if s.depth == 3 && s.mode == AtItem then s.(mode := AtList)
      else s;
    s1.(depth := s.depth - 1)
  }

  function Step(s: State, ev: Event, prep: J.Prep): State {
    match ev
    case Start(name, _, attributes) => StartElement(s, name, attributes, prep)
    case Characters(_) => s
    case End => EndElement(s)
  }

  function Run(s: State, evs: seq<Event>, prep: J.Prep): State
    decreases |evs|
  {
    if evs == [] then s else Run(Step(s, evs[0], prep), evs[1..], prep)
  }

  predicate Idle(s: State) {
    s.depth == 0 && s.mode == AtNowhere && s.items == [] && s.name == ""
  }

  // ---------------------------------------------------------------- the class

  class PrivacyQueryFactory {
    const prep: J.Prep
    var depth: int
    var state: Mode
    var query: Query
    var name: string
    var items: seq<Item>

    ghost function Abs(): State
      reads this
    {
      State(depth, state, query, name, items)
    }

    /** Inside an item there is an item. */
    ghost predicate Valid()
      reads this
    {
      state == AtItem ==> items != []
    }

    constructor (prep: J.Prep)
      ensures Valid() && Idle(Abs()) && this.prep == prep
    {
      this.prep := prep;
      depth, state, query, name, items := 0, AtNowhere, NO_QUERY, "", [];
    }

    method HandleStartElement(element: string, attributes: Attributes)
      requires Valid()
      modifies this
      ensures Valid() && Abs() == StartElement(old(Abs()), element, attributes, prep)
    {
      hide StrToEnum, ParseItem, Get, Lookup, Flag;
      depth := depth + 1;
      if depth == 1 {
        query := NO_QUERY;
      }
      if depth == 2 {
        if element == "list" {
          state := AtList;
          name := Get(attributes, "name");
        } else if element == "active" {
          query := query.(active := Lookup(attributes, "name"));
        } else if element == "default" {
          query := query.(default := Lookup(attributes, "name"));
        }
      } else if depth == 3 && state == AtList && element == "item" {
        NewItem(attributes);
      } else if depth == 4 && state == AtItem {
        var data := StrToEnum(element, STANZAS);
        if data == -1 {
          return;
        }
        var item := items[|items| - 1];
        items := items[..|items| - 1] + [item.(types := item.types | Flag(data))];
      }
    }

    /** A new item, started as a copy of the last one. */
    method NewItem(attributes: Attributes)
      modifies `items, `state
      ensures state == AtItem && items == old(items) + [ParseItem(Last(old(items)), attributes, prep)]
    {
      hide StrToEnum, OrderOf, Last;
      state := AtItem;
      var item := Last(items);
      var data := Get(attributes, "value");
      var kind := StrToEnum(Get(attributes, "type"), TYPES);
      if kind == -1 && data != "" {
        kind := TypeOf(item.rule);
      }
      if kind == 0 {
        item := item.(rule := ByJid(J.Parse(data, prep)));
      } else if kind == 1 {
        item := item.(rule := ByGroup(data));
      } else if kind == 2 {
        item := item.(rule := BySubscription(StrToEnum(data, SUBSCRIPTIONS)));
      } else {
        item := NO_ITEM;
      }
      data := Get(attributes, "action");
      item := item.(action := StrToEnum(data, ACTIONS));
      item := item.(order := OrderOf(Get(attributes, "order")));
      item := item.(types := 0);
      items := items + [item];
    }

    method HandleEndElement()
      requires Valid()
      modifies this
      ensures Valid() && Abs() == EndElement(old(Abs()))
    {
      if depth == 2 && state == AtList {
        state := AtNowhere;
        query := query.(lists := query.lists + [List(name, items)]);
        name := "";
        items := [];
      } else if depth == 3 && state == AtItem {
        state := AtList;
      }
      depth := depth - 1;
    }

    /** PrivacyQueryFactory::serialize, with the events of what it writes. */
    method Serialize(q: Query) returns (output: seq<Event>)
      requires forall l :: l in q.lists ==> forall i :: i in l.items ==> 0 <= i.order
      ensures output == Print(q)
    {
      hide EmptyElement, PrintList;
      var head := [Start("query", NS_PRIVACY, map[])];
      if q.active.Some? {
        head := head + EmptyElement("active", if q.active.value == "" then map[] else map["name" := q.active.value]);
      }
      if q.default.Some? {
        head := head + EmptyElement("default", if q.default.value == "" then map[] else map["name" := q.default.value]);
      }
      assert head ==
        [Start("query", NS_PRIVACY, map[])] + (PrintName("active", q.active) + PrintName("default", q.default));
      var lists := SerializeLists(q.lists);
      output := head + lists + [End];
      PrintSplit(q);
    }

    method SerializeLists(lists: seq<List>) returns (output: seq<Event>)
      requires forall l :: l in lists ==> forall i :: i in l.items ==> 0 <= i.order
      ensures output == PrintLists(lists)
    {
      hide PrintList;
      output := [];
      assert lists[0..] == lists;
      for i := 0 to |lists|
        invariant output + PrintLists(lists[i..]) == PrintLists(lists)
      {
        assert lists[i..][0] == lists[i] && lists[i..][1..] == lists[i + 1..];
        assert lists[i] in lists;
        var list := SerializeList(lists[i]);
        assert output + (list + PrintLists(lists[i + 1..])) == output + list + PrintLists(lists[i + 1..]);
        output := output + list;
      }
      assert lists[|lists|..] == [];
      assert output + [] == output;
    }

    method SerializeList(list: List) returns (output: seq<Event>)
      requires forall i :: i in list.items ==> 0 <= i.order
      ensures output == PrintList(list)
    {
      var head := [Start("list", NS_PRIVACY, map["name" := list.name])];
      output := [];
      assert list.items[0..] == list.items;
      for j := 0 to |list.items|
        invariant output + PrintItems(list.items[j..]) == PrintItems(list.items)
      {
        assert list.items[j..][0] == list.items[j] && list.items[j..][1..] == list.items[j + 1..];
        assert list.items[j] in list.items;
        var item := SerializeItem(list.items[j]);
        assert output + (item + PrintItems(list.items[j + 1..])) == output + item + PrintItems(list.items[j + 1..]);
        output := output + item;
      }
      assert list.items[|list.items|..] == [];
      assert output + [] == output;
      output := head + output + [End];
    }

    method SerializeItem(item: Item) returns (output: seq<Event>)
      requires 0 <= item.order
      ensures output == PrintItem(item)
    {
      var value := "";
      match item.rule {
        case All =>
        case ByJid(jid) => value := jid.full;
        case ByGroup(group) => value := group;
        case BySubscription(s) => value := EnumToStr(s, SUBSCRIPTIONS);
      }
      hide EmptyElement, Decimal, EnumToStr, Flag;
      var attributes: Attributes := map[];
      if !item.rule.All? {
        attributes := attributes["type" := EnumToStr(TypeOf(item.rule), TYPES)]["value" := value];
      }
      attributes := attributes["action" := EnumToStr(item.action, ACTIONS)]["order" := Decimal(item.order)];
      assert attributes == ItemAttributes(item);
      var head := [Start("item", NS_PRIVACY, attributes)];
      output := [];
      for k := 0 to 4
        invariant output + PrintTypes(item.types, k) == PrintTypes(item.types, 0)
      {
        if item.types & Flag(k) != 0 {
          assert output + (EmptyElement(STANZAS[k], map[]) + PrintTypes(item.types, k + 1))
              == output + EmptyElement(STANZAS[k], map[]) + PrintTypes(item.types, k + 1);
          output := output + EmptyElement(STANZAS[k], map[]);
        } else {
          assert [] + PrintTypes(item.types, k + 1) == PrintTypes(item.types, k + 1);
        }
      }
      assert output + [] == output;
      output := head + output + [End];
    }
  }

  lemma PrintSplit(q: Query)
    ensures [Start("query", NS_PRIVACY, map[])] + (PrintName("active", q.active) + PrintName("default", q.default))
            + PrintLists(q.lists) + [End] == Print(q)
  {
  }

  // ---------------------------------------------------------------- the names on the wire

  /** A printed item, name by name. */
  lemma ItemOnTheWire(item: Item)
    requires WellTyped(item)
    ensures var start := Start("item", "jabber:iq:privacy", ItemAttributes(item));
            PrintItem(item) ==
              [start]
              + (if item.types & 1 != 0 then [Start("message", "jabber:iq:privacy", map[]), End] else [])
              + (if item.types & 2 != 0 then [Start("presence-in", "jabber:iq:privacy", map[]), End] else [])
              + (if item.types & 4 != 0 then [Start("presence-out", "jabber:iq:privacy", map[]), End] else [])
              + (if item.types & 8 != 0 then [Start("iq", "jabber:iq:privacy", map[]), End] else []) + [End]
    ensures var a := ItemAttributes(item);
            && a.Keys == (if item.rule.All? then {"action", "order"} else {"type", "value", "action", "order"})
            && (item.action == 0 ==> a["action"] == "deny") && (item.action == 1 ==> a["action"] == "allow")
            && (item.action == -1 ==> a["action"] == "")
            && (item.rule.ByJid? ==> a["type"] == "jid" && a["value"] == item.rule.jid.full)
            && (item.rule.ByGroup? ==> a["type"] == "group" && a["value"] == item.rule.group)
            && (item.rule.BySubscription? ==> a["type"] == "subscription")
            && (item.rule.BySubscription? && item.rule.subscription >= 0 ==>
                  a["value"] == ["from", "to", "both", "remove", "none"][item.rule.subscription])
  {
    hide EnumToStr, Decimal;
    PrintedTypes(item.types);
    PrintedEnums(item);
  }

  lemma PrintedTypes(types: bv4)
    ensures PrintTypes(types, 0) ==
              (if types & 1 != 0 then [Start("message", "jabber:iq:privacy", map[]), End] else [])
              + (if types & 2 != 0 then [Start("presence-in", "jabber:iq:privacy", map[]), End] else [])
              + (if types & 4 != 0 then [Start("presence-out", "jabber:iq:privacy", map[]), End] else [])
              + (if types & 8 != 0 then [Start("iq", "jabber:iq:privacy", map[]), End] else [])
  {
  }

  lemma PrintedEnums(item: Item)
    ensures EnumToStr(0, ACTIONS) == "deny" && EnumToStr(1, ACTIONS) == "allow" && EnumToStr(-1, ACTIONS) == ""
    ensures EnumToStr(0, TYPES) == "jid" && EnumToStr(1, TYPES) == "group" && EnumToStr(2, TYPES) == "subscription"
    ensures item.rule.BySubscription? && 0 <= item.rule.subscription < 5 ==>
              EnumToStr(item.rule.subscription, SUBSCRIPTIONS) ==
                ["from", "to", "both", "remove", "none"][item.rule.subscription]
  {
  }

  /** A received item, name by name: with no type of its own but a value it takes the type of the item
      before it, and with neither it matches everything. */
  lemma ItemOffTheWire(previous: Item, attributes: Attributes, prep: J.Prep)
    ensures var item := ParseItem(previous, attributes, prep);
            var value := if "value" in attributes then attributes["value"] else "";
            var given := if "type" in attributes then attributes["type"] else "";
            var copied := given !in ["jid", "group", "subscription"] && value != "";
            && (given == "jid" || (copied && previous.rule.ByJid?) ==> item.rule == ByJid(J.Parse(value, prep)))
            && (given == "group" || (copied && previous.rule.ByGroup?) ==> item.rule == ByGroup(value))
            && (given == "subscription" || (copied && previous.rule.BySubscription?) ==>
                  item.rule.BySubscription?
                  && if value !in ["from", "to", "both", "remove", "none"] then item.rule.subscription == -1
                     else 0 <= item.rule.subscription < 5
                          && ["from", "to", "both", "remove", "none"][item.rule.subscription] == value)
            && (given !in ["jid", "group", "subscription"] && (value == "" || previous.rule.All?) ==>
                  item.rule == All)
    ensures var item := ParseItem(previous, attributes, prep);
            var action := if "action" in attributes then attributes["action"] else "";
            && item.types == 0
            && item.action == if action == "deny" then 0 else if action == "allow" then 1 else -1
  {
    hide OrderOf;
  }

  // ---------------------------------------------------------------- what comes back

  function RereadRule(rule: Rule, prep: J.Prep): Rule {
    if rule.ByJid? then ByJid(J.Parse(rule.jid.full, prep)) else rule
  }

  function RereadItem(item: Item, prep: J.Prep): Item {
    item.(rule := RereadRule(item.rule, prep), order := if item.order <= INT_MAX then item.order else 0)
  }

  function RereadItems(items: seq<Item>, prep: J.Prep): seq<Item> {
    if items == [] then [] else [RereadItem(items[0], prep)] + RereadItems(items[1..], prep)
  }

  function RereadLists(lists: seq<List>, prep: J.Prep): seq<List> {
    if lists == [] then []
    else [List(lists[0].name, RereadItems(lists[0].items, prep))] + RereadLists(lists[1..], prep)
  }

  function RereadName(name: Option<string>): Option<string> {
    if name == Some("") then None else name
  }

  function Reread(q: Query, prep: J.Prep): Query {
    Query(RereadName(q.active), RereadName(q.default), RereadLists(q.lists, prep))
  }

  /** Enumerations in range, orders of 32 bits. */
  predicate WellTyped(item: Item) {
    && -1 <= item.action < |ACTIONS| && 0 <= item.order < UINT_RANGE
    && (item.rule.BySubscription? ==> -1 <= item.rule.subscription < |SUBSCRIPTIONS|)
  }

  predicate WellTypedQuery(q: Query) {
    forall l :: l in q.lists ==> forall i :: i in l.items ==> WellTyped(i)
  }

  lemma {:induction false} RunAppend(s: State, a: seq<Event>, b: seq<Event>, prep: J.Prep)
    ensures Run(s, a + b, prep) == Run(Run(s, a, prep), b, prep)
    decreases |a|
  {
    hide Step;
    if a == [] {
      assert a + b == b;
    } else {
      assert (a + b)[1..] == a[1..] + b;
      RunAppend(Step(s, a[0], prep), a[1..], b, prep);
    }
  }

  lemma RunOne(s: State, ev: Event, prep: J.Prep)
    ensures Run(s, [ev], prep) == Step(s, ev, prep)
  {
  }

  lemma RunEmptyElement(s: State, name: string, attributes: Attributes, prep: J.Prep)
    ensures Run(s, EmptyElement(name, attributes), prep) == EndElement(StartElement(s, name, attributes, prep))
  {
    hide Run, StartElement, EndElement;
    var a, b := Start(name, NS_PRIVACY, attributes), End;
    assert EmptyElement(name, attributes) == [a] + [b];
    RunAppend(s, [a], [b], prep);
    RunOne(s, a, prep);
    RunOne(StartElement(s, name, attributes, prep), b, prep);
  }

  /** The bits from the k-th on. */
  function HighBits(types: bv4, k: nat): bv4
    requires k <= 4
  {
    types & (if k == 0 then 15 else if k == 1 then 14 else if k == 2 then 12 else if k == 3 then 8 else 0)
  }

  lemma BitsStep(types: bv4, k: nat)
    requires k < 4
    ensures HighBits(types, k) == (if types & Flag(k) != 0 then Flag(k) else 0) | HighBits(types, k + 1)
  {
  }

  lemma OrAssociates(a: bv4, b: bv4, c: bv4)
    ensures (a | b) | c == a | (b | c) && a | 0 == a && 0 | a == a
  {
  }

  lemma AllBits(types: bv4)
    ensures HighBits(types, 0) == types && HighBits(types, 4) == 0
  {
  }

  /** Reading the stanza elements of an item ORs their bits into it. */
  lemma {:induction false} RunTypes(s: State, types: bv4, k: nat, prep: J.Prep)
    requires k <= 4 && s.depth == 3 && s.mode == AtItem && s.items != []
    ensures Run(s, PrintTypes(types, k), prep) == WithTypes(s, Last(s.items).types | HighBits(types, k))
    decreases 4 - k
  {
    hide StartElement, EndElement, EmptyElement, HighBits, Flag, Last;
    var item := Last(s.items);
    AllBits(types);
    OrAssociates(item.types, 0, 0);
    if k == 4 {
      LastOf(s.items);
    } else {
      BitsStep(types, k);
      var rest := PrintTypes(types, k + 1);
      if types & Flag(k) != 0 {
        RunAppend(s, EmptyElement(STANZAS[k], map[]), rest, prep);
        RunEmptyElement(s, STANZAS[k], map[], prep);
        RunType(s, k, prep);
        var s1 := WithTypes(s, item.types | Flag(k));
        RunTypes(s1, types, k + 1, prep);
        OrAssociates(item.types, Flag(k), HighBits(types, k + 1));
        WithTypesTwice(s, item.types | Flag(k), item.types | Flag(k) | HighBits(types, k + 1));
      } else {
        assert [] + rest == rest;
        RunTypes(s, types, k + 1, prep);
        OrAssociates(HighBits(types, k + 1), 0, 0);
      }
    }
  }

  /** The state with other stanza types in the last item. */
  function WithTypes(s: State, types: bv4): State
    requires s.items != []
  {
    s.(items := s.items[..|s.items| - 1] + [Last(s.items).(types := types)])
  }

  lemma WithTypesTwice(s: State, a: bv4, b: bv4)
    requires s.items != []
    ensures WithTypes(WithTypes(s, a), b) == WithTypes(s, b)
    ensures Last(WithTypes(s, a).items).types == a
  {
  }

  lemma LastOf(items: seq<Item>)
    requires items != []
    ensures items == items[..|items| - 1] + [Last(items)]
    ensures Last(items).(types := Last(items).types) == Last(items)
  {
  }

  lemma RunType(s: State, k: nat, prep: J.Prep)
    requires k < 4 && s.depth == 3 && s.mode == AtItem && s.items != []
    ensures EndElement(StartElement(s, STANZAS[k], map[], prep)) == WithTypes(s, Last(s.items).types | Flag(k))
  {
  }

  /** An item is read back whatever item came before it. */
  lemma {:induction false} ItemReread(previous: Item, item: Item, prep: J.Prep)
    requires WellTyped(item)
    ensures ParseItem(previous, ItemAttributes(item), prep) == RereadItem(item, prep).(types := 0)
  {
    hide StrToEnum, EnumToStr, Decimal, OrderOf, Names;
    TablesAreNames();
    var attributes := ItemAttributes(item);
    assert Get(attributes, "action") == EnumToStr(item.action, ACTIONS);
    assert Get(attributes, "order") == Decimal(item.order);
    EnumRoundTrips(item.action, ACTIONS);
    OrderRoundTrips(item.order);
    if item.rule.All? {
      assert Get(attributes, "type") == "" && Get(attributes, "value") == "";
      NoSuchName(TYPES);
    } else {
      assert Get(attributes, "type") == EnumToStr(TypeOf(item.rule), TYPES);
      assert Get(attributes, "value") == ValueOf(item.rule);
      EnumRoundTrips(TypeOf(item.rule), TYPES);
      if item.rule.BySubscription? {
        EnumRoundTrips(item.rule.subscription, SUBSCRIPTIONS);
      }
    }
  }

  lemma NoSuchName(names: seq<string>)
    requires Names(names)
    ensures StrToEnum("", names) == -1
  {
  }

  lemma {:induction false} RunItem(s: State, item: Item, prep: J.Prep)
    requires s.depth == 2 && s.mode == AtList && WellTyped(item)
    ensures Run(s, PrintItem(item), prep) == s.(items := s.items + [RereadItem(item, prep)])
  {
    hide Run, PrintTypes, ParseItem, ItemAttributes, RereadItem, HighBits, WellTyped;
    var start := Start("item", NS_PRIVACY, ItemAttributes(item));
    RunAppend(s, [start] + PrintTypes(item.types, 0), [End], prep);
    RunAppend(s, [start], PrintTypes(item.types, 0), prep);
    RunOne(s, start, prep);
    ItemReread(Last(s.items), item, prep);
    var fresh' := RereadItem(item, prep).(types := 0);
    var s1 := Step(s, start, prep);
    assert s1 == s.(depth := 3, mode := AtItem, items := s.items + [fresh']);
    RunTypes(s1, item.types, 0, prep);
    AllBits(item.types);
    OrAssociates(item.types, 0, 0);
    assert s1.items[..|s1.items| - 1] == s.items;
    TypesReread(item, prep);
    RunOne(Run(s1, PrintTypes(item.types, 0), prep), End, prep);
  }

  lemma TypesReread(item: Item, prep: J.Prep)
    ensures RereadItem(item, prep).types == item.types
  {
  }

  lemma {:induction false} RunItems(s: State, items: seq<Item>, prep: J.Prep)
    requires s.depth == 2 && s.mode == AtList && forall i :: i in items ==> WellTyped(i)
    ensures Run(s, PrintItems(items), prep) == s.(items := s.items + RereadItems(items, prep))
    decreases |items|
  {
    hide Step, PrintItem, RereadItem, WellTyped;
    if items == [] {
      assert s.items + [] == s.items;
    } else {
      assert items[0] in items && forall i :: i in items[1..] ==> i in items;
      RunAppend(s, PrintItem(items[0]), PrintItems(items[1..]), prep);
      RunItem(s, items[0], prep);
      var s1 := s.(items := s.items + [RereadItem(items[0], prep)]);
      RunItems(s1, items[1..], prep);
      assert s1.items + RereadItems(items[1..], prep) == s.items + RereadItems(items, prep);
    }
  }

  /** Between two children of the query element. */
  predicate InQuery(s: State) {
    s.depth == 1 && s.mode == AtNowhere && s.items == [] && s.name == ""
  }

  lemma {:induction false} RunList(s: State, list: List, prep: J.Prep)
    requires InQuery(s) && forall i :: i in list.items ==> WellTyped(i)
    ensures Run(s, PrintList(list), prep) ==
              s.(query := s.query.(lists := s.query.lists + [List(list.name, RereadItems(list.items, prep))]))
  {
    hide Run, PrintItems, RereadItems, WellTyped;
    var start := Start("list", NS_PRIVACY, map["name" := list.name]);
    RunAppend(s, [start] + PrintItems(list.items), [End], prep);
    RunAppend(s, [start], PrintItems(list.items), prep);
    RunOne(s, start, prep);
    var s1 := s.(depth := 2, mode := AtList, name := list.name);
    assert Step(s, start, prep) == s1;
    RunItems(s1, list.items, prep);
    assert [] + RereadItems(list.items, prep) == RereadItems(list.items, prep);
    RunOne(s1.(items := RereadItems(list.items, prep)), End, prep);
  }

  lemma {:induction false} RunLists(s: State, lists: seq<List>, prep: J.Prep)
    requires InQuery(s) && forall l :: l in lists ==> forall i :: i in l.items ==> WellTyped(i)
    ensures Run(s, PrintLists(lists), prep) ==
              s.(query := s.query.(lists := s.query.lists + RereadLists(lists, prep)))
    decreases |lists|
  {
    hide Step, PrintList, RereadItems, WellTyped;
    if lists == [] {
      assert s.query.lists + [] == s.query.lists;
    } else {
      assert lists[0] in lists && forall l :: l in lists[1..] ==> l in lists;
      RunAppend(s, PrintList(lists[0]), PrintLists(lists[1..]), prep);
      RunList(s, lists[0], prep);
      var first := [List(lists[0].name, RereadItems(lists[0].items, prep))];
      var s1 := s.(query := s.query.(lists := s.query.lists + first));
      RunLists(s1, lists[1..], prep);
      assert s.query.lists + first + RereadLists(lists[1..], prep) == s.query.lists + RereadLists(lists, prep);
    }
  }

  lemma {:induction false} RunName(s: State, element: string, name: Option<string>, prep: J.Prep)
    requires InQuery(s) && (element == "active" || element == "default")
    requires if element == "active" then s.query.active == None else s.query.default == None
    ensures Run(s, PrintName(element, name), prep) ==
              if element == "active" then s.(query := s.query.(active := RereadName(name)))
              else s.(query := s.query.(default := RereadName(name)))
  {
    hide EmptyElement;
    assert "active" != "default" by {
      assert |"active"| != |"default"|;
    }
    assert "active" != "list" && "default" != "list" by {
      assert |"active"| != |"list"| && |"default"| != |"list"|;
    }
    if name.Some? {
      RunEmptyElement(s, element, if name.value == "" then map[] else map["name" := name.value], prep);
    }
  }

  /** Parsing the printed query yields the re-read one, from any idle state, and ends idle. */
  lemma {:induction false} ParseOfPrint(s: State, q: Query, prep: J.Prep)
    requires Idle(s) && WellTypedQuery(q)
    ensures Run(s, Print(q), prep) == s.(query := Reread(q, prep))
  {
    hide Run, PrintName, PrintLists, RereadLists, RereadName;
    var start := Start("query", NS_PRIVACY, map[]);
    var a, d, l := PrintName("active", q.active), PrintName("default", q.default), PrintLists(q.lists);
    RunAppend(s, [start], a + (d + (l + [End])), prep);
    RunOne(s, start, prep);
    var s1 := s.(depth := 1, query := NO_QUERY);
    assert Step(s, start, prep) == s1;
    RunAppend(s1, a, d + (l + [End]), prep);
    RunName(s1, "active", q.active, prep);
    var s2 := s1.(query := Query(RereadName(q.active), None, []));
    ActiveIsNotDefault();
    RunAppend(s2, d, l + [End], prep);
    RunName(s2, "default", q.default, prep);
    var s3 := s1.(query := Query(RereadName(q.active), RereadName(q.default), []));
    RunAppend(s3, l, [End], prep);
    RunLists(s3, q.lists, prep);
    assert [] + RereadLists(q.lists, prep) == RereadLists(q.lists, prep);
    RunOne(s1.(query := Reread(q, prep)), End, prep);
  }

  lemma ActiveIsNotDefault()
    ensures "active" != "default"
  {
  }

  // ---------------------------------------------------------------- the round trip

  /** JIDs as the library makes them: parsed from text, or none. */
  ghost predicate CanonicalJids(q: Query, prep: J.Prep) {
    forall l :: l in q.lists ==> forall i :: i in l.items && i.rule.ByJid? ==>
      i.rule.jid == J.NO_JID || J.Canonical(i.rule.jid, prep)
  }

  predicate ItemSurvives(item: Item) {
    item.order <= INT_MAX && (item.rule.ByJid? ==> item.rule.jid == J.NO_JID || J.Unambiguous(item.rule.jid))
  }

  predicate ListSurvives(list: List) {
    forall i :: i in list.items ==> ItemSurvives(i)
  }

  /** No list name is null-like, no order is beyond the signed numbers, no JID is ambiguous. */
  predicate Survives(q: Query) {
    && q.active != Some("") && q.default != Some("")
    && forall l :: l in q.lists ==> ListSurvives(l)
  }

  lemma {:induction false} ItemComesBack(item: Item, prep: J.Prep)
    requires J.GoodPrep(prep) && WellTyped(item)
    requires item.rule.ByJid? ==> item.rule.jid == J.NO_JID || J.Canonical(item.rule.jid, prep)
    ensures RereadItem(item, prep) == item <==> ItemSurvives(item)
  {
    if item.rule.ByJid? && item.rule.jid != J.NO_JID {
      J.FullTextRoundTrips(item.rule.jid, prep);
    }
  }

  lemma {:induction false} ItemsComeBack(items: seq<Item>, prep: J.Prep)
    requires J.GoodPrep(prep) && forall i :: i in items ==> WellTyped(i)
    requires forall i :: i in items && i.rule.ByJid? ==> i.rule.jid == J.NO_JID || J.Canonical(i.rule.jid, prep)
    ensures RereadItems(items, prep) == items <==> forall i :: i in items ==> ItemSurvives(i)
    decreases |items|
  {
    hide RereadItem, ItemSurvives, WellTyped, J.GoodPrep, J.Canonical;
    if items != [] {
      assert items[0] in items && forall i :: i in items[1..] ==> i in items;
      assert forall i :: i in items ==> i == items[0] || i in items[1..];
      ItemComesBack(items[0], prep);
      ItemsComeBack(items[1..], prep);
      ConsEquals(RereadItem(items[0], prep), RereadItems(items[1..], prep), items);
    }
  }

  lemma ConsEquals<T>(x: T, xs: seq<T>, ys: seq<T>)
    requires ys != []
    ensures [x] + xs == ys <==> x == ys[0] && xs == ys[1..]
  {
  }

  ghost predicate FitList(list: List, prep: J.Prep) {
    forall i :: i in list.items ==>
      WellTyped(i) && (i.rule.ByJid? ==> i.rule.jid == J.NO_JID || J.Canonical(i.rule.jid, prep))
  }

  lemma {:induction false} ListsComeBack(lists: seq<List>, prep: J.Prep)
    requires J.GoodPrep(prep) && forall l :: l in lists ==> FitList(l, prep)
    ensures RereadLists(lists, prep) == lists <==> forall l :: l in lists ==> ListSurvives(l)
    decreases |lists|
  {
    hide RereadItems, ListSurvives, FitList, J.GoodPrep, J.Canonical;
    if lists != [] {
      assert lists[0] in lists && forall l :: l in lists[1..] ==> l in lists;
      assert forall l :: l in lists ==> l == lists[0] || l in lists[1..];
      ListComesBack(lists[0], prep);
      ListsComeBack(lists[1..], prep);
      ConsEquals(List(lists[0].name, RereadItems(lists[0].items, prep)), RereadLists(lists[1..], prep), lists);
    }
  }

  lemma ListComesBack(list: List, prep: J.Prep)
    requires J.GoodPrep(prep) && FitList(list, prep)
    ensures List(list.name, RereadItems(list.items, prep)) == list <==> ListSurvives(list)
  {
    hide RereadItems, ItemSurvives, WellTyped, J.GoodPrep, J.Canonical;
    ItemsComeBack(list.items, prep);
  }

  /** A query with canonical JIDs survives printing and parsing exactly if it meets the condition. */
  lemma {:induction false} QueryRoundTrips(s: State, q: Query, prep: J.Prep)
    requires Idle(s) && WellTypedQuery(q) && J.GoodPrep(prep) && CanonicalJids(q, prep)
    ensures Run(s, Print(q), prep).query == q <==> Survives(q)
  {
    hide Run, Print, RereadLists, ItemSurvives, WellTyped, J.GoodPrep, J.Canonical;
    ParseOfPrint(s, q, prep);
    assert forall l :: l in q.lists ==> FitList(l, prep);
    ListsComeBack(q.lists, prep);
  }

  /** An empty name of the active list comes back as no name at all. */
  lemma {:induction false} EmptyNameIsLost(s: State, prep: J.Prep)
    requires Idle(s)
    ensures Run(s, Print(Query(Some(""), None, [])), prep).query == NO_QUERY
  {
    hide Run, Print;
    ParseOfPrint(s, Query(Some(""), None, []), prep);
  }

  /** An order of 2^31 comes back as 0. */
  lemma {:induction false} LargeOrderIsLost(s: State, prep: J.Prep)
    requires Idle(s)
    ensures var before, after := Item(All, 0, 0x8000_0000, 0), Item(All, 0, 0, 0);
            Run(s, Print(Query(None, None, [List("l", [before])])), prep).query ==
              Query(None, None, [List("l", [after])])
  {
    hide Run, Print;
    var before := Item(All, 0, 0x8000_0000, 0);
    ParseOfPrint(s, Query(None, None, [List("l", [before])]), prep);
    RereadOne(List("l", [before]), before, prep);
  }

  lemma RereadOne(list: List, item: Item, prep: J.Prep)
    requires list.items == [item]
    ensures RereadLists([list], prep) == [List(list.name, [RereadItem(item, prep)])]
  {
    assert list.items[1..] == [] && [list][1..] == [];
    assert RereadItems(list.items, prep) == [RereadItem(item, prep)];
  }
}
