/**
 Jabber identifiers (JID): the three parts, the cached strings, and parsing.
 Stringprep is an arbitrary preparation that may fail, but that leaves prepared text alone and
 neither adds nor removes an '@' or a '/'.
 */
module Jid {
  import opened Bytes
  import opened Wrappers

  /** nodePrep, namePrep and resourcePrep; None when the text is refused. */
  datatype Prep = Prep(
    node: string -> Option<string>, domain: string -> Option<string>, resource: string -> Option<string>)

  datatype Jid = Jid(node: string, domain: string, resource: string, bare: string, full: string, valid: bool)

  /** A JID built from no text at all. */
  const NO_JID := Jid("", "", "", "", "", false)

  function Bare(node: string, domain: string): string {
    if node != "" then node + "@" + domain else domain
  }

  function Full(bare: string, resource: string): string {
    if resource != "" then bare + "/" + resource else bare
  }

  function Make(node: string, domain: string, resource: string): Jid {
    var bare := Bare(node, domain);
    Jid(node, domain, resource, bare, Full(bare, resource), true)
  }

  /** QString::mid with a length that may be negative: then the rest. */
  function Mid(s: string, from: nat, length: int): string
    requires from <= |s|
  {
    if length < 0 || from + length > |s| then s[from..] else s[from..from + length]
  }

  /** setJID. No text changes nothing; a refused part leaves the cached strings as they were. */
  function Reparse(j: Jid, text: string, prep: Prep): Jid {
    if text == "" then j
    else
      var at := IndexOf(text, '@');
      var slash := IndexOf(text, '/', if at < 0 then 0 else at);
      var node := if at == -1 then Some("") else prep.node(Mid(text, 0, at));
      if node.None? then Jid("", "", "", j.bare, j.full, false)
      else
        var domain := prep.domain(Mid(text, if at < 0 then 0 else at + 1, slash - at - 1));
        if domain.None? then Jid(node.value, "", "", j.bare, j.full, false)
        else
          var resource := if slash == -1 then Some("") else prep.resource(Mid(text, slash + 1, -1));
          if resource.None? then Jid(node.value, domain.value, "", j.bare, j.full, false)
          else Make(node.value, domain.value, resource.value)
  }

  /** JID(const QString &): setJID on a fresh JID. */
  function Parse(text: string, prep: Prep): Jid {
    Reparse(NO_JID, text, prep)
  }

  // ---------------------------------------------------------------- stringprep

  function Count(s: string, c: char): nat {
    if s == "" then 0 else (if s[0] == c then 1 else 0) + Count(s[1..], c)
  }

  ghost predicate GoodPreparation(f: string -> Option<string>) {
    forall s: string :: f(s).Some? ==>
      && f(f(s).value) == f(s)
      && Count(f(s).value, '@') == Count(s, '@') && Count(f(s).value, '/') == Count(s, '/')
  }

  ghost predicate GoodPrep(prep: Prep) {
    GoodPreparation(prep.node) && GoodPreparation(prep.domain) && GoodPreparation(prep.resource)
  }

  lemma {:induction false} CountAppend(a: string, b: string, c: char)
    ensures Count(a + b, c) == Count(a, c) + Count(b, c)
    decreases |a|
  {
    if a == "" {
      assert a + b == b;
    } else {
      assert (a + b)[1..] == a[1..] + b;
      CountAppend(a[1..], b, c);
    }
  }

  lemma {:induction false} CountZero(s: string, c: char)
    ensures Count(s, c) == 0 <==> c !in s
  {
    if s != "" {
      CountZero(s[1..], c);
      assert c in s <==> c == s[0] || c in s[1..];
    }
  }

  // ---------------------------------------------------------------- printing and parsing

  /** A JID as setJID leaves it: prepared parts, no '@' in the node, no '/' in the domain. */
  ghost predicate Canonical(j: Jid, prep: Prep) {
    && j == Make(j.node, j.domain, j.resource) && j.full != ""
    && prep.domain(j.domain) == Some(j.domain)
    && (j.node != "" ==> prep.node(j.node) == Some(j.node))
    && (j.resource != "" ==> prep.resource(j.resource) == Some(j.resource))
    && '@' !in j.node && '/' !in j.domain
  }

  /** The text of a JID is read back: it has a node, or no '@' that could be taken for the end of one. */
  predicate Unambiguous(j: Jid) {
    j.node != "" || ('@' !in j.domain && '@' !in j.resource)
  }

  lemma {:induction false} FirstAt(a: string, b: string, c: char)
    requires c !in a
    ensures IndexOf(a + ([c] + b), c) == |a|
  {
    assert (a + ([c] + b))[|a|] == c;
    assert forall k :: 0 <= k < |a| ==> (a + ([c] + b))[k] == a[k];
  }

  lemma {:induction false} Absent(s: string, c: char, from: nat)
    requires c !in s
    ensures IndexOf(s, c, from) == -1
  {
  }

  /** Searching behind a prefix. */
  lemma {:induction false} FromPrefix(a: string, b: string, c: char)
    ensures IndexOf(a + b, c, |a|) == if IndexOf(b, c) == -1 then -1 else |a| + IndexOf(b, c)
  {
    var i, j := IndexOf(a + b, c, |a|), IndexOf(b, c);
    if i != -1 {
      assert b[i - |a|] == c;
    }
    if j != -1 {
      assert (a + b)[|a| + j] == c;
    }
    assert forall k :: |a| <= k < |a| + |b| ==> (a + b)[k] == b[k - |a|];
  }

  /** Where the slash of a domain with an optional resource is. */
  lemma {:induction false} SlashOf(domain: string, resource: string)
    requires '/' !in domain
    ensures IndexOf(Full(domain, resource), '/') == if resource == "" then -1 else |domain|
  {
    if resource == "" {
      Absent(domain, '/', 0);
    } else {
      assert domain + "/" + resource == domain + (['/'] + resource);
      FirstAt(domain, resource, '/');
    }
  }

  lemma FullOfParts(node: string, domain: string, resource: string)
    ensures var full, tail := Full(node + "@" + domain, resource), Full(domain, resource);
            full == node + (['@'] + tail) == (node + "@") + tail && full != "" && full[|node|] == '@'
  {
  }

  lemma PartsOfFull(node: string, domain: string, resource: string)
    ensures var full, at := Full(node + "@" + domain, resource), |node|;
            var slash := if resource == "" then -1 else at + 1 + |domain|;
            && Mid(full, 0, at) == node && Mid(full, at + 1, slash - at - 1) == domain
            && (slash != -1 ==> Mid(full, slash + 1, -1) == resource)
  {
  }

  /** With a node, the first '@' ends it, and the first '/' behind it ends the domain. */
  lemma {:induction false} PlacesWithNode(node: string, domain: string, resource: string)
    requires '@' !in node && '/' !in domain
    ensures var full := Full(node + "@" + domain, resource);
            var at := |node|;
            var slash := if resource == "" then -1 else at + 1 + |domain|;
            && full != "" && IndexOf(full, '@') == at && IndexOf(full, '/', at) == slash
            && Mid(full, 0, at) == node && Mid(full, at + 1, slash - at - 1) == domain
            && (slash != -1 ==> Mid(full, slash + 1, -1) == resource)
  {
    hide IndexOf, Full;
    var head, tail, at := node + "@", Full(domain, resource), |node|;
    var full := Full(node + "@" + domain, resource);
    FullOfParts(node, domain, resource);
    PartsOfFull(node, domain, resource);
    FirstAt(node, tail, '@');
    SlashOf(domain, resource);
    FromPrefix(head, tail, '/');
    SkipOne(full, '/', at);
  }

  lemma {:induction false} ParseWithNode(j: Jid, prep: Prep)
    requires Canonical(j, prep) && j.node != ""
    ensures Parse(j.full, prep) == j
  {
    hide IndexOf, Mid;
    PlacesWithNode(j.node, j.domain, j.resource);
  }

  lemma {:induction false} SkipOne(s: string, c: char, from: nat)
    requires from < |s| && s[from] != c
    ensures IndexOf(s, c, from) == IndexOf(s, c, from + 1)
  {
  }

  /** Without a node and without any '@', the first '/' ends the domain. */
  lemma {:induction false} ParseWithoutNode(j: Jid, prep: Prep)
    requires Canonical(j, prep) && j.node == "" && '@' !in j.domain && '@' !in j.resource
    ensures Parse(j.full, prep) == j
  {
    assert j.full == Full(j.domain, j.resource);
    Absent(j.full, '@', 0);
    SlashOf(j.domain, j.resource);
    if j.resource == "" {
      assert Mid(j.full, 0, -1) == j.domain;
    } else {
      var slash := |j.domain|;
      assert Mid(j.full, 0, slash) == j.domain;
      assert Mid(j.full, slash + 1, -1) == j.resource;
    }
  }

  lemma {:induction false} AtBehindSlash(domain: string, resource: string)
    requires '@' !in domain && '@' in resource
    ensures var full := Full(domain, resource);
            IndexOf(full, '@') != -1 && '/' in Mid(full, 0, IndexOf(full, '@'))
  {
    var full := Full(domain, resource);
    assert full == domain + "/" + resource;
    var k :| 0 <= k < |resource| && resource[k] == '@';
    assert full[|domain| + 1 + k] == '@';
    assert forall i :: 0 <= i < |domain| ==> full[i] == domain[i];
    assert Mid(full, 0, IndexOf(full, '@'))[|domain|] == '/';
  }

  /** Without a node but with an '@', the text is taken apart at that '@'. */
  lemma {:induction false} ParseMistakesNode(j: Jid, prep: Prep)
    requires GoodPrep(prep) && Canonical(j, prep) && !Unambiguous(j)
    ensures Parse(j.full, prep) != j
  {
    var at := IndexOf(j.full, '@');
    assert '@' in j.full;
    var p := Parse(j.full, prep);
    if p == j {
      var head := Mid(j.full, 0, at);
      assert prep.node(head) == Some("");
      assert Count("", '/') == 0 && Count("", '@') == 0;
      CountZero(head, '/');
      if '@' !in j.domain {
        AtBehindSlash(j.domain, j.resource);
        assert false;
      }
      var slash := IndexOf(j.full, '/', at);
      var body := Mid(j.full, at + 1, slash - at - 1);
      assert prep.domain(body) == Some(j.domain);
      SlashOf(j.domain, j.resource);
      DomainLosesAt(j.domain, j.resource, at, slash);
    }
  }

  /** Behind the first '@' of a domain there is one '@' less. */
  lemma {:induction false} DomainLosesAt(domain: string, resource: string, at: nat, slash: int)
    requires '@' in domain && '/' !in domain
    requires at == IndexOf(Full(domain, resource), '@') && slash == IndexOf(Full(domain, resource), '/', at)
    ensures Count(Mid(Full(domain, resource), at + 1, slash - at - 1), '@') != Count(domain, '@')
  {
    var full := Full(domain, resource);
    assert forall k :: 0 <= k < |domain| ==> full[k] == domain[k];
    var i :| 0 <= i < |domain| && domain[i] == '@';
    assert full[i] == '@' && at <= i;
    if resource != "" {
      assert full[|domain|] == '/';
    }
    var rest := domain[at + 1..];
    assert Mid(full, at + 1, slash - at - 1) == rest;
    assert domain == domain[..at] + (['@'] + rest);
    CountAppend(domain[..at], ['@'] + rest, '@');
    assert (['@'] + rest)[1..] == rest;
    assert Count(['@'] + rest, '@') == 1 + Count(rest, '@');
  }

  /** Parsing the full text of a JID gives the JID back exactly if it is unambiguous. */
  lemma {:induction false} FullTextRoundTrips(j: Jid, prep: Prep)
    requires GoodPrep(prep) && Canonical(j, prep)
    ensures Parse(j.full, prep) == j <==> Unambiguous(j)
  {
    if j.node != "" {
      ParseWithNode(j, prep);
    } else if Unambiguous(j) {
      ParseWithoutNode(j, prep);
    } else {
      ParseMistakesNode(j, prep);
    }
  }

  /** Preparation that leaves every text as it is. */
  const PLAIN := Prep(s => Some(s), s => Some(s), s => Some(s))

  lemma PlainIsGood()
    ensures GoodPrep(PLAIN)
  {
  }

  /** A JID without a node whose resource has an '@': the text up to there is read as its node. */
  lemma TextIsMistaken()
    ensures var j := Make("", "d", "x@y");
            && GoodPrep(PLAIN) && Parse("@d/x@y", PLAIN) == j && Canonical(j, PLAIN) && !Unambiguous(j)
            && j.full == "d/x@y" && Parse(j.full, PLAIN) == Make("d/x", "y", "")
  {
    hide GoodPrep, Mid;
    PlainIsGood();
    Positions();
  }

  lemma Positions()
    ensures IndexOf("@d/x@y", '@') == 0 && IndexOf("@d/x@y", '/', 0) == 2
    ensures IndexOf("d/x@y", '@') == 3 && IndexOf("d/x@y", '/', 3) == -1
    ensures Mid("@d/x@y", 0, 0) == "" && Mid("@d/x@y", 1, 1) == "d" && Mid("@d/x@y", 3, -1) == "x@y"
    ensures Mid("d/x@y", 0, 3) == "d/x" && Mid("d/x@y", 4, -5) == "y"
  {
    assert "@d/x@y"[2] == '/' && "d/x@y"[3] == '@';
  }

  // ---------------------------------------------------------------- what parsing yields

  /** The parts of a text: up to its first '@' if there is one, up to the first '/' behind that, and the
      rest. The text is accepted exactly if each part is, and its parts are then the prepared ones, also
      where preparation changes them. */
  lemma {:induction false} TextIsTakenApart(
      text: string, node: Option<string>, domain: string, resource: Option<string>, prep: Prep)
    requires text != "" && '/' !in domain
    requires if node.None? then '@' !in text else '@' !in node.value
    requires text == (if node.None? then "" else node.value + "@")
                     + (domain + if resource.None? then "" else "/" + resource.value)
    ensures var n := if node.None? then Some("") else prep.node(node.value);
            var d := prep.domain(domain);
            var r := if resource.None? then Some("") else prep.resource(resource.value);
            var j := Parse(text, prep);
            && (j.valid <==> n.Some? && d.Some? && r.Some?)
            && (j.valid ==> j.node == n.value && j.domain == d.value && j.resource == r.value
                            && j.bare == (if j.node == "" then "" else j.node + "@") + j.domain
                            && j.full == j.bare + if j.resource == "" then "" else "/" + j.resource)
            && (!j.valid ==> j.bare == "" && j.full == "")
  {
    hide IndexOf, Mid;
    var tail := domain + if resource.None? then "" else "/" + resource.value;
    SlashOfTail(domain, resource);
    if node.None? {
      assert text == tail;
      Absent(text, '@', 0);
      MidOfTail("", domain, resource);
    } else {
      var head, at := node.value + "@", |node.value|;
      assert text == node.value + (['@'] + tail) == head + tail;
      FirstAt(node.value, tail, '@');
      FromPrefix(head, tail, '/');
      SkipOne(text, '/', at);
      MidOfTail(head, domain, resource);
      MidOfHead(node.value, tail);
    }
  }

  lemma SlashOfTail(domain: string, resource: Option<string>)
    requires '/' !in domain
    ensures var tail := domain + if resource.None? then "" else "/" + resource.value;
            IndexOf(tail, '/') == if resource.None? then -1 else |domain|
  {
    if resource.None? {
      assert domain + "" == domain;
      Absent(domain, '/', 0);
    } else {
      FirstAt(domain, resource.value, '/');
    }
  }

  lemma MidOfTail(head: string, domain: string, resource: Option<string>)
    ensures var text := head + (domain + if resource.None? then "" else "/" + resource.value);
            if resource.None? then Mid(text, |head|, -1 - |head|) == domain
            else
              && Mid(text, |head|, |domain|) == domain
              && Mid(text, |head| + |domain| + 1, -1) == resource.value
  {
  }

  lemma MidOfHead(node: string, tail: string)
    ensures Mid(node + "@" + tail, 0, |node|) == node
  {
  }

  /** Whatever is parsed successfully is canonical, so the round trip applies to it. */
  lemma {:induction false} ParsedIsCanonical(text: string, prep: Prep)
    requires GoodPrep(prep) && Parse(text, prep).valid && Parse(text, prep).full != ""
    ensures Canonical(Parse(text, prep), prep)
  {
    var j := Parse(text, prep);
    var at := IndexOf(text, '@');
    var slash := IndexOf(text, '/', if at < 0 then 0 else at);
    var node := if at == -1 then "" else Mid(text, 0, at);
    var domain := Mid(text, if at < 0 then 0 else at + 1, slash - at - 1);
    CountZero(node, '@');
    CountZero(j.node, '@');
    CountZero(domain, '/');
    CountZero(j.domain, '/');
  }

  /** The bare JID (bareJID). */
  function BareJid(j: Jid): Jid {
    if j.valid && j.resource == "" then j
    else if j.valid then Jid(j.node, j.domain, "", j.bare, j.bare, true)
    else NO_JID
  }

  /** The bare JID of a canonical JID is that JID without its resource. */
  lemma BareJidDropsResource(j: Jid, prep: Prep)
    requires Canonical(j, prep)
    ensures BareJid(j) == Make(j.node, j.domain, "")
  {
  }

  class JidData {
    var node: string
    var domain: string
    var resource: string
    var bare: string
    var full: string
    var valid: bool

    ghost function Abs(): Jid
      reads this
    {
      Jid(node, domain, resource, bare, full, valid)
    }

    constructor ()
      ensures Abs() == NO_JID
    {
      node, domain, resource, bare, full, valid := "", "", "", "", "", false;
    }

    method SetBare()
      modifies `bare
      ensures bare == Bare(node, domain)
    {
      if node != "" {
        bare := node + "@";
      } else {
        bare := "";
      }
      bare := bare + domain;
      assert "" + domain == domain;
    }

    method SetFull()
      modifies `full
      ensures full == Full(bare, resource)
    {
      full := bare;
      if resource != "" {
        full := full + ("/" + resource);
        assert bare + ("/" + resource) == bare + "/" + resource;
      }
    }

    /** JID::setJID, also on a JID that holds another address. */
    method SetJid(jid: string, prep: Prep) returns (ok: bool)
      modifies this
      ensures Abs() == Reparse(old(Abs()), jid, prep)
      ensures ok == (jid != "" && valid)
      ensures ok ==> Abs() == Parse(jid, prep)
      ensures jid == "" ==> Abs() == old(Abs())
      ensures jid != "" && !ok ==> !valid && bare == old(bare) && full == old(full)
    {
      hide IndexOf, Mid, Bare, Full;
      if jid == "" {
        return false;
      }
      node, domain, resource := "", "", "";
      var at := IndexOf(jid, '@');
      var slash := IndexOf(jid, '/', if at < 0 then 0 else at);
      if at > -1 {
        var n := prep.node(Mid(jid, 0, at));
        valid := n.Some?;
        if !valid {
          return false;
        }
        node := n.value;
      }
      var d := prep.domain(Mid(jid, if at < 0 then 0 else at + 1, slash - at - 1));
      valid := d.Some?;
      if !valid {
        return false;
      }
      domain := d.value;
      if slash > -1 {
        var r := prep.resource(Mid(jid, slash + 1, -1));
        valid := r.Some?;
        if !valid {
          return false;
        }
        resource := r.value;
      }
      SetBare();
      SetFull();
      return valid;
    }
  }
}
