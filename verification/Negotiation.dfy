/**
 Stream feature negotiation (section 4.3 of RFC 6120): the sorted feature list, the choice of the
 next feature under the Force, Disable and Auto policies, and what the completion of a feature
 leads to.
 A feature is an identity with a type and a priority; which features can be activated is what
 the server advertised, and whether activating one fails at once is a parameter.
 */
module Negotiation {
  import opened Wrappers

  datatype Category = Compression | Encryption | Authorization
  datatype Config = Force | Disable | Auto

  datatype Reason =
    | NoEncryptionSupport | NoCompressionSupport | NoAuthorizationSupport | NoSupportedFeature
    | AuthorizationError | SocketClosed

  datatype Feature = Feature(id: nat, kind: int, priority: int)

  const SECURITY_LAYER := 0
  const COMPRESSION_LAYER := 0x10
  const SASL := 0x100
  const SIMPLE_AUTHORIZATION := 0x1000
  const CUSTOM := 0x10000

  /** convertToFeature; None stands for InvalidFeature. */
  function CategoryOf(f: Feature): Option<Category> {
    if f.kind == COMPRESSION_LAYER then Some(Compression)
    else if f.kind == SECURITY_LAYER then Some(Encryption)
    else if f.kind == SASL || f.kind == SIMPLE_AUTHORIZATION then Some(Authorization)
    else None
  }

  function ReasonFor(c: Category): Reason {
    match c
    case Encryption => NoEncryptionSupport
    case Compression => NoCompressionSupport
    case Authorization => NoAuthorizationSupport
  }

  datatype Configs = Configs(compression: Config, encryption: Config, authorization: Config)

  function Get(cs: Configs, c: Category): Config {
    match c
    case Compression => cs.compression
    case Encryption => cs.encryption
    case Authorization => cs.authorization
  }

  // ---------------------------------------------------------------- the feature list

  /** featureLessThan */
  predicate Less(a: Feature, b: Feature) {
    if a.kind == b.kind then a.priority > b.priority else a.kind < b.kind
  }

  /** By type ascending, then by priority descending. */
  predicate Sorted(fs: seq<Feature>) {
    forall i, j :: 0 <= i < j < |fs| ==>
      fs[i].kind < fs[j].kind || (fs[i].kind == fs[j].kind && fs[i].priority >= fs[j].priority)
  }

  /** How many features at the front come before f. */
  function LowerBound(fs: seq<Feature>, f: Feature): (n: nat)
    ensures n <= |fs|
  {
    if fs != [] && Less(fs[0], f) then 1 + LowerBound(fs[1..], f) else 0
  }

  function Registered(fs: seq<Feature>, f: Feature): seq<Feature> {
    var n := LowerBound(fs, f);
    fs[..n] + [f] + fs[n..]
  }

  function Removed(fs: seq<Feature>, f: Feature): seq<Feature> {
    if fs == [] then []
    else (if fs[0] == f then [] else [fs[0]]) + Removed(fs[1..], f)
  }

  lemma {:induction false} LowerBoundSplits(fs: seq<Feature>, f: Feature)
    requires Sorted(fs)
    ensures forall k :: 0 <= k < LowerBound(fs, f) ==> Less(fs[k], f)
    ensures forall k :: LowerBound(fs, f) <= k < |fs| ==> !Less(fs[k], f)
  {
    if fs != [] {
      if Less(fs[0], f) {
        LowerBoundSplits(fs[1..], f);
        forall k | 1 <= k < |fs| ensures fs[k] == fs[1..][k - 1] {}
      }
    }
  }

  /** The new feature stands behind those that go before it by type and priority, and in front of all
      others, also of those with its type and priority. */
  predicate StandsAt(fs: seq<Feature>, f: Feature, n: nat) {
    && n <= |fs|
    && (forall k :: 0 <= k < n ==> fs[k].kind < f.kind || (fs[k].kind == f.kind && fs[k].priority > f.priority))
    && (forall k :: n <= k < |fs| ==> f.kind < fs[k].kind || (f.kind == fs[k].kind && f.priority >= fs[k].priority))
  }

  lemma {:induction false} NewFeatureStandsInFront(fs: seq<Feature>, f: Feature)
    requires Sorted(fs)
    ensures exists n: nat :: StandsAt(fs, f, n) && Registered(fs, f) == fs[..n] + [f] + fs[n..]
  {
    LowerBoundSplits(fs, f);
    hide Sorted, LowerBound;
    assert StandsAt(fs, f, LowerBound(fs, f));
  }

  lemma {:induction false} RegisteringKeepsSorted(fs: seq<Feature>, f: Feature)
    requires Sorted(fs)
    ensures Sorted(Registered(fs, f)) && multiset(Registered(fs, f)) == multiset(fs) + multiset{f}
  {
    LowerBoundSplits(fs, f);
    hide LowerBound;
    SortedWith(fs, f, LowerBound(fs, f));
    assert fs == fs[..LowerBound(fs, f)] + fs[LowerBound(fs, f)..];
    hide Sorted;
  }

  lemma SortedWith(fs: seq<Feature>, f: Feature, n: nat)
    requires Sorted(fs) && n <= |fs|
    requires forall k :: 0 <= k < n ==> Less(fs[k], f)
    requires forall k :: n <= k < |fs| ==> !Less(fs[k], f)
    ensures Sorted(fs[..n] + [f] + fs[n..])
  {
    var after := fs[..n] + [f] + fs[n..];
    forall i, j | 0 <= i < j < |after|
      ensures after[i].kind < after[j].kind
              || (after[i].kind == after[j].kind && after[i].priority >= after[j].priority)
    {
      assert i < n ==> after[i] == fs[i];
      assert j > n ==> after[j] == fs[j - 1];
    }
  }

  lemma {:induction false} RemovingKeepsSorted(fs: seq<Feature>, f: Feature)
    requires Sorted(fs)
    ensures Sorted(Removed(fs, f))
    ensures forall g :: g in Removed(fs, f) <==> g in fs && g != f
  {
    if fs != [] {
      RemovingKeepsSorted(fs[1..], f);
      var rest := Removed(fs[1..], f);
      forall k | 0 <= k < |rest|
        ensures fs[0].kind < rest[k].kind || (fs[0].kind == rest[k].kind && fs[0].priority >= rest[k].priority)
      {
        assert rest[k] in fs[1..];
      }
    }
  }

  // ---------------------------------------------------------------- the client

  /** What the negotiation leads to. `used` are the bits set before the activation. */
  datatype Outcome = Activated(feature: Feature, used: set<Category>) | Disconnected(reason: Reason)

  /** `advertised` are the features that can be activated; `live` those activated since the last
      disconnect. */
  datatype State = State(
    features: seq<Feature>, configs: Configs,
    used: set<Category>, current: Option<Feature>,
    authorized: bool, isConnected: bool,
    advertised: set<Feature>, live: set<Feature>,
    outcomes: seq<Outcome>)

  function IndexOf(fs: seq<Feature>, f: Feature): (i: int)
    ensures i == -1 ==> f !in fs
    ensures i != -1 ==> 0 <= i < |fs| && fs[i] == f && f !in fs[..i]
  {
    if fs == [] then -1
    else if fs[0] == f then 0
    else
      var i := IndexOf(fs[1..], f);
      assert i != -1 ==> fs[..i + 1] == [fs[0]] + fs[1..][..i];
      if i == -1 then -1 else i + 1
  }

  predicate Eligible(s: State, f: Feature) {
    f in s.advertised && (CategoryOf(f).Some? ==> Get(s.configs, CategoryOf(f).value) != Disable)
  }

  /** The first eligible position at or behind i, or -1. */
  function FirstEligible(s: State, i: nat): (j: int)
    ensures j == -1 || i <= j < |s.features|
    decreases |s.features| - i
  {
    if i >= |s.features| then -1 else if Eligible(s, s.features[i]) then i else FirstEligible(s, i + 1)
  }

  /** Where the activation loop stops. */
  function NextIndex(s: State): (j: int)
    ensures j == -1 || 0 <= j < |s.features|
  {
    FirstEligible(s, if s.current.None? then 0 else IndexOf(s.features, s.current.value) + 1)
  }

  predicate Satisfied(s: State, c: Category) {
    Get(s.configs, c) == Force ==> c in s.used
  }

  /** The failing check of a feature that is about to be activated, if there is one. */
  function Blocker(s: State, f: Feature): Option<Category> {
    if CategoryOf(f).None? then
      if !Satisfied(s, Encryption) then Some(Encryption)
      else if !Satisfied(s, Compression) then Some(Compression)
      else if !Satisfied(s, Authorization) then Some(Authorization)
      else None
    else if CategoryOf(f).value == Authorization && !Satisfied(s, Encryption) then Some(Encryption)
    else None
  }

  /** _q_disconnected, called for a disconnect of this side or of the socket. */
  function Disconnect(s: State, reason: Reason): State {
    s.(used := {}, current := None, authorized := false, isConnected := false, live := {},
       outcomes := s.outcomes + [Disconnected(reason)])
  }

  /** The feature that will be activated, if there is one and no check fails. */
  function Chosen(s: State): Option<Feature> {
    var j := NextIndex(s);
    if j == -1 || Blocker(s, s.features[j]).Some? then None else Some(s.features[j])
  }

  /** The bit of a feature, as a set. */
  function Bit(f: Feature): set<Category> {
    if CategoryOf(f).Some? then {CategoryOf(f).value} else {}
  }

  /** `fails`: the activation reports a failed authorization, and so a disconnect, before it returns.
      The used bit is set in either case. */
  function Activate(s: State, fails: bool): State {
    if Chosen(s).Some? then
      var f := Chosen(s).value;
      var s1 := s.(current := Some(f), live := s.live + {f}, outcomes := s.outcomes + [Activated(f, s.used)]);
      var s2 := if fails then Disconnect(s1, AuthorizationError) else s1;
      s2.(used := s2.used + Bit(f))
    else
      var j := NextIndex(s);
      Disconnect(s, if j == -1 then NoSupportedFeature else ReasonFor(Blocker(s, s.features[j]).value))
  }

  datatype Flags = Flags(
    resendHeader: bool, authorized: bool, activateNext: bool, connected: bool, authorizationFailed: bool)

  function Completed(s: State, flags: Flags, fails: bool): State {
    if flags.authorizationFailed then Disconnect(s, AuthorizationError)
    else
      var s1 := if flags.authorized then s.(authorized := true) else s;
      var s2 := if flags.resendHeader then s1.(advertised := {}, current := None) else s1;
      var s3 := if flags.activateNext then Activate(s2, fails) else s2;
      if flags.connected then s3.(isConnected := true) else s3
  }

  datatype Step =
    | Advertise(features: set<Feature>, fails: bool)            // a features element has been read
    | Complete(feature: Feature, flags: Flags, fails: bool)     // a feature reports back
    | Connect                                                   // the socket is connected
    | Close                                                     // the socket is closed
    | Register(feature: Feature)
    | Remove(feature: Feature)

  function Happen(s: State, step: Step): State {
    match step
    case Advertise(features, fails) => Activate(s.(advertised := features, current := None), fails)
    case Complete(_, flags, fails) => Completed(s, flags, fails)
    case Connect => s.(advertised := {})
    case Close => Disconnect(s, SocketClosed)
    case Register(f) => s.(features := Registered(s.features, f))
    case Remove(f) => s.(features := Removed(s.features, f))
  }

  lemma SameBlocker(s: State, f: Feature)
    ensures Blocker(s.(current := None), f) == Blocker(s, f)
  {
  }

  class Client {
    var features: seq<Feature>
    var configs: Configs
    var usedFeatures: set<Category>
    var currentStreamFeature: Option<Feature>
    var authorized: bool
    var isConnected: bool
    var advertised: set<Feature>
    ghost var live: set<Feature>
    ghost var outcomes: seq<Outcome>

    ghost function Abs(): State
      reads this
    {
      State(features, configs, usedFeatures, currentStreamFeature, authorized, isConnected, advertised, live, outcomes)
    }

    constructor ()
      ensures Abs() == State([], Configs(Auto, Auto, Force), {}, None, false, false, {}, {}, [])
    {
      features, configs := [], Configs(Auto, Auto, Force);
      usedFeatures, currentStreamFeature, authorized, isConnected := {}, None, false, false;
      advertised, live, outcomes := {}, {}, [];
    }

    method RegisterStreamFeature(streamFeature: Option<Feature>)
      requires Sorted(features)
      modifies this
      ensures Sorted(features)
      ensures Abs() == if streamFeature.None? then old(Abs()) else Happen(old(Abs()), Register(streamFeature.value))
    {
      if streamFeature.None? {
        return;
      }
      var f := streamFeature.value;
      LowerBoundSplits(features, f);
      RegisteringKeepsSorted(features, f);
      hide Sorted, LowerBound;
      var begin, n := 0, |features|;
      while n > 0
        invariant 0 <= begin && 0 <= n && begin + n <= |features|
        invariant begin <= LowerBound(features, f) <= begin + n
      {
        var half := n / 2;
        var middle := begin + half;
        if Less(features[middle], f) {
          begin := middle + 1;
          n := n - half - 1;
        } else {
          n := half;
        }
      }
      features := features[..begin] + [f] + features[begin..];
    }

    method RemoveStreamFeature(streamFeature: Feature)
      requires Sorted(features)
      modifies this
      ensures Sorted(features) && Abs() == Happen(old(Abs()), Remove(streamFeature))
    {
      RemovingKeepsSorted(features, streamFeature);
      var kept := [];
      assert features[0..] == features;
      for i := 0 to |features|
        invariant kept + Removed(features[i..], streamFeature) == Removed(features, streamFeature)
      {
        assert features[i..][0] == features[i] && features[i..][1..] == features[i + 1..];
        if features[i] != streamFeature {
          assert kept + ([features[i]] + Removed(features[i + 1..], streamFeature))
              == kept + [features[i]] + Removed(features[i + 1..], streamFeature);
          kept := kept + [features[i]];
        } else {
          assert [] + Removed(features[i + 1..], streamFeature) == Removed(features[i + 1..], streamFeature);
        }
      }
      assert features[|features|..] == [];
      assert kept + [] == kept;
      features := kept;
    }

    method EmitDisconnected(reason: Reason)
      modifies this
      ensures Abs() == Disconnect(old(Abs()), reason)
    {
      isConnected := false;
      usedFeatures := {};
      authorized := false;
      currentStreamFeature := None;
      live := {};
      outcomes := outcomes + [Disconnected(reason)];
    }

    method CheckFeature(c: Category) returns (ok: bool)
      modifies this
      ensures ok == Satisfied(old(Abs()), c)
      ensures Abs() == if ok then old(Abs()) else Disconnect(old(Abs()), ReasonFor(c))
    {
      if Get(configs, c) == Force && c !in usedFeatures {
        EmitDisconnected(ReasonFor(c));
        return false;
      }
      return true;
    }

    /** The end of activateFeature for the feature that has been chosen. */
    method Start(feature: Feature, fails: bool)
      modifies this
      ensures var s := old(Abs());
              var s1 := s.(current := Some(feature), live := s.live + {feature},
                           outcomes := s.outcomes + [Activated(feature, s.used)]);
              var s2 := if fails then Disconnect(s1, AuthorizationError) else s1;
              Abs() == s2.(used := s2.used + Bit(feature))
    {
      currentStreamFeature := Some(feature);
      live := live + {feature};
      outcomes := outcomes + [Activated(feature, usedFeatures)];
      if fails {
        EmitDisconnected(AuthorizationError);
      }
      var category := CategoryOf(feature);
      if category.Some? {
        usedFeatures := usedFeatures + {category.value};
      }
    }

    /** The checks of activateFeature. */
    method CheckAll(feature: Feature) returns (ok: bool)
      modifies this
      ensures var blocker := Blocker(old(Abs()), feature);
              && ok == blocker.None?
              && Abs() == if ok then old(Abs()) else Disconnect(old(Abs()), ReasonFor(blocker.value))
    {
      hide Disconnect;
      var category := CategoryOf(feature);
      ok := true;
      if category.None? {
        ok := CheckFeature(Encryption);
        if ok {
          ok := CheckFeature(Compression);
        }
        if ok {
          ok := CheckFeature(Authorization);
        }
      }
      if category == Some(Authorization) {
        ok := CheckFeature(Encryption);
      }
    }

    method ActivateFeature(fails: bool)
      modifies this
      ensures Abs() == Activate(old(Abs()), fails)
    {
      hide Blocker;
      ghost var was := Abs();
      var i := if currentStreamFeature.None? then 0 else IndexOf(features, currentStreamFeature.value) + 1;
      currentStreamFeature := None;
      while i < |features|
        invariant 0 <= i && Abs() == was.(current := None)
        invariant FirstEligible(was, i) == NextIndex(was)
      {
        var feature := features[i];
        var category := CategoryOf(feature);
        if feature !in advertised || (category.Some? && Get(configs, category.value) == Disable) {
          i := i + 1;
          continue;
        }
        SameBlocker(was, feature);
        var ok := CheckAll(feature);
        if ok {
          Start(feature, fails);
        }
        return;
      }
      EmitDisconnected(NoSupportedFeature);
    }

    /** The end of a features element. */
    method FeaturesRead(advertised: set<Feature>, fails: bool)
      modifies this
      ensures Abs() == Happen(old(Abs()), Advertise(advertised, fails))
    {
      this.advertised := advertised;
      currentStreamFeature := None;
      ActivateFeature(fails);
    }

    /** StreamInfoImpl::completed. */
    method ReportCompleted(flags: Flags, fails: bool)
      modifies this
      ensures Abs() == Completed(old(Abs()), flags, fails)
    {
      if flags.authorizationFailed {
        EmitDisconnected(AuthorizationError);
        return;
      }
      if flags.authorized {
        authorized := true;
      }
      if flags.resendHeader {
        advertised := {};
        currentStreamFeature := None;
      }
      if flags.activateNext {
        ActivateFeature(fails);
      }
      if flags.connected {
        isConnected := true;
      }
    }
  }

  // ---------------------------------------------------------------- only a negotiated stream connects

  /** Every forced bit is set. */
  predicate AllSatisfied(s: State) {
    && (s.configs.encryption == Force ==> Encryption in s.used)
    && (s.configs.compression == Force ==> Compression in s.used)
    && (s.configs.authorization == Force ==> Authorization in s.used)
  }

  /** Which of the three a feature provides, by its type. */
  predicate Provides(f: Feature, c: Category) {
    || (c == Encryption && f.kind == SECURITY_LAYER)
    || (c == Compression && f.kind == COMPRESSION_LAYER)
    || (c == Authorization && (f.kind == SASL || f.kind == SIMPLE_AUTHORIZATION))
  }

  predicate Custom(f: Feature) {
    !Provides(f, Encryption) && !Provides(f, Compression) && !Provides(f, Authorization)
  }

  /** The policy for a feature. */
  predicate Enabled(configs: Configs, f: Feature) {
    && (Provides(f, Encryption) ==> configs.encryption != Disable)
    && (Provides(f, Compression) ==> configs.compression != Disable)
    && (Provides(f, Authorization) ==> configs.authorization != Disable)
  }

  /** What must have been marked used before this feature is activated. */
  predicate MayActivate(configs: Configs, f: Feature, used: set<Category>) {
    && Enabled(configs, f)
    && (Provides(f, Authorization) || Custom(f) ==> configs.encryption == Force ==> Encryption in used)
    && (Custom(f) ==> configs.compression == Force ==> Compression in used)
    && (Custom(f) ==> configs.authorization == Force ==> Authorization in used)
  }

  predicate GoodOutcome(configs: Configs, o: Outcome) {
    o.Activated? ==> MayActivate(configs, o.feature, o.used)
  }

  /** What every step keeps, whatever the features report. */
  predicate Inv(s: State) {
    && Sorted(s.features)
    && (forall f :: f in s.live ==> (Custom(f) ==> AllSatisfied(s)))
    && (forall o :: o in s.outcomes ==> GoodOutcome(s.configs, o))
  }

  /** A connection is reported only with every forced bit set. */
  predicate Negotiated(s: State) {
    s.isConnected ==> AllSatisfied(s)
  }

  lemma DisconnectKeepsInv(s: State, reason: Reason)
    requires Inv(s)
    ensures Inv(Disconnect(s, reason)) && Negotiated(Disconnect(s, reason))
  {
  }

  /** An activation call ends in one activation or one disconnect, and in both if the activation
      fails before it returns. */
  lemma {:induction false} ActivateKeepsInv(s: State, fails: bool)
    requires Inv(s)
    ensures Inv(Activate(s, fails)) && (Negotiated(s) ==> Negotiated(Activate(s, fails)))
    ensures var s' := Activate(s, fails);
            && s.outcomes <= s'.outcomes && s'.configs == s.configs && s'.features == s.features
            && var o := s'.outcomes[|s.outcomes|..];
               if Chosen(s).Some? && fails
               then o == [Activated(Chosen(s).value, s.used), Disconnected(AuthorizationError)]
               else |o| == 1 && o[0].Activated? == s'.current.Some? == Chosen(s).Some?
  {
    hide Sorted, Chosen, Inv, Eligible;
    if Chosen(s).Some? {
      ChosenMayActivate(s);
      KeepsInvWith(s, Chosen(s).value, fails);
    } else {
      NothingActivated(s, fails);
    }
  }

  lemma NothingActivated(s: State, fails: bool)
    requires Inv(s) && Chosen(s).None?
    ensures Inv(Activate(s, fails)) && Negotiated(Activate(s, fails))
  {
    hide Sorted, NextIndex;
  }

  lemma ChosenMayActivate(s: State)
    requires Chosen(s).Some?
    ensures MayActivate(s.configs, Chosen(s).value, s.used)
    ensures Custom(Chosen(s).value) ==> AllSatisfied(s)
  {
    hide NextIndex;
    NextIsEligible(s);
  }

  lemma KeepsInvWith(s: State, f: Feature, fails: bool)
    requires Inv(s) && Chosen(s) == Some(f) && MayActivate(s.configs, f, s.used)
    requires Custom(f) ==> AllSatisfied(s)
    ensures Inv(Activate(s, fails)) && (Negotiated(s) ==> Negotiated(Activate(s, fails)))
  {
    hide Sorted, Chosen, MayActivate;
  }

  lemma {:induction false} FirstEligibleIsFirst(s: State, i: nat)
    ensures var j := FirstEligible(s, i);
            && (j != -1 ==> Eligible(s, s.features[j]))
            && (forall k :: i <= k < |s.features| && (j == -1 || k < j) ==> !Eligible(s, s.features[k]))
    decreases |s.features| - i
  {
    if i < |s.features| && !Eligible(s, s.features[i]) {
      FirstEligibleIsFirst(s, i + 1);
    }
  }

  lemma NextIsEligible(s: State)
    requires NextIndex(s) != -1
    ensures Eligible(s, s.features[NextIndex(s)])
  {
    FirstEligibleIsFirst(s, if s.current.None? then 0 else IndexOf(s.features, s.current.value) + 1);
  }

  /** The position from which the next feature is looked for: behind the first place of the current one. */
  predicate LooksFrom(s: State, i: nat) {
    match s.current
    case None => i == 0
    case Some(f) =>
      if f in s.features then 0 < i <= |s.features| && s.features[i - 1] == f && f !in s.features[..i - 1]
      else i == 0
  }

  /** The first advertised feature from i on that its policy allows. */
  predicate IsNext(s: State, i: nat, j: nat) {
    && i <= j < |s.features| && s.features[j] in s.advertised && Enabled(s.configs, s.features[j])
    && forall k :: i <= k < j ==> !(s.features[k] in s.advertised && Enabled(s.configs, s.features[k]))
  }

  /** What is to happen to a feature that is next: authorization waits for forced encryption, and custom
      features for everything that is forced. */
  function Verdict(configs: Configs, used: set<Category>, f: Feature): Outcome {
    if (Provides(f, Authorization) || Custom(f)) && configs.encryption == Force && Encryption !in used then
      Disconnected(NoEncryptionSupport)
    else if Custom(f) && configs.compression == Force && Compression !in used then Disconnected(NoCompressionSupport)
    else if Custom(f) && configs.authorization == Force && Authorization !in used then
      Disconnected(NoAuthorizationSupport)
    else Activated(f, used)
  }

  /** An activation call takes the next feature and gives it what it is due; without one it disconnects. */
  lemma {:induction false} NextFeatureGetsItsDue(s: State, fails: bool, i: nat)
    requires LooksFrom(s, i)
    ensures var s' := Activate(s, fails);
            && |s.outcomes| < |s'.outcomes|
            && (forall j: nat :: IsNext(s, i, j) ==>
                  s'.outcomes[|s.outcomes|] == Verdict(s.configs, s.used, s.features[j]))
            && ((forall j: nat :: !IsNext(s, i, j)) ==> s'.outcomes[|s.outcomes|] == Disconnected(NoSupportedFeature))
  {
    hide Eligible, Blocker, FirstEligible;
    FirstEligibleIsFirst(s, i);
    forall f: Feature ensures Eligible(s, f) == (f in s.advertised && Enabled(s.configs, f)) {
      EligibleIsEnabled(s, f);
    }
    var n := NextIndex(s);
    if n != -1 {
      assert IsNext(s, i, n);
      forall j: nat | IsNext(s, i, j) ensures j == n {
      }
      BlockerIsVerdict(s, s.features[n]);
    }
  }

  lemma EligibleIsEnabled(s: State, f: Feature)
    ensures Eligible(s, f) == (f in s.advertised && Enabled(s.configs, f))
  {
  }

  lemma BlockerIsVerdict(s: State, f: Feature)
    ensures Verdict(s.configs, s.used, f) ==
              if Blocker(s, f).None? then Activated(f, s.used) else Disconnected(ReasonFor(Blocker(s, f).value))
  {
  }

  predicate AnythingForced(configs: Configs) {
    configs.compression == Force || configs.encryption == Force || configs.authorization == Force
  }

  /** Can this report be the connection's? Without a further activation the forced bits are set
      already. With one, they are set once its own bit is, and the activation does not lose them
      again by failing; an activation that does not take place loses them all. */
  predicate MayConnect(s: State, flags: Flags, fails: bool) {
    flags.connected && !flags.authorizationFailed ==>
      if !flags.activateNext then AllSatisfied(s)
      else
        var s' := if flags.resendHeader then s.(advertised := {}, current := None) else s;
        var chosen := Chosen(s');
        if chosen.None? then !AnythingForced(s.configs)
        else AllSatisfied(s.(used := (if fails then {} else s.used) + Bit(chosen.value)))
  }

  lemma SameInv(s: State, t: State)
    requires Inv(s) && t.features == s.features && t.configs == s.configs && t.used == s.used
    requires t.live == s.live && t.outcomes == s.outcomes
    ensures Inv(t)
  {
  }

  lemma {:induction false} ForcedBitsAfter(s: State, fails: bool)
    ensures AllSatisfied(Activate(s, fails)) ==
              if Chosen(s).None? then !AnythingForced(s.configs)
              else AllSatisfied(s.(used := (if fails then {} else s.used) + Bit(Chosen(s).value)))
  {
    hide NextIndex, Blocker, Chosen, Bit;
  }

  /** A report, whoever makes it and whatever its flags, leaves a negotiated stream negotiated exactly
      if it may report the connection. */
  lemma {:induction false} CompletionIsSafe(s: State, flags: Flags, fails: bool)
    requires Inv(s)
    ensures Inv(Completed(s, flags, fails)) && Completed(s, flags, fails).configs == s.configs
    ensures Negotiated(s) ==> (Negotiated(Completed(s, flags, fails)) <==> MayConnect(s, flags, fails))
  {
    hide Inv, GoodOutcome, Chosen, Activate, Bit, AnythingForced;
    if flags.authorizationFailed {
      DisconnectKeepsInv(s, AuthorizationError);
    } else {
      var s1 := if flags.authorized then s.(authorized := true) else s;
      var s2 := if flags.resendHeader then s1.(advertised := {}, current := None) else s1;
      SameInv(s, s2);
      if flags.activateNext {
        SameChoice(s1, s, flags.resendHeader);
        ForcedBitsAfter(s2, fails);
        ActivateKeepsInv(s2, fails);
        SameInv(Activate(s2, fails), Activate(s2, fails).(isConnected := true));
      } else {
        SameInv(s2, s2.(isConnected := true));
      }
    }
  }

  /** A session feature that reports the connection and asks for a successor that does not exist:
      the client ends up connected without the forced authorization. */
  lemma ConnectedAfterDisconnect(session: Feature)
    requires Custom(session)
    ensures var s := State([session], Configs(Auto, Auto, Force), {Authorization}, Some(session),
                           true, false, {}, {session}, []);
            var s' := Completed(s, Flags(false, false, true, true, false), false);
            Inv(s) && s'.isConnected && !AllSatisfied(s')
  {
  }

  /** An authorization feature that reports the connection along with its own success: the client ends
      up connected without the forced compression. */
  lemma ConnectedTooEarly(sasl: Feature)
    requires sasl.kind == SASL
    ensures var s := State([sasl], Configs(Force, Auto, Force), {}, None, false, false, {}, {}, []);
            var report := Complete(sasl, Flags(false, true, false, true, false), false);
            var s' := Run(s, [Connect, Advertise({sasl}, false), report]);
            Inv(s) && s'.isConnected && !AllSatisfied(s')
  {
    var s := State([sasl], Configs(Force, Auto, Force), {}, None, false, false, {}, {}, []);
    var report := Complete(sasl, Flags(false, true, false, true, false), false);
    RunThree(s, Connect, Advertise({sasl}, false), report);
    assert Happen(s, Connect) == s;
    assert Chosen(s.(advertised := {sasl})) == Some(sasl);
    var s2 := Happen(s, Advertise({sasl}, false));
    assert s2.used == {Authorization} && s2.configs == s.configs;
    assert !Satisfied(Happen(s2, report), Compression);
  }

  lemma RunThree(s: State, a: Step, b: Step, c: Step)
    ensures Run(s, [a, b, c]) == Happen(Happen(Happen(s, a), b), c)
  {
    hide Happen;
    assert [a, b, c][1..] == [b, c] && [b, c][1..] == [c] && [c][1..] == [];
    var s1, s2 := Happen(s, a), Happen(Happen(s, a), b);
    assert Run(s, [a, b, c]) == Run(s1, [b, c]);
    assert Run(s1, [b, c]) == Run(s2, [c]);
    assert Run(s2, [c]) == Run(Happen(s2, c), []);
  }

  /** The authorized flag plays no part in the choice. */
  lemma {:induction false} SameChoice(s1: State, s: State, resend: bool)
    requires s1 == s || s1 == s.(authorized := true)
    ensures var t1 := if resend then s1.(advertised := {}, current := None) else s1;
            var t := if resend then s.(advertised := {}, current := None) else s;
            Chosen(t1) == Chosen(t)
  {
    var t1 := if resend then s1.(advertised := {}, current := None) else s1;
    var t := if resend then s.(advertised := {}, current := None) else s;
    SameFirst(t1, t, if t.current.None? then 0 else IndexOf(t.features, t.current.value) + 1);
  }

  lemma {:induction false} SameFirst(t1: State, t: State, i: nat)
    requires t1 == t || t1 == t.(authorized := true)
    ensures FirstEligible(t1, i) == FirstEligible(t, i)
    decreases |t.features| - i
  {
    if i < |t.features| {
      SameFirst(t1, t, i + 1);
    }
  }

  // ---------------------------------------------------------------- runs

  function Run(s: State, steps: seq<Step>): State
    decreases |steps|
  {
    if steps == [] then s else Run(Happen(s, steps[0]), steps[1..])
  }

  /** Along a run every reported connection is a negotiated one. */
  predicate NegotiatedThroughout(s: State, steps: seq<Step>)
    decreases |steps|
  {
    Negotiated(s) && (steps != [] ==> NegotiatedThroughout(Happen(s, steps[0]), steps[1..]))
  }

  predicate Safe(s: State, step: Step) {
    step.Complete? ==> MayConnect(s, step.flags, step.fails)
  }

  predicate SafeThroughout(s: State, steps: seq<Step>)
    decreases |steps|
  {
    steps != [] ==> Safe(s, steps[0]) && SafeThroughout(Happen(s, steps[0]), steps[1..])
  }

  lemma {:induction false} HappenKeepsInv(s: State, step: Step)
    requires Inv(s)
    ensures Inv(Happen(s, step)) && Happen(s, step).configs == s.configs
    ensures Negotiated(s) ==> (Negotiated(Happen(s, step)) <==> Safe(s, step))
  {
    hide Sorted, NextIndex, Blocker, Registered, Removed, Chosen;
    match step
    case Advertise(features, fails) => ActivateKeepsInv(s.(advertised := features, current := None), fails);
    case Complete(f, flags, fails) => CompletionIsSafe(s, flags, fails);
    case Connect =>
    case Close => DisconnectKeepsInv(s, SocketClosed);
    case Register(f) => RegisteringKeepsSorted(s.features, f);
    case Remove(f) => RemovingKeepsSorted(s.features, f);
  }

  /** In every run with fixed configs: the connection is reported only with every forced bit set,
      exactly if every report of a connection may be one. */
  lemma {:induction false} OnlyNegotiatedStreamsConnect(s: State, steps: seq<Step>)
    requires Inv(s) && Negotiated(s)
    ensures NegotiatedThroughout(s, steps) <==> SafeThroughout(s, steps)
    decreases |steps|
  {
    hide Inv, Happen, Negotiated, Safe;
    if steps != [] {
      HappenKeepsInv(s, steps[0]);
      if Safe(s, steps[0]) {
        OnlyNegotiatedStreamsConnect(Happen(s, steps[0]), steps[1..]);
      } else {
        NotAtFirst(Happen(s, steps[0]), steps[1..]);
      }
    }
  }

  lemma NotAtFirst(s: State, steps: seq<Step>)
    requires !Negotiated(s)
    ensures !NegotiatedThroughout(s, steps)
  {
  }

  /** In every run, also one with reports that are not safe: the list stays sorted, and every
      activation found the bits it needs; no disabled feature is activated. */
  lemma {:induction false} OnlyPermittedFeaturesActivate(s: State, steps: seq<Step>)
    requires Inv(s)
    ensures var s' := Run(s, steps);
            && s'.configs == s.configs && Sorted(s'.features)
            && (forall o :: o in s'.outcomes && o.Activated? ==> MayActivate(s.configs, o.feature, o.used))
    decreases |steps|
  {
    if steps == [] {
      assert forall o :: o in s.outcomes ==> GoodOutcome(s.configs, o);
    } else {
      hide Inv, Happen, Sorted, MayActivate, Get;
      HappenKeepsInv(s, steps[0]);
      OnlyPermittedFeaturesActivate(Happen(s, steps[0]), steps[1..]);
    }
  }

  /** What a custom feature reports when it has been activated on this connection and asks for no
      successor, as the session feature does, may be the connection. */
  lemma {:induction false} CustomFeaturesConnectSafely(s: State, f: Feature, flags: Flags, fails: bool)
    requires Inv(s) && f in s.live && Custom(f) && !flags.activateNext
    ensures MayConnect(s, flags, fails)
  {
  }

  /** As CustomFeaturesConnectSafely asks: every connected report of the run comes from a live custom
      feature and asks for no successor. */
  predicate OnlyCustomReports(s: State, steps: seq<Step>)
    decreases |steps|
  {
    steps != [] ==>
      && (steps[0].Complete? && steps[0].flags.connected ==>
            steps[0].feature in s.live && Custom(steps[0].feature) && !steps[0].flags.activateNext)
      && OnlyCustomReports(Happen(s, steps[0]), steps[1..])
  }

  lemma {:induction false} CustomReportsAreSafe(s: State, steps: seq<Step>)
    requires Inv(s) && OnlyCustomReports(s, steps)
    ensures SafeThroughout(s, steps)
    decreases |steps|
  {
    hide Inv, Happen, MayConnect;
    if steps != [] {
      HappenKeepsInv(s, steps[0]);
      if steps[0].Complete? {
        if steps[0].flags.connected {
          CustomFeaturesConnectSafely(s, steps[0].feature, steps[0].flags, steps[0].fails);
        } else {
          NoReportIsSafe(s, steps[0].flags, steps[0].fails);
        }
      }
      CustomReportsAreSafe(Happen(s, steps[0]), steps[1..]);
    }
  }

  lemma NoReportIsSafe(s: State, flags: Flags, fails: bool)
    requires !flags.connected
    ensures MayConnect(s, flags, fails)
  {
  }

  /** A client whose connected reports all come from session features, as with the built-in features,
      never reports a connection without every forced bit. */
  lemma {:induction false} SessionFeaturesConnectNegotiatedStreams(s: State, steps: seq<Step>)
    requires Inv(s) && Negotiated(s) && OnlyCustomReports(s, steps)
    ensures NegotiatedThroughout(s, steps)
  {
    hide *;
    CustomReportsAreSafe(s, steps);
    OnlyNegotiatedStreamsConnect(s, steps);
  }

  // ---------------------------------------------------------------- where the used bits come from

  /** Every used bit belongs to a feature activated since the last disconnect. */
  predicate Earned(s: State) {
    forall c :: c in s.used ==> exists f :: f in s.live && Provides(f, c)
  }

  /** The activation that this step leads to, if it does. */
  function Activating(s: State, step: Step): Option<Feature> {
    match step
    case Advertise(features, _) => Chosen(s.(advertised := features, current := None))
    case Complete(_, flags, _) =>
      if flags.authorizationFailed || !flags.activateNext then None
      else Chosen(if flags.resendHeader then s.(advertised := {}, current := None) else s)
    case _ => None
  }

  /** An activation that sets a bit fails before it returns. */
  predicate LeavesBit(s: State, step: Step) {
    && (step.Advertise? || step.Complete?) && step.fails
    && Activating(s, step).Some? && !Custom(Activating(s, step).value)
  }

  predicate EarnedThroughout(s: State, steps: seq<Step>)
    decreases |steps|
  {
    Earned(s) && (steps != [] ==> EarnedThroughout(Happen(s, steps[0]), steps[1..]))
  }

  predicate NeverLeavesBit(s: State, steps: seq<Step>)
    decreases |steps|
  {
    steps != [] ==> !LeavesBit(s, steps[0]) && NeverLeavesBit(Happen(s, steps[0]), steps[1..])
  }

  lemma {:induction false} ActivationEarns(s: State, fails: bool)
    requires Earned(s)
    ensures Earned(Activate(s, fails)) <==> !(fails && Chosen(s).Some? && !Custom(Chosen(s).value))
  {
    hide Chosen, Blocker, NextIndex;
    var s' := Activate(s, fails);
    if Chosen(s).Some? {
      var f := Chosen(s).value;
      if fails {
        assert s'.used == Bit(f) && s'.live == {};
      } else {
        assert f in s'.live;
        forall c | c in s'.used ensures exists g :: g in s'.live && Provides(g, c) {
          if c in s.used {
            var g :| g in s.live && Provides(g, c);
            assert g in s'.live;
          }
        }
      }
    }
  }

  lemma {:induction false} HappenEarns(s: State, step: Step)
    requires Earned(s)
    ensures Earned(Happen(s, step)) <==> !LeavesBit(s, step)
  {
    hide Chosen, Activate, Registered, Removed;
    match step
    case Advertise(features, fails) => ActivationEarns(s.(advertised := features, current := None), fails);
    case Complete(_, flags, fails) =>
      if !flags.authorizationFailed {
        var s1 := if flags.authorized then s.(authorized := true) else s;
        var s2 := if flags.resendHeader then s1.(advertised := {}, current := None) else s1;
        SameChoice(s1, s, flags.resendHeader);
        assert Earned(s2);
        ActivationEarns(s2, fails);
      }
    case _ =>
  }

  /** In every run every used bit belongs to a feature activated since the last disconnect, exactly if
      no activation that sets a bit fails before it returns. */
  lemma {:induction false} UsedBitsAreEarned(s: State, steps: seq<Step>)
    requires Earned(s)
    ensures EarnedThroughout(s, steps) <==> NeverLeavesBit(s, steps)
    decreases |steps|
  {
    hide Earned, Happen, LeavesBit;
    if steps != [] {
      HappenEarns(s, steps[0]);
      if !LeavesBit(s, steps[0]) {
        UsedBitsAreEarned(Happen(s, steps[0]), steps[1..]);
      } else {
        NotEarnedAtFirst(Happen(s, steps[0]), steps[1..]);
      }
    }
  }

  lemma NotEarnedAtFirst(s: State, steps: seq<Step>)
    requires !Earned(s)
    ensures !EarnedThroughout(s, steps)
  {
  }

  /** SASL fails while it is activated. On the next connection the server offers the session at once,
      and the client reports the connection although the forced authorization was neither granted
      nor even tried on it; its bit is left from the failure. */
  lemma {:induction false} BitOutlivesDisconnect(sasl: Feature, session: Feature)
    requires sasl.kind == SASL && session.kind == CUSTOM
    ensures var s := State([sasl, session], Configs(Auto, Auto, Force), {}, None, false, false, {}, {}, []);
            var report := Complete(session, Flags(false, false, false, true, false), false);
            var s' := Run(s, [Advertise({sasl}, true), Advertise({session}, false), report]);
            && Inv(s) && s'.isConnected && !s'.authorized && Authorization in s'.used
            && s'.live == {session}
  {
    var s := State([sasl, session], Configs(Auto, Auto, Force), {}, None, false, false, {}, {}, []);
    var report := Complete(session, Flags(false, false, false, true, false), false);
    var s0 := s.(advertised := {sasl});
    assert s.features[0] == sasl && s.features[1] == session;
    assert Chosen(s0) == Some(sasl);
    var s1 := Happen(s, Advertise({sasl}, true));
    assert s1.used == {Authorization} && s1.live == {} && s1.features == s.features && s1.configs == s.configs;
    var t := s1.(advertised := {session}, current := None);
    assert FirstEligible(t, 1) == 1;
    assert Chosen(t) == Some(session);
    var s2 := Happen(s1, Advertise({session}, false));
    assert s2.used == {Authorization} && s2.live == {session};
    RunThree(s, Advertise({sasl}, true), Advertise({session}, false), report);
  }

  // ---------------------------------------------------------------- only an authorized stream connects

  /** With authorization forced the connection is reported only once it has been granted. */
  predicate Authenticated(s: State) {
    s.isConnected && s.configs.authorization == Force ==> s.authorized
  }

  /** A report of the connection comes with authorization granted, and does not lose it again: the
      activation it asks for takes place and does not fail. */
  predicate ReportsAuthorized(s: State, step: Step) {
    step.Complete? && step.flags.connected && !step.flags.authorizationFailed && s.configs.authorization == Force ==>
      && (s.authorized || step.flags.authorized)
      && (step.flags.activateNext ==> Activating(s, step).Some? && !step.fails)
  }

  predicate AuthenticatedThroughout(s: State, steps: seq<Step>)
    decreases |steps|
  {
    Authenticated(s) && (steps != [] ==> AuthenticatedThroughout(Happen(s, steps[0]), steps[1..]))
  }

  predicate ReportsAuthorizedThroughout(s: State, steps: seq<Step>)
    decreases |steps|
  {
    steps != [] ==> ReportsAuthorized(s, steps[0]) && ReportsAuthorizedThroughout(Happen(s, steps[0]), steps[1..])
  }

  lemma ActivationAuthenticates(s: State, fails: bool)
    ensures var s' := Activate(s, fails);
            && s'.configs == s.configs
            && if Chosen(s).Some? && !fails then s'.authorized == s.authorized && s'.isConnected == s.isConnected
               else !s'.authorized && !s'.isConnected
  {
    hide Chosen;
  }

  lemma {:induction false} HappenAuthenticates(s: State, step: Step)
    requires Authenticated(s)
    ensures Authenticated(Happen(s, step)) <==> ReportsAuthorized(s, step)
  {
    hide Chosen, Activate, Registered, Removed;
    match step
    case Advertise(features, fails) => ActivationAuthenticates(s.(advertised := features, current := None), fails);
    case Complete(_, flags, fails) =>
      if !flags.authorizationFailed {
        var s1 := if flags.authorized then s.(authorized := true) else s;
        var s2 := if flags.resendHeader then s1.(advertised := {}, current := None) else s1;
        SameChoice(s1, s, flags.resendHeader);
        ActivationAuthenticates(s2, fails);
      }
    case _ =>
  }

  /** In every run with fixed configs: with authorization forced, the connection is reported only once it
      has been granted on this connection, exactly if every report of a connection comes with it. */
  lemma {:induction false} OnlyAuthorizedStreamsConnect(s: State, steps: seq<Step>)
    requires Authenticated(s)
    ensures AuthenticatedThroughout(s, steps) <==> ReportsAuthorizedThroughout(s, steps)
    decreases |steps|
  {
    hide Authenticated, Happen, ReportsAuthorized;
    if steps != [] {
      HappenAuthenticates(s, steps[0]);
      if ReportsAuthorized(s, steps[0]) {
        OnlyAuthorizedStreamsConnect(Happen(s, steps[0]), steps[1..]);
      } else {
        NotAuthenticatedAtFirst(Happen(s, steps[0]), steps[1..]);
      }
    }
  }

  lemma NotAuthenticatedAtFirst(s: State, steps: seq<Step>)
    requires !Authenticated(s)
    ensures !AuthenticatedThroughout(s, steps)
  {
  }

  /** A server that advertises the session again before SASL has succeeded: every used bit is earned and
      every forced bit is set, and the connection is reported without authorization. */
  lemma {:induction false} ConnectedUnauthorized(sasl: Feature, session: Feature)
    requires sasl.kind == SASL && session.kind == CUSTOM
    ensures var s := State([sasl, session], Configs(Auto, Auto, Force), {}, None, false, false, {}, {}, []);
            var report := Complete(session, Flags(false, false, false, true, false), false);
            var steps := [Advertise({sasl}, false), Advertise({session}, false), report];
            var s' := Run(s, steps);
            && Inv(s) && SafeThroughout(s, steps) && NeverLeavesBit(s, steps)
            && s'.isConnected && !s'.authorized && AllSatisfied(s') && Earned(s')
  {
    var s := State([sasl, session], Configs(Auto, Auto, Force), {}, None, false, false, {}, {}, []);
    var a, b := Advertise({sasl}, false), Advertise({session}, false);
    var report := Complete(session, Flags(false, false, false, true, false), false);
    RunThree(s, a, b, report);
    assert s.features[0] == sasl && s.features[1] == session;
    assert Chosen(s.(advertised := {sasl})) == Some(sasl);
    var s1 := Happen(s, a);
    assert s1.used == {Authorization} && s1.live == {sasl} && s1.features == s.features && s1.configs == s.configs;
    var t := s1.(advertised := {session}, current := None);
    assert FirstEligible(t, 1) == 1;
    assert Chosen(t) == Some(session);
    var s2 := Happen(s1, b);
    assert s2.used == {Authorization} && s2.live == {sasl, session};
    ThreeSafe(s, a, b, report);
    assert Provides(sasl, Authorization) && sasl in s2.live;
  }

  lemma ThreeSafe(s: State, a: Step, b: Step, c: Step)
    ensures var s1, s2 := Happen(s, a), Happen(Happen(s, a), b);
            && (SafeThroughout(s, [a, b, c]) <==> Safe(s, a) && Safe(s1, b) && Safe(s2, c))
            && (NeverLeavesBit(s, [a, b, c]) <==> !LeavesBit(s, a) && !LeavesBit(s1, b) && !LeavesBit(s2, c))
  {
    hide Happen, Safe, LeavesBit;
    assert [a, b, c][1..] == [b, c] && [b, c][1..] == [c] && [c][1..] == [];
    var s1, s2 := Happen(s, a), Happen(Happen(s, a), b);
    assert SafeThroughout(Happen(s2, c), []) && NeverLeavesBit(Happen(s2, c), []);
    assert SafeThroughout(s2, [c]) == Safe(s2, c);
    assert NeverLeavesBit(s2, [c]) == !LeavesBit(s2, c);
    assert SafeThroughout(s1, [b, c]) == (Safe(s1, b) && SafeThroughout(s2, [c]));
    assert NeverLeavesBit(s1, [b, c]) == (!LeavesBit(s1, b) && NeverLeavesBit(s2, [c]));
  }

  // ---------------------------------------------------------------- activations move forward

  /** No eligible feature stands in the list twice. */
  predicate NoEligibleTwice(s: State) {
    forall i, j :: 0 <= i < j < |s.features| && Eligible(s, s.features[j]) ==> s.features[i] != s.features[j]
  }

  /** The position reached from `current` and the one reached from there. */
  predicate MovesForward(s: State, current: Option<Feature>) {
    var j := NextIndex(s.(current := current));
    j != -1 ==>
      var k := NextIndex(s.(current := Some(s.features[j])));
      k == -1 || k > j
  }

  lemma NextBehind(s: State, current: Option<Feature>)
    ensures var i := if current.None? then 0 else IndexOf(s.features, current.value) + 1;
            NextIndex(s.(current := current)) == FirstEligible(s.(current := current), i) == FirstEligible(s, i)
  {
    var i := if current.None? then 0 else IndexOf(s.features, current.value) + 1;
    SameFirstFrom(s, current, i);
  }

  lemma {:induction false} SameFirstFrom(s: State, current: Option<Feature>, i: nat)
    ensures FirstEligible(s.(current := current), i) == FirstEligible(s, i)
    decreases |s.features| - i
  {
    if i < |s.features| {
      assert Eligible(s.(current := current), s.features[i]) == Eligible(s, s.features[i]);
      SameFirstFrom(s, current, i + 1);
    }
  }

  lemma {:induction false} ForwardWithoutDuplicates(s: State, current: Option<Feature>)
    requires NoEligibleTwice(s)
    ensures MovesForward(s, current)
  {
    hide NextIndex, Eligible;
    NextBehind(s, current);
    var i := if current.None? then 0 else IndexOf(s.features, current.value) + 1;
    var j := NextIndex(s.(current := current));
    if j != -1 {
      FirstEligibleIsFirst(s, i);
      NextBehind(s, Some(s.features[j]));
      var p := IndexOf(s.features, s.features[j]);
      assert p == j;
    }
  }

  /** The first position at which an eligible feature stands again. */
  lemma {:induction false} FirstDuplicate(s: State, n: nat) returns (q: nat, p: nat)
    requires n <= |s.features|
    requires exists i, j :: 0 <= i < j < n && Eligible(s, s.features[j]) && s.features[i] == s.features[j]
    ensures p < q < n && Eligible(s, s.features[q]) && s.features[p] == s.features[q]
    ensures forall i, j :: 0 <= i < j < q && Eligible(s, s.features[j]) ==> s.features[i] != s.features[j]
  {
    var i, j :| 0 <= i < j < n && Eligible(s, s.features[j]) && s.features[i] == s.features[j];
    if exists i', j' :: 0 <= i' < j' < j && Eligible(s, s.features[j']) && s.features[i'] == s.features[j'] {
      q, p := FirstDuplicate(s, j);
    } else {
      q, p := j, i;
    }
  }

  lemma {:induction false} LastEligibleBefore(s: State, q: nat, p: nat) returns (x: nat)
    requires p < q <= |s.features| && Eligible(s, s.features[p])
    ensures p <= x < q && Eligible(s, s.features[x])
    ensures forall k :: x < k < q ==> !Eligible(s, s.features[k])
    decreases q - p
  {
    if exists k :: p < k < q && Eligible(s, s.features[k]) {
      var k :| p < k < q && Eligible(s, s.features[k]);
      x := LastEligibleBefore(s, q, k);
    } else {
      x := p;
    }
  }

  lemma {:induction false} DuplicatesMoveBack(s: State)
    requires !NoEligibleTwice(s)
    ensures exists current :: !MovesForward(s, current)
  {
    hide NextIndex, Eligible, FirstEligible, MovesForward;
    var q, p := FirstDuplicate(s, |s.features|);
    var x := LastEligibleBefore(s, q, p);
    assert IndexOf(s.features, s.features[x]) == x;
    BackFromSecondPlace(s, x, p, q);
  }

  /** From the last eligible place before the second place of a feature. */
  lemma {:induction false} BackFromSecondPlace(s: State, x: nat, p: nat, q: nat)
    requires p < q < |s.features| && s.features[p] == s.features[q] && Eligible(s, s.features[q])
    requires x < q && IndexOf(s.features, s.features[x]) == x
    requires forall k :: x < k < q ==> !Eligible(s, s.features[k])
    ensures !MovesForward(s, Some(s.features[x]))
  {
    hide NextIndex, Eligible;
    NextBehind(s, Some(s.features[x]));
    FirstEligibleIsFirst(s, x + 1);
    assert NextIndex(s.(current := Some(s.features[x]))) == q;
    NextBehind(s, Some(s.features[q]));
    var first := IndexOf(s.features, s.features[q]);
    assert first <= p;
    FirstEligibleIsFirst(s, first + 1);
  }

  /** Along completions with ActivateNext the activated position strictly increases, exactly if no
      eligible feature is registered twice. */
  lemma {:induction false} ActivationsMoveForward(s: State)
    ensures NoEligibleTwice(s) <==> forall current :: MovesForward(s, current)
  {
    hide MovesForward, NoEligibleTwice;
    if NoEligibleTwice(s) {
      forall current ensures MovesForward(s, current) {
        ForwardWithoutDuplicates(s, current);
      }
    } else {
      DuplicatesMoveBack(s);
    }
  }

  // ---------------------------------------------------------------- one advertisement

  /** n activations in a row, each asked for by the one before. */
  function ActivateTimes(s: State, n: nat): State {
    if n == 0 then s else Activate(ActivateTimes(s, n - 1), false)
  }

  predicate AllSucceed(s: State, n: nat) {
    forall m: nat :: 0 < m <= n ==> ActivateTimes(s, m).current.Some?
  }

  /** One advertisement leads to at most as many activations as there are features. */
  ghost predicate Terminates(s: State) {
    forall n: nat :: AllSucceed(s, n) ==> n <= |s.features|
  }

  /** A chain of activations that all succeed leaves the list, the policies and the advertisement. */
  lemma {:induction false} ChainFacts(s: State, n: nat)
    requires AllSucceed(s, n)
    ensures var t := ActivateTimes(s, n);
            && t.features == s.features && t.configs == s.configs && t.advertised == s.advertised
            && (n > 0 ==> t.current.value in s.features && Eligible(s, t.current.value))
            && (n > 0 ==> Chosen(ActivateTimes(s, n - 1)) == t.current)
  {
    hide Eligible, Blocker;
    if n > 0 {
      ChainFacts(s, n - 1);
      var t := ActivateTimes(s, n - 1);
      assert Activate(t, false) == ActivateTimes(s, n);
      assert Activate(t, false).current.Some?;
      NextIsEligible(t);
      SameEligible(s, t, t.features[NextIndex(t)]);
    }
  }

  lemma SameEligible(s: State, t: State, f: Feature)
    requires t.configs == s.configs && t.advertised == s.advertised
    ensures Eligible(t, f) == Eligible(s, f)
  {
  }

  /** After n activations that all succeeded the current feature stands at position n - 1 or later. */
  lemma {:induction false} ChainPosition(s: State, n: nat)
    requires NoEligibleTwice(s) && s.current.None? && AllSucceed(s, n) && n > 0
    ensures IndexOf(s.features, ActivateTimes(s, n).current.value) >= n - 1
    decreases n
  {
    hide Eligible, Blocker, ActivateTimes;
    ChainFacts(s, n);
    ChainFacts(s, n - 1);
    var t := ActivateTimes(s, n - 1);
    if n > 1 {
      ChainPosition(s, n - 1);
    } else {
      assert t == s by {
        NoActivation(s);
      }
    }
    var j := NextIndex(t);
    NextIsEligible(t);
    SameEligible(s, t, t.features[j]);
    assert IndexOf(s.features, s.features[j]) == j;
  }

  lemma NoActivation(s: State)
    ensures ActivateTimes(s, 0) == s
  {
  }

  lemma {:induction false} TerminatesWithoutDuplicates(s: State)
    requires NoEligibleTwice(s) && s.current.None?
    ensures Terminates(s)
  {
    hide NoEligibleTwice, ActivateTimes, Eligible, AllSucceed;
    forall n: nat | AllSucceed(s, n) ensures n <= |s.features| {
      if n > 0 {
        ChainPosition(s, n);
        ChainFacts(s, n);
      }
    }
  }

  lemma OneMore(s: State, n: nat)
    requires n > 0
    ensures ActivateTimes(s, n) == Activate(ActivateTimes(s, n - 1), false)
  {
  }

  lemma SucceedEarlier(s: State, m: nat, n: nat)
    requires AllSucceed(s, n) && m <= n
    ensures AllSucceed(s, m)
  {
  }

  /** From the second activation of a feature on, the chain repeats itself; the used bits only grow, so
      no check fails that did not fail before. */
  lemma {:induction false} Periodic(s: State, a: nat, b: nat, n: nat)
    requires 0 < a < b <= n && AllSucceed(s, b)
    requires ActivateTimes(s, a).current == ActivateTimes(s, b).current
    ensures AllSucceed(s, n)
    ensures var t, u := ActivateTimes(s, n), ActivateTimes(s, n - (b - a));
            t.current == u.current && u.used <= t.used
    decreases n
  {
    hide ActivateTimes, AllSucceed, Activate;
    if n == b {
      UsedGrows(s, a, b);
    } else {
      Periodic(s, a, b, n - 1);
      OnePeriodLater(s, b - a, n);
    }
  }

  lemma {:induction false} OnePeriodLater(s: State, d: nat, n: nat)
    requires 0 < d < n - 1 && AllSucceed(s, n - 1)
    requires var t, u := ActivateTimes(s, n - 1), ActivateTimes(s, n - 1 - d);
             t.current == u.current && u.used <= t.used
    ensures AllSucceed(s, n)
    ensures var t, u := ActivateTimes(s, n), ActivateTimes(s, n - d);
            t.current == u.current && u.used <= t.used
  {
    hide ActivateTimes, Activate, Eligible, Chosen;
    ChainFacts(s, n - 1);
    SucceedEarlier(s, n - 1 - d, n - 1);
    ChainFacts(s, n - 1 - d);
    OneMore(s, n);
    OneMore(s, n - d);
    assert ActivateTimes(s, n - d).current.Some?;
    StepAlong(ActivateTimes(s, n - 1 - d), ActivateTimes(s, n - 1));
  }

  lemma {:induction false} UsedGrows(s: State, a: nat, b: nat)
    requires a <= b && AllSucceed(s, b)
    ensures ActivateTimes(s, a).used <= ActivateTimes(s, b).used
    decreases b
  {
    hide ActivateTimes, Activate;
    if a < b {
      UsedGrows(s, a, b - 1);
      OneMore(s, b);
      assert ActivateTimes(s, b).current.Some?;
      SuccessKeepsUsed(ActivateTimes(s, b - 1));
    }
  }

  lemma SuccessKeepsUsed(s: State)
    requires Activate(s, false).current.Some?
    ensures s.used <= Activate(s, false).used
  {
    hide Chosen, Blocker, NextIndex;
  }

  lemma {:induction false} StepAlong(u: State, t: State)
    requires u.features == t.features && u.configs == t.configs && u.advertised == t.advertised
    requires u.current == t.current && u.used <= t.used && Activate(u, false).current.Some?
    ensures Activate(t, false).current == Activate(u, false).current
    ensures Activate(u, false).used <= Activate(t, false).used
  {
    SameFirstAlong(u, t, if t.current.None? then 0 else IndexOf(t.features, t.current.value) + 1);
  }

  lemma {:induction false} SameFirstAlong(u: State, t: State, i: nat)
    requires u.features == t.features && u.configs == t.configs && u.advertised == t.advertised
    ensures FirstEligible(u, i) == FirstEligible(t, i)
    decreases |t.features| - i
  {
    if i < |t.features| {
      SameFirstAlong(u, t, i + 1);
    }
  }

  // ---------------------------------------------------------------- how far the chain gets

  /** The bits of the eligible features below a position. */
  function BitsBefore(s: State, k: nat): set<Category>
    requires k <= |s.features|
  {
    if k == 0 then {}
    else BitsBefore(s, k - 1) + (if Eligible(s, s.features[k - 1]) then Bit(s.features[k - 1]) else {})
  }

  function CountBefore(s: State, k: nat): (n: nat)
    requires k <= |s.features|
    ensures n <= k
  {
    if k == 0 then 0 else CountBefore(s, k - 1) + (if Eligible(s, s.features[k - 1]) then 1 else 0)
  }

  /** With the bits of the eligible features below it, no check stops the feature at this position. */
  predicate Passes(s: State, k: nat)
    requires k < |s.features|
  {
    Eligible(s, s.features[k]) ==> Blocker(s.(used := s.used + BitsBefore(s, k)), s.features[k]).None?
  }

  /** An eligible feature stands a second time at a position that no check keeps the chain from. */
  predicate ReachesDuplicate(s: State) {
    exists p, q :: 0 <= p < q < |s.features| && SecondPlace(s, p, q) && forall k :: 0 <= k <= q ==> Passes(s, k)
  }

  predicate SecondPlace(s: State, p: nat, q: nat)
    requires p < q < |s.features|
  {
    Eligible(s, s.features[q]) && s.features[p] == s.features[q]
  }

  predicate NoSecondPlaceBelow(s: State, k: nat)
    requires k <= |s.features|
  {
    forall i, j :: 0 <= i < j < k ==> !SecondPlace(s, i, j)
  }

  /** The chain at position k: everything eligible below has been activated, in order. */
  predicate HasReached(s: State, t: State, k: nat)
    requires k <= |s.features|
  {
    && t.features == s.features && t.configs == s.configs && t.advertised == s.advertised
    && t.used == s.used + BitsBefore(s, k) && NextIndex(t) == FirstEligible(s, k)
  }

  lemma {:induction false} StandsBehind(s: State, t: State, k: nat)
    requires k < |s.features| && HasReached(s, t, k) && Eligible(s, s.features[k]) && Passes(s, k)
    requires NoSecondPlaceBelow(s, k + 1)
    ensures Chosen(t) == Some(s.features[k])
    ensures Activate(t, false).current == Some(s.features[k]) && HasReached(s, Activate(t, false), k + 1)
  {
    hide Eligible, Blocker, NextIndex, BitsBefore;
    SameChecks(s.(used := t.used), t, s.features[k]);
    FirstPlace(s, k);
    BitsStep(s, k);
    var t' := Activate(t, false);
    NextFrom(s, t', k);
    assert t'.used == t.used + Bit(s.features[k]);
  }

  lemma BitsStep(s: State, k: nat)
    requires k < |s.features| && Eligible(s, s.features[k])
    ensures BitsBefore(s, k + 1) == BitsBefore(s, k) + Bit(s.features[k])
  {
  }

  lemma SameChecks(s: State, t: State, f: Feature)
    requires t.configs == s.configs && t.used == s.used
    ensures Blocker(t, f) == Blocker(s, f)
  {
  }

  lemma FirstPlace(s: State, k: nat)
    requires k < |s.features| && Eligible(s, s.features[k]) && NoSecondPlaceBelow(s, k + 1)
    ensures IndexOf(s.features, s.features[k]) == k && FirstEligible(s, k) == k
  {
    var i := IndexOf(s.features, s.features[k]);
    assert i < k ==> SecondPlace(s, i, k);
  }

  lemma NextFrom(s: State, t: State, k: nat)
    requires t.features == s.features && t.configs == s.configs && t.advertised == s.advertised
    requires k < |s.features| && t.current == Some(s.features[k]) && IndexOf(s.features, s.features[k]) == k
    ensures NextIndex(t) == FirstEligible(s, k + 1)
  {
    SameFirstAlong(t, s, k + 1);
  }

  lemma {:induction false} ChainAt(s: State, k: nat)
    requires s.current.None? && k <= |s.features| && NoSecondPlaceBelow(s, k)
    requires forall i :: 0 <= i < k ==> Passes(s, i)
    ensures var n := CountBefore(s, k);
            && AllSucceed(s, n) && HasReached(s, ActivateTimes(s, n), k)
            && (k > 0 && Eligible(s, s.features[k - 1]) ==>
                  n > 0 && ActivateTimes(s, n).current == Some(s.features[k - 1]))
    decreases k
  {
    hide ActivateTimes, Activate, Eligible, Passes, NextIndex, NoSecondPlaceBelow, AllSucceed, SecondPlace;
    if k == 0 {
      NoActivation(s);
      NoneSucceed(s);
      NextIndexAtStart(s);
    } else {
      FewerPlaces(s, k);
      ChainAt(s, k - 1);
      var n := CountBefore(s, k - 1);
      if Eligible(s, s.features[k - 1]) {
        StandsBehind(s, ActivateTimes(s, n), k - 1);
        OneMore(s, n + 1);
        SucceedOnce(s, n + 1);
      }
    }
  }

  lemma NextIndexAtStart(s: State)
    requires s.current.None?
    ensures NextIndex(s) == FirstEligible(s, 0)
  {
  }

  lemma NoneSucceed(s: State)
    ensures AllSucceed(s, 0)
  {
  }

  lemma SucceedOnce(s: State, n: nat)
    requires n > 0 && AllSucceed(s, n - 1) && ActivateTimes(s, n).current.Some?
    ensures AllSucceed(s, n)
  {
  }

  lemma FewerPlaces(s: State, k: nat)
    requires 0 < k <= |s.features| && NoSecondPlaceBelow(s, k)
    ensures NoSecondPlaceBelow(s, k - 1)
  {
  }

  /** At a second place the chain has activated the feature twice, so it repeats itself. */
  lemma {:induction false} DuplicateNeverEnds(s: State, p: nat, q: nat)
    requires s.current.None? && p < q < |s.features| && SecondPlace(s, p, q) && NoSecondPlaceBelow(s, q)
    requires forall k :: 0 <= k <= q ==> Passes(s, k)
    ensures forall n: nat :: AllSucceed(s, n)
  {
    hide ActivateTimes, AllSucceed, Eligible, Activate, Passes, HasReached;
    FewerBelow(s, p + 1, q);
    assert Eligible(s, s.features[p]);
    ChainAt(s, p + 1);
    ChainAt(s, q);
    var a, b := CountBefore(s, p + 1), CountBefore(s, q) + 1;
    CountGrows(s, p + 1, q);
    SecondActivation(s, ActivateTimes(s, b - 1), q);
    OneMore(s, b);
    SucceedOnce(s, b);
    forall n: nat ensures AllSucceed(s, n) {
      if n <= b {
        SucceedEarlier(s, n, b);
      } else {
        Periodic(s, a, b, n);
      }
    }
  }

  lemma FewerBelow(s: State, i: nat, k: nat)
    requires i <= k <= |s.features| && NoSecondPlaceBelow(s, k)
    ensures NoSecondPlaceBelow(s, i)
  {
  }

  lemma {:induction false} CountGrows(s: State, i: nat, k: nat)
    requires i <= k <= |s.features|
    ensures CountBefore(s, i) <= CountBefore(s, k)
    decreases k
  {
    if i < k {
      CountGrows(s, i, k - 1);
    }
  }

  lemma SecondActivation(s: State, t: State, q: nat)
    requires q < |s.features| && HasReached(s, t, q) && Eligible(s, s.features[q]) && Passes(s, q)
    ensures Activate(t, false).current == Some(s.features[q])
  {
    hide NextIndex, Blocker, BitsBefore;
    SameChecks(s.(used := t.used), t, s.features[q]);
    assert FirstEligible(s, q) == q;
  }

  /** A check that fails ends the chain. */
  lemma {:induction false} CheckEndsChain(s: State, k: nat)
    requires s.current.None? && k < |s.features| && NoSecondPlaceBelow(s, k)
    requires !Passes(s, k) && forall i :: 0 <= i < k ==> Passes(s, i)
    ensures Terminates(s)
  {
    hide ActivateTimes, Activate, Eligible, AllSucceed, HasReached, Passes;
    ChainAt(s, k);
    var n := CountBefore(s, k);
    StoppedAt(s, ActivateTimes(s, n), k);
    OneMore(s, n + 1);
    NotThisOne(s, n + 1);
    forall m: nat | AllSucceed(s, m) ensures m <= |s.features| {
      if m > n {
        SucceedEarlier(s, n + 1, m);
      }
    }
  }

  lemma NotThisOne(s: State, n: nat)
    requires n > 0 && ActivateTimes(s, n).current.None?
    ensures !AllSucceed(s, n)
  {
  }

  lemma LastSucceeds(s: State, n: nat)
    requires n > 0 && AllSucceed(s, n)
    ensures ActivateTimes(s, n).current.Some?
  {
  }

  lemma StoppedAt(s: State, t: State, k: nat)
    requires k < |s.features| && HasReached(s, t, k) && !Passes(s, k)
    ensures Activate(t, false).current.None?
  {
    hide NextIndex, Blocker, BitsBefore;
    SameChecks(s.(used := t.used), t, s.features[k]);
    assert FirstEligible(s, k) == k;
  }

  lemma {:induction false} FirstStop(s: State, q: nat) returns (k: nat)
    requires q < |s.features| && exists i :: 0 <= i <= q && !Passes(s, i)
    ensures k <= q && !Passes(s, k) && forall i :: 0 <= i < k ==> Passes(s, i)
  {
    hide Passes;
    k := 0;
    while Passes(s, k)
      invariant k <= q && forall i :: 0 <= i < k ==> Passes(s, i)
      decreases q - k
    {
      k := k + 1;
    }
  }

  /** Whatever is forced: one advertisement leads to at most as many activations as there are features,
      exactly unless an eligible feature stands a second time at a position that no check keeps the
      chain from; then the activations never end. */
  lemma {:induction false} OneAdvertisementTerminates(s: State)
    requires s.current.None?
    ensures Terminates(s) <==> !ReachesDuplicate(s)
    ensures ReachesDuplicate(s) ==> forall n: nat :: AllSucceed(s, n)
  {
    hide AllSucceed, Passes, Eligible, NoEligibleTwice;
    if ReachesDuplicate(s) {
      var p, q :| 0 <= p < q < |s.features| && SecondPlace(s, p, q) && forall k :: 0 <= k <= q ==> Passes(s, k);
      var q', p' := FirstSecondPlace(s, q);
      DuplicateNeverEnds(s, p', q');
      NeverEnds(s);
    } else if NoEligibleTwice(s) {
      TerminatesWithoutDuplicates(s);
    } else {
      var q, p := AnySecondPlace(s);
      q, p := FirstSecondPlace(s, q);
      var k := FirstStop(s, q);
      FewerBelow(s, k, q);
      CheckEndsChain(s, k);
    }
  }

  lemma NeverEnds(s: State)
    requires forall n: nat :: AllSucceed(s, n)
    ensures !Terminates(s)
  {
    hide AllSucceed;
    assert AllSucceed(s, |s.features| + 1);
  }

  lemma AnySecondPlace(s: State) returns (q: nat, p: nat)
    requires !NoEligibleTwice(s)
    ensures p < q < |s.features| && SecondPlace(s, p, q)
  {
    p, q :| 0 <= p < q < |s.features| && Eligible(s, s.features[q]) && s.features[p] == s.features[q];
  }

  lemma {:induction false} FirstSecondPlace(s: State, n: nat) returns (q: nat, p: nat)
    requires n < |s.features| && exists i :: 0 <= i < n && SecondPlace(s, i, n)
    ensures p < q <= n && SecondPlace(s, p, q) && NoSecondPlaceBelow(s, q)
  {
    hide SecondPlace;
    p :| 0 <= p < n && SecondPlace(s, p, n);
    q := n;
    if !NoSecondPlaceBelow(s, n) {
      var i, j :| 0 <= i < j < n && SecondPlace(s, i, j);
      q, p := FirstSecondPlace(s, j);
    }
  }

  /** Without a second place of an eligible feature one advertisement always terminates, and with nothing
      forced only then. */
  lemma {:induction false} TerminationWithoutChecks(s: State)
    requires s.current.None?
    ensures NoEligibleTwice(s) ==> Terminates(s)
    ensures !AnythingForced(s.configs) ==> (Terminates(s) <==> NoEligibleTwice(s))
  {
    hide Eligible, AllSucceed, Terminates;
    OneAdvertisementTerminates(s);
    if NoEligibleTwice(s) {
      TerminatesWithoutDuplicates(s);
    } else if !AnythingForced(s.configs) {
      var q, p := AnySecondPlace(s);
      assert forall k :: 0 <= k <= q ==> Passes(s, k);
    }
  }

  /** Whatever is forced: once more activations than there are features have succeeded, all do. */
  lemma {:induction false} TerminatesOrNeverEnds(s: State)
    requires s.current.None?
    ensures Terminates(s) <==> !AllSucceed(s, |s.features| + 1)
    ensures !Terminates(s) ==> !NoEligibleTwice(s) && forall n: nat :: AllSucceed(s, n)
  {
    hide AllSucceed, NoEligibleTwice, ReachesDuplicate;
    OneAdvertisementTerminates(s);
    if NoEligibleTwice(s) {
      TerminatesWithoutDuplicates(s);
    }
  }

  /** A custom feature registered twice, advertised to a client that forces authorization as by default
      and has it: it is activated over and over. */
  lemma {:induction false} TwiceRegisteredNeverEnds(f: Feature, n: nat)
    requires Custom(f) && n > 0
    ensures var s := State([f, f], Configs(Auto, Auto, Force), {Authorization}, None, true, false, {f}, {}, []);
            AllSucceed(s, n) && ActivateTimes(s, n).current == Some(f)
  {
    hide ActivateTimes, AllSucceed;
    var s := State([f, f], Configs(Auto, Auto, Force), {Authorization}, None, true, false, {f}, {}, []);
    assert SecondPlace(s, 0, 1) && NoSecondPlaceBelow(s, 1);
    assert Passes(s, 0) && Passes(s, 1);
    DuplicateNeverEnds(s, 0, 1);
    LastSucceeds(s, n);
    ChainFacts(s, n);
  }
}
