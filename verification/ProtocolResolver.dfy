/** Choosing the upstream protocol of one attempt: manual rules by scope, candidates by signal, the
    safety filter, and the best remaining candidate. */
module ProtocolResolver {
  import opened ProtocolGate
  import opened Sorting
  import opened Wrappers

  datatype PolicyMode = Inherit | Auto | Prefer | Force

  datatype ScopedRule = ScopedRule(mode: PolicyMode, protocols: seq<Protocol>)

  datatype Scope = GroupScope | KeyModelScope | ChannelModelScope

  datatype Source = Ingress | GroupPrefer | KeyModelPrefer | ChannelModelPrefer | ChannelType | EnabledProfile
    | ForcedBy(scope: Scope) | LegacyPath

  const SIGNAL_INGRESS := 800
  const SIGNAL_GROUP_PREFER := 700
  const SIGNAL_KEY_MODEL := 625
  const SIGNAL_CHANNEL_MODEL := 600
  const SIGNAL_CHANNEL_TYPE := 500

  datatype Snapshot = Snapshot(
    configRevision: int, conversionEnabled: bool, group: ScopedRule,
    keyModelRules: map<(int, string), ScopedRule>, channelModelRules: map<(int, string), ScopedRule>,
    enabledProfiles: map<int, map<Protocol, bool>>)

  datatype AttemptConfig = AttemptConfig(baseUrl: string, headers: map<string, string>, paramOverride: string)

  datatype Input = Input(
    snapshot: Snapshot, channelId: int, channelKeyId: int, channelType: Protocol,
    requestedModel: string, upstreamModel: string, ingress: Protocol, features: Features,
    config: AttemptConfig, adaptiveProfiles: map<Protocol, AttemptConfig>,
    legacyEligible: bool, previousProtocol: Protocol)

  datatype Plan = Plan(
    channelId: int, channelKeyId: int, requestedModel: string, upstreamModel: string,
    ingress: Protocol, upstream: Protocol, mode: ConversionMode, features: Features,
    config: AttemptConfig, source: Source, priority: int, configRevision: int, legacyFixed: bool)

  datatype Reason = ForceConflictsLegacy | LegacyNotEligible | ConversionDisabled | NoAdapter | NoProfile
    | BlockedByGate | NoCandidate

  datatype Decision = Incompatible(scope: Option<Scope>, reason: Reason) | Chosen(plan: Plan)

  // ----- manual rules -----

  datatype Signal = Signal(protocol: Protocol, score: int, source: Source)

  datatype Rules = Rules(force: Option<(Protocol, Scope)>, preferred: seq<Signal>)

  function Preferring(rule: ScopedRule, score: int, source: Source): seq<Signal> {
    if rule.mode == Prefer
        then seq(|rule.protocols|, i requires 0 <= i < |rule.protocols| => Signal(rule.protocols[i], score, source))
    else []
  }

  predicate Forces(rule: ScopedRule) {
    rule.mode == Force && |rule.protocols| == 1
  }

  const NO_RULE := ScopedRule(Inherit, [])

  function KeyModelRule(s: Snapshot, keyId: int, model: string): ScopedRule {
    if s.group.mode != Auto && (keyId, model) in s.keyModelRules then s.keyModelRules[(keyId, model)] else NO_RULE
  }

  function ChannelModelRule(s: Snapshot, channelId: int, model: string): ScopedRule {
    if s.group.mode != Auto && (channelId, model) in s.channelModelRules then s.channelModelRules[(channelId, model)]
        else NO_RULE
  }

  /** The first scope that forces a protocol: group, then key and model, then channel and model; a group
      set to auto silences the two lower scopes. */
  function ForcedProtocol(s: Snapshot, channelId: int, keyId: int, model: string): Option<(Protocol, Scope)> {
    if Forces(s.group) then Some((s.group.protocols[0], GroupScope))
    else if Forces(KeyModelRule(s, keyId, model)) then Some((KeyModelRule(s, keyId, model).protocols[0], KeyModelScope))
    else if Forces(ChannelModelRule(s, channelId, model)) then
      Some((ChannelModelRule(s, channelId, model).protocols[0], ChannelModelScope))
    else None
  }

  function AllPreferred(s: Snapshot, channelId: int, keyId: int, model: string): seq<Signal> {
    Preferring(s.group, SIGNAL_GROUP_PREFER, GroupPrefer)
    + Preferring(KeyModelRule(s, keyId, model), SIGNAL_KEY_MODEL, KeyModelPrefer)
    + Preferring(ChannelModelRule(s, channelId, model), SIGNAL_CHANNEL_MODEL, ChannelModelPrefer)
  }

  method AppendPreferred(preferred: seq<Signal>, rule: ScopedRule, score: int, source: Source) returns (r: seq<Signal>)
    requires rule.mode == Prefer
    ensures r == preferred + Preferring(rule, score, source)
  {
    r := preferred;
    for i := 0 to |rule.protocols|
      invariant r == preferred + Preferring(rule, score, source)[..i]
    {
      r := r + [Signal(rule.protocols[i], score, source)];
    }
  }

  /** One scope: it may force, or add its preferences. */
  method ResolveScope(rule: ScopedRule, preferred: seq<Signal>, score: int, source: Source, scope: Scope)
    returns (force: Option<(Protocol, Scope)>, r: seq<Signal>)
    ensures force == if Forces(rule) then Some((rule.protocols[0], scope)) else None
    ensures force.None? ==> r == preferred + Preferring(rule, score, source)
  {
    r := preferred;
    if rule.mode == Force && |rule.protocols| == 1 {
      return Some((rule.protocols[0], scope)), r;
    }
    if rule.mode == Prefer {
      r := AppendPreferred(r, rule, score, source);
    }
    return None, r;
  }

  method ResolveManualRules(s: Snapshot, channelId: int, keyId: int, model: string) returns (rules: Rules)
    ensures rules.force == ForcedProtocol(s, channelId, keyId, model)
    ensures rules.force.None? ==> rules.preferred == AllPreferred(s, channelId, keyId, model)
  {
    var force, preferred := ResolveScope(s.group, [], SIGNAL_GROUP_PREFER, GroupPrefer, GroupScope);
    if force.None? && s.group.mode != Auto {
      if (keyId, model) in s.keyModelRules {
        force, preferred :=
            ResolveScope(s.keyModelRules[(keyId, model)], preferred, SIGNAL_KEY_MODEL, KeyModelPrefer, KeyModelScope);
      }
      if force.None? && (channelId, model) in s.channelModelRules {
        force, preferred :=
          ResolveScope(s.channelModelRules[(channelId, model)], preferred, SIGNAL_CHANNEL_MODEL, ChannelModelPrefer,
                       ChannelModelScope);
      }
    }
    return Rules(force, preferred);
  }

  predicate ProfileEnabled(s: Snapshot, channelId: int, channelType: Protocol, p: Protocol) {
    if channelId in s.enabledProfiles && p in s.enabledProfiles[channelId] then s.enabledProfiles[channelId][p]
    else p == channelType
  }

  // ----- the specification: a ladder of signals, a filter, and the best of what is left -----

  predicate PreferredBy(rule: ScopedRule, p: Protocol) {
    rule.mode == Prefer && p in rule.protocols
  }

  predicate ProfileOn(input: Input, p: Protocol) {
    input.channelId in input.snapshot.enabledProfiles
    && p in input.snapshot.enabledProfiles[input.channelId] && input.snapshot.enabledProfiles[input.channelId][p]
  }

  /** The preference of the highest scope that names the protocol. */
  function PreferredSignal(s: Snapshot, channelId: int, keyId: int, model: string, p: Protocol): Option<Signal> {
    if PreferredBy(s.group, p) then Some(Signal(p, SIGNAL_GROUP_PREFER, GroupPrefer))
    else if PreferredBy(KeyModelRule(s, keyId, model), p) then Some(Signal(p, SIGNAL_KEY_MODEL, KeyModelPrefer))
    else if PreferredBy(ChannelModelRule(s, channelId, model), p)
        then Some(Signal(p, SIGNAL_CHANNEL_MODEL, ChannelModelPrefer))
    else None
  }

  /** The strongest signal for one protocol, read off the ladder from the top. */
  function StrongestSignal(input: Input, p: Protocol): Option<Signal> {
    var s := input.snapshot;
    if !IsAdaptive(p) then None
    else if p == input.ingress then Some(Signal(p, SIGNAL_INGRESS, Ingress))
    else if PreferredSignal(s, input.channelId, input.channelKeyId, input.upstreamModel, p).Some? then
      PreferredSignal(s, input.channelId, input.channelKeyId, input.upstreamModel, p)
    else if p == input.channelType then Some(Signal(p, SIGNAL_CHANNEL_TYPE, ChannelType))
    else if ProfileOn(input, p) then Some(Signal(p, SIGNAL_CHANNEL_TYPE - 1, EnabledProfile))
    else None
  }

  predicate Safe(input: Input, p: Protocol) {
    && HasAdapter(p)
    && ProfileEnabled(input.snapshot, input.channelId, input.channelType, p)
    && (p == input.ingress || input.snapshot.conversionEnabled)
    && Allowed(EvaluateConversion(input.ingress, p, input.features))
  }

  predicate Eligible(input: Input, p: Protocol) {
    StrongestSignal(input, p).Some? && Safe(input, p)
  }

  /** Higher score, then the protocol of the previous attempt, then the name. */
  predicate Before(a: Signal, b: Signal, previous: Protocol) {
    if a.score != b.score then a.score > b.score
    else if (a.protocol == previous) != (b.protocol == previous) then a.protocol == previous
    else TextLess(NameOf(a.protocol), NameOf(b.protocol))
  }

  ghost predicate IsBest(input: Input, p: Protocol) {
    && Eligible(input, p)
    && forall q :: Eligible(input, q) && q != p ==>
         Before(StrongestSignal(input, p).value, StrongestSignal(input, q).value, input.previousProtocol)
  }

  function LegacyPlan(input: Input): Plan {
    Plan(input.channelId, input.channelKeyId, input.requestedModel, input.upstreamModel, input.ingress,
         input.channelType,
         Legacy, input.features, input.config, LegacyPath, 0, input.snapshot.configRevision, true)
  }

  const NO_CONFIG := AttemptConfig("", map[], "")

  function AdaptivePlan(input: Input, up: Protocol, v: Verdict, source: Source, score: int): Plan {
    var config := if up in input.adaptiveProfiles then input.adaptiveProfiles[up] else NO_CONFIG;
    Plan(input.channelId, input.channelKeyId, input.requestedModel, input.upstreamModel, input.ingress, up,
         ModeFor(input.ingress, up, v), input.features, config, source, score, input.snapshot.configRevision, false)
  }

  predicate NeedsLegacy(input: Input) {
    RequiresLegacyOnly(input.features) || !IsAdaptive(input.channelType)
  }

  function ForceOf(input: Input): Option<(Protocol, Scope)> {
    ForcedProtocol(input.snapshot, input.channelId, input.channelKeyId, input.upstreamModel)
  }

  /** What resolving must answer, without mentioning any order of iteration. */
  ghost predicate Answers(input: Input, d: Decision) {
    var force := ForceOf(input);
    if NeedsLegacy(input) then
      d == if force.Some? && force.value.0 != input.channelType
          then Incompatible(Some(force.value.1), ForceConflictsLegacy)
           else if !input.legacyEligible then Incompatible(None, LegacyNotEligible)
           else Chosen(LegacyPlan(input))
    else if force.Some? then
      var (p, scope) := force.value;
      d == if p != input.ingress && !input.snapshot.conversionEnabled then Incompatible(Some(scope), ConversionDisabled)
           else if !HasAdapter(p) then Incompatible(Some(scope), NoAdapter)
           else if !ProfileEnabled(input.snapshot, input.channelId, input.channelType, p)
               then Incompatible(Some(scope), NoProfile)
           else
             var v := EvaluateConversion(input.ingress, p, input.features);
             if !Allowed(v) then Incompatible(Some(scope), BlockedByGate)
             else Chosen(AdaptivePlan(input, p, v, ForcedBy(scope), SIGNAL_INGRESS + 100))
    else if exists p :: Eligible(input, p) then
      exists p :: IsBest(input, p)
        && d == Chosen(AdaptivePlan(input, p, EvaluateConversion(input.ingress, p, input.features),
                                    StrongestSignal(input, p).value.source, StrongestSignal(input, p).value.score))
    else if input.legacyEligible then d == Chosen(LegacyPlan(input))
    else d == Incompatible(None, NoCandidate)
  }

  // ----- the order is total on candidates -----

  lemma BeforeIsStrict(previous: Protocol)
    ensures forall a :: !Before(a, a, previous)
    ensures forall a, b, c :: Before(a, b, previous) && Before(b, c, previous) ==> Before(a, c, previous)
  {
    forall a ensures !Before(a, a, previous) {
      TextLessIsStrict(NameOf(a.protocol));
    }
    forall a, b, c | Before(a, b, previous) && Before(b, c, previous) ensures Before(a, c, previous) {
      if a.score == b.score == c.score && TextLess(NameOf(a.protocol), NameOf(b.protocol))
         && TextLess(NameOf(b.protocol), NameOf(c.protocol)) {
        TextLessIsTransitive(NameOf(a.protocol), NameOf(b.protocol), NameOf(c.protocol));
      }
    }
  }

  lemma BeforeDecides(a: Signal, b: Signal, previous: Protocol)
    requires IsAdaptive(a.protocol) && IsAdaptive(b.protocol) && a.protocol != b.protocol
    ensures Before(a, b, previous) || Before(b, a, previous)
  {
    AdaptiveNames();
  }

  lemma NotBothBefore(a: Signal, b: Signal, previous: Protocol)
    ensures !(Before(a, b, previous) && Before(b, a, previous))
  {
    BeforeIsStrict(previous);
    assert !Before(a, a, previous);
  }

  /** There is at most one best protocol. */
  lemma BestIsUnique(input: Input, p: Protocol, q: Protocol)
    requires IsBest(input, p) && IsBest(input, q)
    ensures p == q
  {
    NotBothBefore(StrongestSignal(input, p).value, StrongestSignal(input, q).value, input.previousProtocol);
  }

  /** Any two runs, whatever orders they iterate in, give the same decision. */
  lemma AnswerIsUnique(input: Input, d: Decision, e: Decision)
    requires Answers(input, d) && Answers(input, e)
    ensures d == e
  {
    if !NeedsLegacy(input) && ForceOf(input).None? && exists p :: Eligible(input, p) {
      var p :| IsBest(input, p)
        && d == Chosen(AdaptivePlan(input, p, EvaluateConversion(input.ingress, p, input.features),
                                    StrongestSignal(input, p).value.source, StrongestSignal(input, p).value.score));
      var q :| IsBest(input, q)
        && e == Chosen(AdaptivePlan(input, q, EvaluateConversion(input.ingress, q, input.features),
                                    StrongestSignal(input, q).value.source, StrongestSignal(input, q).value.score));
      BestIsUnique(input, p, q);
    }
  }

  /** Every adaptive plan went through the gate, whether forced or scored. */
  lemma AdaptivePlansAreSafe(input: Input, d: Decision)
    requires Answers(input, d) && d.Chosen? && !d.plan.legacyFixed
    ensures Safe(input, d.plan.upstream) && IsAdaptive(d.plan.upstream) && !RequiresLegacyOnly(input.features)
    ensures d.plan.mode != Legacy && (d.plan.mode == Translated <==> d.plan.upstream != input.ingress)
    ensures ForceOf(input).Some? ==> d.plan.upstream == ForceOf(input).value.0
  {
    GateAdmits(input.ingress, d.plan.upstream, input.features);
  }

  /** Without a forcing rule an adaptive channel is refused exactly when no candidate is safe and the
      legacy path is not eligible. */
  lemma RefusedExactlyWhen(input: Input, d: Decision)
    requires Answers(input, d) && !NeedsLegacy(input) && ForceOf(input).None?
    ensures d.Incompatible? <==> !input.legacyEligible && forall p :: !Eligible(input, p)
  {
  }

  // ----- the algorithm -----

  /** The stronger of two signals; the earlier one on a tie. */
  function Stronger(a: Option<Signal>, b: Option<Signal>): Option<Signal> {
    if a.None? then b else if b.None? then a else if b.value.score > a.value.score then b else a
  }

  function SignalFor(s: Signal, p: Protocol): Option<Signal> {
    if s.protocol == p && IsAdaptive(p) then Some(s) else None
  }

  /** What a list of signals, added in order, leaves for one protocol. */
  function StrongestIn(signals: seq<Signal>, p: Protocol): Option<Signal> {
    if signals == [] then None
    else Stronger(StrongestIn(signals[..|signals| - 1], p), SignalFor(signals[|signals| - 1], p))
  }

  lemma {:induction false} StrongestConcat(a: seq<Signal>, b: seq<Signal>, p: Protocol)
    ensures StrongestIn(a + b, p) == Stronger(StrongestIn(a, p), StrongestIn(b, p))
  {
    if b == [] {
      assert a + b == a;
    } else {
      assert (a + b)[..|a + b| - 1] == a + b[..|b| - 1];
      StrongestConcat(a, b[..|b| - 1], p);
    }
  }

  /** Signals of one strength and source: the protocol has one if it is named at all. */
  lemma {:induction false} StrongestOfEqual(signals: seq<Signal>, score: int, source: Source, p: Protocol)
    requires forall s :: s in signals ==> s.score == score && s.source == source
    ensures StrongestIn(signals, p) ==
            if IsAdaptive(p) && Signal(p, score, source) in signals then Some(Signal(p, score, source)) else None
  {
    if signals != [] {
      var prefix, last := signals[..|signals| - 1], signals[|signals| - 1];
      assert signals == prefix + [last];
      StrongestOfEqual(prefix, score, source, p);
      assert last == Signal(last.protocol, score, source);
    }
  }

  lemma StrongestPreferring(rule: ScopedRule, score: int, source: Source, p: Protocol)
    ensures StrongestIn(Preferring(rule, score, source), p) ==
            if IsAdaptive(p) && PreferredBy(rule, p) then Some(Signal(p, score, source)) else None
  {
    var signals := Preferring(rule, score, source);
    if PreferredBy(rule, p) {
      var i :| 0 <= i < |rule.protocols| && rule.protocols[i] == p;
      assert signals[i] == Signal(p, score, source);
    }
    StrongestOfEqual(signals, score, source, p);
  }

  ghost predicate ProfileSignals(input: Input, signals: seq<Signal>) {
    && (forall s :: s in signals ==> s.score == SIGNAL_CHANNEL_TYPE - 1 && s.source == EnabledProfile)
    && (forall p :: Signal(p, SIGNAL_CHANNEL_TYPE - 1, EnabledProfile) in signals <==> ProfileOn(input, p))
  }

  lemma StrongestPreferred(s: Snapshot, channelId: int, keyId: int, model: string, p: Protocol)
    ensures StrongestIn(AllPreferred(s, channelId, keyId, model), p)
            == if IsAdaptive(p) then PreferredSignal(s, channelId, keyId, model, p) else None
  {
    var keyRule, channelRule := KeyModelRule(s, keyId, model), ChannelModelRule(s, channelId, model);
    var group := Preferring(s.group, SIGNAL_GROUP_PREFER, GroupPrefer);
    var key := Preferring(keyRule, SIGNAL_KEY_MODEL, KeyModelPrefer);
    var channel := Preferring(channelRule, SIGNAL_CHANNEL_MODEL, ChannelModelPrefer);
    StrongestPreferring(s.group, SIGNAL_GROUP_PREFER, GroupPrefer, p);
    StrongestPreferring(keyRule, SIGNAL_KEY_MODEL, KeyModelPrefer, p);
    StrongestPreferring(channelRule, SIGNAL_CHANNEL_MODEL, ChannelModelPrefer, p);
    StrongestConcat(group, key, p);
    StrongestConcat(group + key, channel, p);
  }

  lemma StrongestOne(s: Signal, p: Protocol)
    ensures StrongestIn([s], p) == SignalFor(s, p)
  {
    assert [s][..0] == [];
  }

  /** Adding the signals in the program's order, profiles in any order, climbs the ladder. */
  lemma LadderIsMaximum(input: Input, profiles: seq<Signal>, p: Protocol)
    requires ProfileSignals(input, profiles)
    ensures var preferred := AllPreferred(input.snapshot, input.channelId, input.channelKeyId, input.upstreamModel);
            StrongestIn([Signal(input.ingress, SIGNAL_INGRESS, Ingress)] + preferred
                        + [Signal(input.channelType, SIGNAL_CHANNEL_TYPE, ChannelType)] + profiles, p)
            == StrongestSignal(input, p)
  {
    var first, typed :=
        Signal(input.ingress, SIGNAL_INGRESS, Ingress), Signal(input.channelType, SIGNAL_CHANNEL_TYPE, ChannelType);
    var preferred := AllPreferred(input.snapshot, input.channelId, input.channelKeyId, input.upstreamModel);
    StrongestOne(first, p);
    StrongestPreferred(input.snapshot, input.channelId, input.channelKeyId, input.upstreamModel, p);
    StrongestOne(typed, p);
    StrongestOfEqual(profiles, SIGNAL_CHANNEL_TYPE - 1, EnabledProfile, p);
    StrongestConcat([first], preferred, p);
    StrongestConcat([first] + preferred, [typed], p);
    StrongestConcat([first] + preferred + [typed], profiles, p);
  }

  /** `seen` maps each protocol to the strongest of the signals added so far. */
  ghost predicate Collected(seen: map<Protocol, Signal>, signals: seq<Signal>) {
    forall p :: StrongestIn(signals, p) == if p in seen then Some(seen[p]) else None
  }

  method AddSignal(seen: map<Protocol, Signal>, s: Signal, ghost signals: seq<Signal>)
    returns (r: map<Protocol, Signal>)
    requires Collected(seen, signals)
    ensures Collected(r, signals + [s])
  {
    ghost var all := signals + [s];
    assert all[..|signals|] == signals;
    if !IsAdaptive(s.protocol) {
      r := seen;
    } else if s.protocol in seen {
      r := if s.score > seen[s.protocol].score then seen[s.protocol := s] else seen;
    } else {
      r := seen[s.protocol := s];
    }
    forall p ensures StrongestIn(all, p) == if p in r then Some(r[p]) else None {
      assert StrongestIn(all, p) == Stronger(StrongestIn(signals, p), SignalFor(s, p));
    }
  }

  method CollectCandidates(input: Input, preferred: seq<Signal>) returns (seen: map<Protocol, Signal>)
    requires preferred == AllPreferred(input.snapshot, input.channelId, input.channelKeyId, input.upstreamModel)
    ensures forall p :: StrongestSignal(input, p) == if p in seen then Some(seen[p]) else None
  {
    var first := Signal(input.ingress, SIGNAL_INGRESS, Ingress);
    ghost var signals: seq<Signal> := [];
    seen := AddSignal(map[], first, signals);
    signals := [first];
    for i := 0 to |preferred|
      invariant signals == [first] + preferred[..i] && Collected(seen, signals)
    {
      seen := AddSignal(seen, preferred[i], signals);
      signals := signals + [preferred[i]];
    }
    assert preferred[..|preferred|] == preferred;
    seen := AddSignal(seen, Signal(input.channelType, SIGNAL_CHANNEL_TYPE, ChannelType), signals);
    signals := signals + [Signal(input.channelType, SIGNAL_CHANNEL_TYPE, ChannelType)];
    ghost var added;
    seen, added := AddProfiles(input, seen, signals);
    forall p ensures StrongestSignal(input, p) == if p in seen then Some(seen[p]) else None {
      LadderIsMaximum(input, added, p);
      assert Collected(seen, signals + added);
    }
  }

  /** Adds the channel's enabled profiles in any iteration order. */
  method AddProfiles(input: Input, before: map<Protocol, Signal>, ghost signals: seq<Signal>)
    returns (seen: map<Protocol, Signal>, ghost added: seq<Signal>)
    requires Collected(before, signals)
    ensures ProfileSignals(input, added) && Collected(seen, signals + added)
  {
    seen, added := before, [];
    assert signals + [] == signals;
    var s := input.snapshot;
    if input.channelId in s.enabledProfiles {
      var profiles := s.enabledProfiles[input.channelId];
      var todo := profiles.Keys;
      while todo != {}
        invariant todo <= profiles.Keys
        invariant forall x :: x in added ==> x.score == SIGNAL_CHANNEL_TYPE - 1 && x.source == EnabledProfile
        invariant forall p ::
          Signal(p, SIGNAL_CHANNEL_TYPE - 1, EnabledProfile) in added <==> ProfileOn(input, p) && p !in todo
        invariant Collected(seen, signals + added)
        decreases todo
      {
        var p :| p in todo;
        if profiles[p] {
          var x := Signal(p, SIGNAL_CHANNEL_TYPE - 1, EnabledProfile);
          seen := AddSignal(seen, x, signals + added);
          assert signals + added + [x] == signals + (added + [x]);
          added := added + [x];
        }
        todo := todo - {p};
      }
    }
  }

  /** Keeps the candidates that are safe, walking the map in any order. */
  method KeepSafe(input: Input, seen: map<Protocol, Signal>) returns (kept: set<Signal>)
    requires forall p :: StrongestSignal(input, p) == if p in seen then Some(seen[p]) else None
    ensures forall c :: c in kept <==> Eligible(input, c.protocol) && StrongestSignal(input, c.protocol) == Some(c)
  {
    kept := {};
    var todo := seen.Keys;
    while todo != {}
      invariant todo <= seen.Keys
      invariant forall c :: c in kept <==>
        Eligible(input, c.protocol) && StrongestSignal(input, c.protocol) == Some(c) && c.protocol !in todo
      decreases todo
    {
      var p :| p in todo;
      assert StrongestSignal(input, p) == Some(seen[p]);
      SignalProtocol(input, p);
      var safe := PassesFilters(input, p);
      if safe {
        kept := kept + {seen[p]};
      }
      todo := todo - {p};
    }
  }

  method PassesFilters(input: Input, p: Protocol) returns (safe: bool)
    ensures safe == Safe(input, p)
  {
    if !HasAdapter(p) || !ProfileEnabled(input.snapshot, input.channelId, input.channelType, p)
       || (p != input.ingress && !input.snapshot.conversionEnabled) {
      return false;
    }
    var v := EvaluateConversion(input.ingress, p, input.features);
    return v != Forbidden && v != LegacyFixed;
  }

  lemma SignalsAreAdaptive(input: Input, c: Signal)
    requires StrongestSignal(input, c.protocol) == Some(c)
    ensures IsAdaptive(c.protocol)
  {
  }

  method BestOf(input: Input, kept: set<Signal>) returns (best: Signal)
    requires forall c :: c in kept <==> Eligible(input, c.protocol) && StrongestSignal(input, c.protocol) == Some(c)
    requires kept != {}
    ensures best in kept && IsBest(input, best.protocol)
  {
    var before := (a: Signal, b: Signal) => Before(a, b, input.previousProtocol);
    BeforeIsStrict(input.previousProtocol);
    forall a, b | a in kept && b in kept && a != b ensures before(a, b) || before(b, a) {
      SignalsAreAdaptive(input, a);
      SignalsAreAdaptive(input, b);
      BeforeDecides(a, b, input.previousProtocol);
    }
    var sorted := SortSet(kept, before);
    NoElements(sorted);
    best := sorted[0];
    assert best in Elements(sorted);
    forall q | Eligible(input, q) && q != best.protocol
      ensures Before(StrongestSignal(input, best.protocol).value, StrongestSignal(input, q).value,
                     input.previousProtocol)
    {
      var c := StrongestSignal(input, q).value;
      SignalProtocol(input, q);
      assert c in kept;
      assert c in Elements(sorted);
      FirstIsLeast(sorted, before, c);
    }
  }

  lemma SignalProtocol(input: Input, p: Protocol)
    requires StrongestSignal(input, p).Some?
    ensures StrongestSignal(input, p).value.protocol == p
  {
  }

  /** For every iteration order of the maps the decision is the one the specification fixes. */
  method ResolvePrimary(input: Input) returns (d: Decision)
    ensures Answers(input, d)
  {
    var s := input.snapshot;
    var rules := ResolveManualRules(s, input.channelId, input.channelKeyId, input.upstreamModel);
    if RequiresLegacyOnly(input.features) || !IsAdaptive(input.channelType) {
      if rules.force.Some? && rules.force.value.0 != input.channelType {
        return Incompatible(Some(rules.force.value.1), ForceConflictsLegacy);
      }
      if !input.legacyEligible {
        return Incompatible(None, LegacyNotEligible);
      }
      return Chosen(LegacyPlan(input));
    }
    if rules.force.Some? {
      var (p, scope) := rules.force.value;
      if p != input.ingress && !s.conversionEnabled {
        return Incompatible(Some(scope), ConversionDisabled);
      }
      if !HasAdapter(p) {
        return Incompatible(Some(scope), NoAdapter);
      }
      if !ProfileEnabled(s, input.channelId, input.channelType, p) {
        return Incompatible(Some(scope), NoProfile);
      }
      var v := EvaluateConversion(input.ingress, p, input.features);
      if v == Forbidden || v == LegacyFixed {
        return Incompatible(Some(scope), BlockedByGate);
      }
      return Chosen(AdaptivePlan(input, p, v, ForcedBy(scope), SIGNAL_INGRESS + 100));
    }
    d := ResolveScored(input, rules.preferred);
  }

  method ResolveScored(input: Input, preferred: seq<Signal>) returns (d: Decision)
    requires !NeedsLegacy(input) && ForceOf(input).None?
    requires preferred == AllPreferred(input.snapshot, input.channelId, input.channelKeyId, input.upstreamModel)
    ensures Answers(input, d)
  {
    var seen := CollectCandidates(input, preferred);
    var kept := KeepSafe(input, seen);
    forall p | Eligible(input, p) ensures StrongestSignal(input, p).value in kept {
      SignalProtocol(input, p);
    }
    if kept == {} {
      if input.legacyEligible {
        return Chosen(LegacyPlan(input));
      }
      return Incompatible(None, NoCandidate);
    }
    var best := BestOf(input, kept);
    return Chosen(AdaptivePlan(input, best.protocol, EvaluateConversion(input.ingress, best.protocol, input.features),
                               best.source, best.score));
  }
}
