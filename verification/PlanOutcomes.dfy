/** What a decision of the resolver means in terms of the snapshot and the request: which protocols can be
    planned, which one is, what the plan holds, and why a request is refused. */
module PlanOutcomes {
  import opened ProtocolGate
  import opened ProtocolResolver
  import opened Wrappers

  // ----- which protocols pass -----

  predicate OneOfThree(p: Protocol) {
    p == OpenAIChat || p == OpenAIResponse || p == Anthropic
  }

  /** What the snapshot says about a protocol of a channel. */
  function Entry(s: Snapshot, channelId: int, p: Protocol): Option<bool> {
    if channelId !in s.enabledProfiles || p !in s.enabledProfiles[channelId] then None
    else Some(s.enabledProfiles[channelId][p])
  }

  /** Enabled for the channel, or the channel's own type when nothing is said. */
  predicate HasProfile(input: Input, p: Protocol) {
    || Entry(input.snapshot, input.channelId, p) == Some(true)
    || (Entry(input.snapshot, input.channelId, p) == None && p == input.channelType)
  }

  /** Features of one protocol stay with it, and tools do not cross between Responses and Anthropic. */
  predicate FeaturesAllow(ingress: Protocol, up: Protocol, f: Features) {
    && (f.responsesNative || f.continuation || f.passthroughPinned ==>
        ingress == OpenAIResponse && up == OpenAIResponse)
    && (f.anthropicSignature || f.anthropicCache ==>
          || (ingress == Anthropic && up == Anthropic)
          || ((f.responsesNative || f.continuation || f.passthroughPinned) && ingress == OpenAIResponse
              && up == OpenAIResponse))
    && (f.functionTools ==>
          !(ingress == OpenAIResponse && up == Anthropic) && !(ingress == Anthropic && up == OpenAIResponse))
  }

  predicate Passes(input: Input, p: Protocol) {
    && OneOfThree(p) && OneOfThree(input.ingress) && HasProfile(input, p)
    && (p != input.ingress ==> input.snapshot.conversionEnabled)
    && FeaturesAllow(input.ingress, p, input.features)
  }

  lemma GatePasses(ingress: Protocol, up: Protocol, f: Features)
    ensures Allowed(EvaluateConversion(ingress, up, f)) <==>
            OneOfThree(ingress) && OneOfThree(up) && FeaturesAllow(ingress, up, f)
  {
  }

  lemma ProfileMeans(input: Input, p: Protocol)
    ensures ProfileEnabled(input.snapshot, input.channelId, input.channelType, p) <==> HasProfile(input, p)
  {
  }

  lemma SafeIsPassing(input: Input, p: Protocol)
    ensures Safe(input, p) <==> Passes(input, p)
  {
    GatePasses(input.ingress, p, input.features);
    ProfileMeans(input, p);
  }

  // ----- what speaks for a protocol -----

  predicate Prefers(rule: ScopedRule, p: Protocol) {
    rule.mode.Prefer? && p in rule.protocols
  }

  /** The rules for a key or a channel and a model count unless the group is on automatic. */
  predicate KeyPrefers(input: Input, p: Protocol) {
    var key := (input.channelKeyId, input.upstreamModel);
    !input.snapshot.group.mode.Auto? && key in input.snapshot.keyModelRules
        && Prefers(input.snapshot.keyModelRules[key], p)
  }

  predicate ChannelPrefers(input: Input, p: Protocol) {
    var key := (input.channelId, input.upstreamModel);
    !input.snapshot.group.mode.Auto? && key in input.snapshot.channelModelRules
    && Prefers(input.snapshot.channelModelRules[key], p)
  }

  /** Something speaks for the protocol with this score, for this reason. */
  predicate Claim(input: Input, p: Protocol, score: int, source: Source) {
    OneOfThree(p) &&
    match source
    case Ingress => score == 800 && p == input.ingress
    case GroupPrefer => score == 700 && Prefers(input.snapshot.group, p)
    case KeyModelPrefer => score == 625 && KeyPrefers(input, p)
    case ChannelModelPrefer => score == 600 && ChannelPrefers(input, p)
    case ChannelType => score == 500 && p == input.channelType
    case EnabledProfile => score == 499 && Entry(input.snapshot, input.channelId, p) == Some(true)
    case _ => false
  }

  /** A protocol's signal is the strongest of its claims, and it has none without a claim. */
  lemma SignalIsStrongestClaim(input: Input, p: Protocol, score: int, source: Source)
    ensures Claim(input, p, score, source) ==>
              StrongestSignal(input, p).Some? && score <= StrongestSignal(input, p).value.score
    ensures StrongestSignal(input, p) == Some(Signal(p, score, source)) ==> Claim(input, p, score, source)
    ensures StrongestSignal(input, p).Some? ==> StrongestSignal(input, p).value.protocol == p
  {
  }

  ghost predicate Claimed(input: Input, p: Protocol) {
    exists score, source :: Claim(input, p, score, source)
  }

  lemma SignalWhenClaimed(input: Input, p: Protocol)
    ensures StrongestSignal(input, p).Some? <==> Claimed(input, p)
  {
    if StrongestSignal(input, p).Some? {
      var s := StrongestSignal(input, p).value;
      SignalIsStrongestClaim(input, p, s.score, s.source);
    }
    if score, source :| Claim(input, p, score, source) {
      SignalIsStrongestClaim(input, p, score, source);
    }
  }

  // ----- forcing rules -----

  predicate ForcesOnly(rule: ScopedRule, p: Protocol) {
    rule.mode.Force? && rule.protocols == [p]
  }

  /** The group's rule comes first, then, unless the group is on automatic, the key's, then the channel's. */
  predicate ForcedTo(input: Input, p: Protocol, scope: Scope) {
    var s, key, channel :=
        input.snapshot, (input.channelKeyId, input.upstreamModel), (input.channelId, input.upstreamModel);
    var byKey := key in s.keyModelRules && s.keyModelRules[key].mode.Force? && |s.keyModelRules[key].protocols| == 1;
    match scope
    case GroupScope => ForcesOnly(s.group, p)
    case KeyModelScope =>
      !s.group.mode.Auto? && !(s.group.mode.Force? && |s.group.protocols| == 1) && byKey
          && s.keyModelRules[key].protocols[0] == p
    case ChannelModelScope =>
      && !s.group.mode.Auto? && !(s.group.mode.Force? && |s.group.protocols| == 1) && !byKey
      && channel in s.channelModelRules && ForcesOnly(s.channelModelRules[channel], p)
  }

  lemma ForceMeans(input: Input, p: Protocol, scope: Scope)
    ensures ForceOf(input) == Some((p, scope)) <==> ForcedTo(input, p, scope)
  {
  }

  // ----- plans -----

  /** A protocol is kept as it is, except that chat is normalized; any other is translated. */
  function ModeOf(ingress: Protocol, up: Protocol): ConversionMode {
    if up != ingress then Translated else if up == OpenAIChat then Normalized else RawPassthrough
  }

  /** What every plan copies from the request. */
  predicate Copies(plan: Plan, input: Input) {
    && plan.channelId == input.channelId && plan.channelKeyId == input.channelKeyId
    && plan.requestedModel == input.requestedModel && plan.upstreamModel == input.upstreamModel
    && plan.ingress == input.ingress && plan.features == input.features
    && plan.configRevision == input.snapshot.configRevision
  }

  predicate LegacyFor(plan: Plan, input: Input) {
    && Copies(plan, input) && plan.upstream == input.channelType && plan.mode == Legacy && plan.config == input.config
    && plan.source == LegacyPath && plan.priority == 0 && plan.legacyFixed
  }

  /** The configuration is that of the channel's profile for the protocol, empty when it has none. */
  predicate AdaptiveFor(plan: Plan, input: Input, up: Protocol, source: Source, score: int) {
    && Copies(plan, input) && plan.upstream == up && plan.mode == ModeOf(input.ingress, up)
    && (up in input.adaptiveProfiles ==> plan.config == input.adaptiveProfiles[up])
    && (up !in input.adaptiveProfiles ==>
          plan.config.baseUrl == "" && plan.config.headers == map[] && plan.config.paramOverride == "")
    && plan.source == source && plan.priority == score && !plan.legacyFixed
  }

  lemma AdaptivePlanMeans(input: Input, up: Protocol, source: Source, score: int)
    requires Allowed(EvaluateConversion(input.ingress, up, input.features))
    ensures AdaptiveFor(AdaptivePlan(input, up, EvaluateConversion(input.ingress, up, input.features), source, score),
                        input, up, source, score)
  {
    GatePasses(input.ingress, up, input.features);
  }

  // ----- decisions -----

  /** Only the channel's own protocol will do: the request needs it, or the channel has a type of its own. */
  predicate OnlyLegacy(input: Input) {
    input.features.multimodal || input.features.embedding || !OneOfThree(input.channelType)
  }

  lemma LegacyOutcome(input: Input, d: Decision)
    requires Answers(input, d) && OnlyLegacy(input)
    ensures if exists p, scope :: ForcedTo(input, p, scope) && p != input.channelType then
              exists p, scope :: ForcedTo(input, p, scope) && d == Incompatible(Some(scope), ForceConflictsLegacy)
            else if !input.legacyEligible then d == Incompatible(None, LegacyNotEligible)
            else d.Chosen? && LegacyFor(d.plan, input)
  {
    forall p, scope ensures ForceOf(input) == Some((p, scope)) <==> ForcedTo(input, p, scope) {
      ForceMeans(input, p, scope);
    }
    if ForceOf(input).Some? {
      var (p, scope) := ForceOf(input).value;
      assert ForcedTo(input, p, scope);
    }
  }

  /** A forced protocol is planned with priority 900, or refused for the first thing that stands against it. */
  lemma ForcedOutcome(input: Input, d: Decision, p: Protocol, scope: Scope)
    requires Answers(input, d) && !OnlyLegacy(input) && ForcedTo(input, p, scope)
    ensures if p != input.ingress && !input.snapshot.conversionEnabled
            then d == Incompatible(Some(scope), ConversionDisabled)
            else if p.Unknown? || p.Other? then d == Incompatible(Some(scope), NoAdapter)
            else if !HasProfile(input, p) then d == Incompatible(Some(scope), NoProfile)
            else if !Passes(input, p) then d == Incompatible(Some(scope), BlockedByGate)
            else d.Chosen? && AdaptiveFor(d.plan, input, p, ForcedBy(scope), 900)
  {
    ForceMeans(input, p, scope);
    ProfileMeans(input, p);
    GatePasses(input.ingress, p, input.features);
    if Passes(input, p) {
      AdaptivePlanMeans(input, p, ForcedBy(scope), 900);
    }
  }

  /** The order of the three names. */
  function Rank(p: Protocol): int {
    match p
    case Anthropic => 1
    case OpenAIChat => 2
    case OpenAIResponse => 3
    case _ => 0
  }

  /** `up` with its strongest claim goes before `q` with any of its claims: a higher score, else the protocol of
      the previous attempt, else the name. */
  ghost predicate GoesBefore(input: Input, up: Protocol, score: int, q: Protocol) {
    || (forall other, source :: Claim(input, q, other, source) ==> other < score)
    || ((forall other, source :: Claim(input, q, other, source) ==> other <= score)
        && (up == input.previousProtocol || (q != input.previousProtocol && Rank(up) < Rank(q))))
  }

  lemma RankMeans(p: Protocol, q: Protocol)
    requires OneOfThree(p) && OneOfThree(q) && TextLess(NameOf(p), NameOf(q))
    ensures Rank(p) < Rank(q)
  {
    AdaptiveNames();
    TextLessIsStrict(NameOf(p));
    if TextLess(NameOf(q), NameOf(p)) {
      TextLessIsTransitive(NameOf(p), NameOf(q), NameOf(p));
    }
  }

  lemma BestGoesBefore(input: Input, up: Protocol, q: Protocol)
    requires IsBest(input, up) && q != up && Eligible(input, q)
    ensures GoesBefore(input, up, StrongestSignal(input, up).value.score, q)
  {
    var a, b := StrongestSignal(input, up).value, StrongestSignal(input, q).value;
    assert Before(a, b, input.previousProtocol);
    ClaimsBelow(input, q, b.score);
    SignalIsStrongestClaim(input, up, a.score, a.source);
    SignalIsStrongestClaim(input, q, b.score, b.source);
    if TextLess(NameOf(up), NameOf(q)) {
      RankMeans(up, q);
    }
  }

  lemma ClaimsBelow(input: Input, q: Protocol, most: int)
    requires StrongestSignal(input, q).Some? && StrongestSignal(input, q).value.score == most
    ensures forall score, source :: Claim(input, q, score, source) ==> score <= most
  {
    forall score, source | Claim(input, q, score, source) ensures score <= most {
      SignalIsStrongestClaim(input, q, score, source);
    }
  }

  /** Without a forcing rule the plan is for a protocol that passes and has a claim, going before every other such
      protocol; without any, the legacy path or a refusal. */
  lemma ScoredOutcome(input: Input, d: Decision)
    requires Answers(input, d) && !OnlyLegacy(input) && forall p, scope :: !ForcedTo(input, p, scope)
    ensures (exists p :: Passes(input, p) && Claimed(input, p)) ==>
              && d.Chosen? && Passes(input, d.plan.upstream)
              && AdaptiveFor(d.plan, input, d.plan.upstream, d.plan.source, d.plan.priority)
              && Claim(input, d.plan.upstream, d.plan.priority, d.plan.source)
              && forall q :: q != d.plan.upstream && Passes(input, q) && Claimed(input, q) ==>
                   GoesBefore(input, d.plan.upstream, d.plan.priority, q)
    ensures (forall p :: Passes(input, p) ==> !Claimed(input, p)) ==>
              if input.legacyEligible then d.Chosen? && LegacyFor(d.plan, input)
              else d == Incompatible(None, NoCandidate)
  {
    if ForceOf(input).Some? {
      ForceMeans(input, ForceOf(input).value.0, ForceOf(input).value.1);
    }
    forall p ensures Eligible(input, p) <==> Passes(input, p) && Claimed(input, p) {
      SafeIsPassing(input, p);
      SignalWhenClaimed(input, p);
    }
    if p :| Eligible(input, p) {
      ScoredPlan(input, d);
    }
  }

  lemma ScoredPlan(input: Input, d: Decision)
    requires Answers(input, d) && !NeedsLegacy(input) && ForceOf(input).None? && exists p :: Eligible(input, p)
    ensures d.Chosen? && IsBest(input, d.plan.upstream) && Passes(input, d.plan.upstream)
    ensures AdaptiveFor(d.plan, input, d.plan.upstream, d.plan.source, d.plan.priority)
    ensures Claim(input, d.plan.upstream, d.plan.priority, d.plan.source)
    ensures forall q :: q != d.plan.upstream && Eligible(input, q) ==>
              GoesBefore(input, d.plan.upstream, d.plan.priority, q)
  {
    var up :| IsBest(input, up)
      && d == Chosen(AdaptivePlan(input, up, EvaluateConversion(input.ingress, up, input.features),
                                  StrongestSignal(input, up).value.source, StrongestSignal(input, up).value.score));
    var signal := StrongestSignal(input, up).value;
    AdaptivePlanMeans(input, up, signal.source, signal.score);
    SafeIsPassing(input, up);
    SignalIsStrongestClaim(input, up, signal.score, signal.source);
    forall q | q != up && Eligible(input, q) ensures GoesBefore(input, up, signal.score, q) {
      BestGoesBefore(input, up, q);
    }
  }

  /** Every adaptive plan is for a protocol that the channel has a profile for, and such a protocol is never
      refused for the lack of one. */
  lemma PlansHaveProfile(input: Input, d: Decision)
    requires Answers(input, d)
    ensures d.Chosen? && !d.plan.legacyFixed ==> HasProfile(input, d.plan.upstream)
    ensures d.Incompatible? && d.reason == NoProfile ==>
              exists p, scope :: ForcedTo(input, p, scope) && d.scope == Some(scope) && !HasProfile(input, p)
  {
    if d.Chosen? && !d.plan.legacyFixed {
      AdaptivePlansAreSafe(input, d);
      ProfileMeans(input, d.plan.upstream);
    }
    if d.Incompatible? && d.reason == NoProfile {
      var (p, scope) := ForceOf(input).value;
      ForceMeans(input, p, scope);
      ProfileMeans(input, p);
    }
  }
}
