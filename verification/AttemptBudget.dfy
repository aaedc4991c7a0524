/** The per-request budget of upstream attempts: every attempt takes a wire, every new channel a provider. */
module AttemptBudget {

  const DEFAULT_PROVIDERS := 20
  const DEFAULT_WIRES := 20
  const UNKNOWN_REPLAYS := 1

  datatype Budget = Budget(maxProviders: int, maxWires: int, numbers: map<int, nat>, wires: nat, unknownReplays: nat)

  function NewBudget(maxProviders: int, maxWires: int): Budget {
    Budget(if maxProviders <= 0 then DEFAULT_PROVIDERS else maxProviders,
           if maxWires <= 0 then DEFAULT_WIRES else maxWires, map[], 0, 0)
  }

  datatype Outcome = Started | WiresExceeded | ProvidersExceeded

  predicate CanUse(b: Budget, channel: int) {
    channel in b.numbers || |b.numbers| < b.maxProviders
  }

  function OutcomeOf(b: Budget, channel: int): Outcome {
    if b.wires >= b.maxWires then WiresExceeded
    else if !CanUse(b, channel) then ProvidersExceeded
    else Started
  }

  function Started'(b: Budget, channel: int): Budget {
    b.(numbers := if channel in b.numbers then b.numbers else b.numbers[channel := |b.numbers| + 1],
       wires := b.wires + 1)
  }

  /** A call that is refused changes nothing. */
  function AfterCall(b: Budget, channel: int): Budget {
    if OutcomeOf(b, channel) == Started then Started'(b, channel) else b
  }

  function Run(b: Budget, calls: seq<int>): Budget {
    if calls == [] then b else AfterCall(Run(b, calls[..|calls| - 1]), calls[|calls| - 1])
  }

  /** The channels of the calls that succeeded, in order. */
  function Successes(b: Budget, calls: seq<int>): seq<int> {
    if calls == [] then []
    else
      var prefix, last := calls[..|calls| - 1], calls[|calls| - 1];
      Successes(b, prefix) + (if OutcomeOf(Run(b, prefix), last) == Started then [last] else [])
  }

  /** The distinct values of a sequence in the order they first appear. */
  function FirstEntries(s: seq<int>): seq<int> {
    if s == [] then []
    else
      var rest, last := FirstEntries(s[..|s| - 1]), s[|s| - 1];
      if last in rest then rest else rest + [last]
  }

  lemma {:induction false} FirstEntriesAreDistinct(s: seq<int>)
    ensures forall i, j :: 0 <= i < j < |FirstEntries(s)| ==> FirstEntries(s)[i] != FirstEntries(s)[j]
    ensures forall x :: x in FirstEntries(s) <==> x in s
    ensures |FirstEntries(s)| <= |s|
  {
    if s != [] {
      FirstEntriesAreDistinct(s[..|s| - 1]);
      assert s == s[..|s| - 1] + [s[|s| - 1]];
    }
  }

  /** The channels are numbered 1, 2, .. in the order of `entered`. */
  ghost predicate Numbered(numbers: map<int, nat>, entered: seq<int>) {
    && |numbers| == |entered|
    && (forall c :: c in numbers <==> c in entered)
    && (forall i :: 0 <= i < |entered| ==> numbers[entered[i]] == i + 1)
  }

  lemma NumberNext(numbers: map<int, nat>, done: seq<int>, channel: int)
    requires Numbered(numbers, FirstEntries(done))
    ensures Numbered(if channel in numbers then numbers else numbers[channel := |numbers| + 1],
                     FirstEntries(done + [channel]))
  {
    assert (done + [channel])[..|done|] == done;
  }

  /** The successful calls of a run, and what the budget makes of them. */
  ghost predicate Accounts(b0: Budget, b: Budget, done: seq<int>) {
    && b.maxProviders == b0.maxProviders && b.maxWires == b0.maxWires
    && b.wires == |done| <= b.maxWires
    && Numbered(b.numbers, FirstEntries(done))
    && |b.numbers| <= b.maxProviders && |b.numbers| <= b.wires
  }

  lemma CallKeepsAccounts(b0: Budget, b: Budget, done: seq<int>, channel: int)
    requires Accounts(b0, b, done)
    ensures Accounts(b0, AfterCall(b, channel), if OutcomeOf(b, channel) == Started then done + [channel] else done)
  {
    NumberNext(b.numbers, done, channel);
  }

  /** Over any sequence of calls: the wires are the successes and stay within their limit; the providers
      are numbered 1, 2, .. in the order of their first success, and there are never more of them than
      the limit or than wires. */
  lemma {:induction false} BudgetOverCalls(maxProviders: int, maxWires: int, calls: seq<int>)
    ensures var b0 := NewBudget(maxProviders, maxWires);
            Accounts(b0, Run(b0, calls), Successes(b0, calls))
  {
    if calls != [] {
      var b0 := NewBudget(maxProviders, maxWires);
      var prefix, last := calls[..|calls| - 1], calls[|calls| - 1];
      BudgetOverCalls(maxProviders, maxWires, prefix);
      CallKeepsAccounts(b0, Run(b0, prefix), Successes(b0, prefix), last);
      assert Successes(b0, prefix) + [] == Successes(b0, prefix);
    }
  }

  /** While wires remain the preflight predicts exactly which calls succeed. */
  lemma PreflightIsExact(b: Budget, channel: int)
    requires b.wires < b.maxWires
    ensures CanUse(b, channel) <==> OutcomeOf(b, channel) == Started
  {
  }

  /** A channel that has succeeded once is refused later only when the wires are used up. */
  lemma {:induction false} KnownProviderStaysUsable(b: Budget, channel: int, calls: seq<int>)
    requires channel in b.numbers
    ensures var t := Run(b, calls);
            && channel in t.numbers && t.numbers[channel] == b.numbers[channel] && t.maxWires == b.maxWires
            && (OutcomeOf(t, channel) == Started <==> t.wires < t.maxWires)
  {
    if calls != [] {
      KnownProviderStaysUsable(b, channel, calls[..|calls| - 1]);
    }
  }

  lemma {:induction false} DistinctCount(s: seq<int>)
    ensures |FirstEntries(s)| == |set c | c in s|
  {
    if s != [] {
      var before, last := s[..|s| - 1], s[|s| - 1];
      DistinctCount(before);
      FirstEntriesAreDistinct(before);
      assert s == before + [last];
      var known := set c | c in before;
      assert (set c | c in s) == known + {last};
      if last in before {
        assert known + {last} == known;
      } else {
        assert |known + {last}| == |known| + 1;
      }
    }
  }

  /** After any calls the next one is refused for lack of wires exactly when the successes have used the wires up,
      and otherwise succeeds exactly when its channel has succeeded before or fewer channels than allowed have.
      A limit that is not positive is 20. */
  lemma AcceptedExactlyWhen(maxProviders: int, maxWires: int, calls: seq<int>, channel: int)
    ensures var b0 := NewBudget(maxProviders, maxWires);
            var providers := if maxProviders > 0 then maxProviders else 20;
            var wires := if maxWires > 0 then maxWires else 20;
            var outcome, done := OutcomeOf(Run(b0, calls), channel), Successes(b0, calls);
            && (outcome == WiresExceeded <==> |done| >= wires)
            && (outcome == Started <==> |done| < wires && (channel in done || |set c | c in done| < providers))
  {
    BudgetOverCalls(maxProviders, maxWires, calls);
    DistinctCount(Successes(NewBudget(maxProviders, maxWires), calls));
    FirstEntriesAreDistinct(Successes(NewBudget(maxProviders, maxWires), calls));
  }

  class RelayAttemptBudget {
    const maxProviders: int
    const maxWires: int
    const maxUnknownReplays: int
    var providers: set<int>
    var providerAttemptNum: map<int, nat>
    var wires: nat
    var unknownReplayCount: nat

    ghost predicate Valid()
      reads this
    {
      providers == providerAttemptNum.Keys && maxUnknownReplays == UNKNOWN_REPLAYS
    }

    ghost function Model(): Budget
      reads this
    {
      Budget(maxProviders, maxWires, providerAttemptNum, wires, unknownReplayCount)
    }

    constructor (providerLimit: int, wireLimit: int)
      ensures Valid() && Model() == NewBudget(providerLimit, wireLimit)
      ensures providers == {} && wires == 0 && unknownReplayCount == 0
    {
      maxProviders := if providerLimit <= 0 then DEFAULT_PROVIDERS else providerLimit;
      maxWires := if wireLimit <= 0 then DEFAULT_WIRES else wireLimit;
      maxUnknownReplays := UNKNOWN_REPLAYS;
      providers, providerAttemptNum, wires, unknownReplayCount := {}, map[], 0, 0;
    }

    method CanUseProvider(channel: int) returns (ok: bool)
      requires Valid()
      ensures ok == CanUse(Model(), channel)
    {
      assert |providers| == |providerAttemptNum|;
      if channel in providers {
        return true;
      }
      return |providers| < maxProviders;
    }

    method TryStartWire(channel: int) returns (outcome: Outcome)
      requires Valid()
      modifies this
      ensures Valid() && outcome == OutcomeOf(old(Model()), channel)
      ensures Model() == AfterCall(old(Model()), channel)
    {
      if wires >= maxWires {
        return WiresExceeded;
      }
      if channel !in providers {
        var usable := CanUseProvider(channel);
        if !usable {
          return ProvidersExceeded;
        }
        assert |providers| == |providerAttemptNum|;
        providers := providers + {channel};
        providerAttemptNum := providerAttemptNum[channel := |providers|];
      }
      wires := wires + 1;
      return Started;
    }

    /** One replay with unknown upstream outcome is granted per request. */
    method TryUnknownReplay() returns (ok: bool)
      requires Valid()
      modifies this`unknownReplayCount
      ensures Valid() && ok == (old(unknownReplayCount) < 1)
      ensures unknownReplayCount == old(unknownReplayCount) + (if ok then 1 else 0)
    {
      if unknownReplayCount >= maxUnknownReplays {
        return false;
      }
      unknownReplayCount := unknownReplayCount + 1;
      return true;
    }
  }
}
