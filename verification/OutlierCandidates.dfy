/** What the statistics of a window and of a channel are in terms of the samples, and when they make a candidate
    for retirement. */
module OutlierCandidates {
  import opened Selecting
  import opened Wrappers
  import opened OutlierWindow

  // ----- one window -----

  /** How many of the samples failed. */
  function Failing(s: seq<Sample>): nat {
    |set i | 0 <= i < |s| && !s[i].success|
  }

  /** The last n samples failed. */
  predicate LastFailed(s: seq<Sample>, n: int) {
    n <= |s| && forall i :: |s| - n <= i < |s| && i >= 0 ==> !s[i].success
  }

  /** Position i holds the last sample that succeeded. */
  predicate LastSucceeded(s: seq<Sample>, i: int) {
    0 <= i < |s| && s[i].success && forall j :: i < j < |s| ==> !s[j].success
  }

  /** No sample succeeded, or the last one that did carries the zero time. */
  ghost predicate NoTimedSuccess(s: seq<Sample>) {
    forall i :: LastSucceeded(s, i) ==> s[i].at == 0
  }

  lemma {:induction false} FailureCountMeans(s: seq<Sample>)
    ensures FailureCount(s) == Failing(s)
  {
    if s != [] {
      var before, last := s[..|s| - 1], s[|s| - 1];
      FailureCountMeans(before);
      var all, some := set i | 0 <= i < |s| && !s[i].success, set i | 0 <= i < |before| && !before[i].success;
      assert all == some + (if last.success then {} else {|s| - 1});
    }
  }

  lemma {:induction false} TrailingMeans(s: seq<Sample>)
    ensures var n := TrailingFailures(s);
            n <= |s| && LastFailed(s, n) && (n < |s| ==> s[|s| - n - 1].success)
  {
    if s != [] && !s[|s| - 1].success {
      var before := s[..|s| - 1];
      TrailingMeans(before);
      assert forall i :: 0 <= i < |before| ==> before[i] == s[i];
    }
  }

  lemma {:induction false} LastSuccessMeans(s: seq<Sample>)
    ensures forall i :: LastSucceeded(s, i) ==> LastSuccess(s) == s[i].at
    ensures (forall i :: 0 <= i < |s| ==> !s[i].success) ==> LastSuccess(s) == 0
    ensures LastSuccess(s) == 0 <==> NoTimedSuccess(s)
  {
    if s != [] {
      var before := s[..|s| - 1];
      LastSuccessMeans(before);
      assert forall i :: 0 <= i < |before| ==> before[i] == s[i];
      if s[|s| - 1].success {
        assert LastSucceeded(s, |s| - 1);
      } else {
        assert forall i :: LastSucceeded(s, i) <==> LastSucceeded(before, i);
      }
    }
  }

  lemma RateMeans(failures: nat, samples: nat)
    requires samples > 0
    ensures failures as real / samples as real * samples as real == failures as real
  {
  }

  lemma RateReaches(failures: nat, samples: nat, rate: real)
    requires samples > 0
    ensures failures as real / samples as real >= rate <==> failures as real >= rate * samples as real
  {
    Scaled(failures as real / samples as real, rate, samples as real);
    RateMeans(failures, samples);
  }

  lemma Scaled(a: real, b: real, n: real)
    requires n > 0.0
    ensures a >= b <==> a * n >= b * n
  {
    if a >= b {
      assert (a - b) * n >= 0.0;
    } else {
      assert (b - a) * n > 0.0;
    }
  }

  /** The rates, counts and times of gate 1, without the division. */
  lemma GateMeans(samples: nat, failures: nat, consecutiveFails: nat, lastSuccessAt: nat, c: Config)
    requires samples > 0
    ensures Gate1(samples, failures as real / samples as real, consecutiveFails, lastSuccessAt, c) <==>
            && samples >= c.minSamples && failures as real >= c.failRate * samples as real
            && (consecutiveFails >= c.consecFails || lastSuccessAt == 0)
  {
    RateReaches(failures, samples, c.failRate);
  }

  lemma StatsAre(valid: seq<Sample>, c: Config)
    requires valid != []
    ensures var st := StatsOf(valid, c);
            && st.samples == |valid| && st.failures == FailureCount(valid)
            && st.consecutiveFails == TrailingFailures(valid) && st.lastSuccessAt == LastSuccess(valid)
            && st.lastSampleAt == valid[|valid| - 1].at
  {
  }

  lemma StatsRate(valid: seq<Sample>, c: Config)
    requires valid != []
    ensures var st := StatsOf(valid, c); st.failureRate * st.samples as real == st.failures as real
  {
    RateMeans(FailureCount(valid), |valid|);
  }

  lemma StatsGate(valid: seq<Sample>, c: Config)
    requires valid != []
    ensures StatsOf(valid, c).candidate <==>
            && |valid| >= c.minSamples && FailureCount(valid) as real >= c.failRate * |valid| as real
            && (TrailingFailures(valid) >= c.consecFails || LastSuccess(valid) == 0)
  {
    GateMeans(|valid|, FailureCount(valid), TrailingFailures(valid), LastSuccess(valid), c);
  }

  /** The statistics of the samples an evaluation looks at. */
  lemma StatsMean(valid: seq<Sample>, c: Config)
    ensures var st := StatsOf(valid, c);
            && st.samples == |valid| && st.failures == Failing(valid)
            && LastFailed(valid, st.consecutiveFails)
            && (st.consecutiveFails < |valid| ==> valid[|valid| - st.consecutiveFails - 1].success)
            && (forall i :: LastSucceeded(valid, i) ==> st.lastSuccessAt == valid[i].at)
            && ((forall i :: 0 <= i < |valid| ==> !valid[i].success) ==> st.lastSuccessAt == 0)
            && st.lastSampleAt == (if valid == [] then 0 else valid[|valid| - 1].at)
            && st.failureRate * st.samples as real == st.failures as real
            && (valid == [] ==> st.failureRate == 0.0 && !st.candidate)
  {
    FailureCountMeans(valid);
    TrailingMeans(valid);
    LastSuccessMeans(valid);
    if valid != [] {
      StatsAre(valid, c);
      StatsRate(valid, c);
    }
  }

  /** A window is a candidate if and only if it has enough samples, enough of them failed, and either the last
      `consecFails` samples all failed or none succeeded (at a nonzero time). */
  lemma CandidateExactlyWhen(valid: seq<Sample>, c: Config)
    requires InRange(c)
    ensures StatsOf(valid, c).candidate <==>
            && |valid| >= c.minSamples
            && Failing(valid) as real >= c.failRate * |valid| as real
            && (LastFailed(valid, c.consecFails) || NoTimedSuccess(valid))
  {
    if valid != [] {
      FailureCountMeans(valid);
      LastSuccessMeans(valid);
      StatsGate(valid, c);
      EnoughTrailing(valid, c.consecFails);
    }
  }

  lemma EnoughTrailing(s: seq<Sample>, n: int)
    requires n > 0
    ensures TrailingFailures(s) >= n <==> LastFailed(s, n)
  {
    TrailingMeans(s);
    var t := TrailingFailures(s);
    if t < n <= |s| {
      assert s[|s| - t - 1].success && |s| - n <= |s| - t - 1;
    }
  }

  /** An evaluation looks at the samples later than the time window's start, at most `capacity` of them, the last. */
  lemma ConsideredMeans(seen: seq<Sample>, now: int, c: Config)
    requires c.capacity >= 0
    ensures var recent := Select(seen, (x: Sample) => now < x.at + c.timeWindow);
            Considered(seen, now, c) == if |recent| <= c.capacity then recent else recent[|recent| - c.capacity..]
  {
    SelectAlike(seen, Later(now - c.timeWindow), (x: Sample) => now < x.at + c.timeWindow);
  }

  /** A known window answers for its last 20 reports, an unknown one with nothing. */
  lemma WindowAnswers(h: Histories, k: WindowKey, now: int, c: Config)
    requires c.capacity >= 0
    ensures k !in h ==> StatsFor(h, k, now, c) == WindowStats(0, 0, 0.0, 0, 0, 0, false)
    ensures k in h && |h[k]| <= 20 ==> StatsFor(h, k, now, c) == StatsOf(Considered(h[k], now, c), c)
    ensures k in h && |h[k]| > 20 ==>
              StatsFor(h, k, now, c) == StatsOf(Considered(h[k][|h[k]| - 20..], now, c), c)
  {
  }

  // ----- a channel -----

  function OfChannel(h: Histories, channelId: int): set<WindowKey> {
    set k | k in h && k.channelId == channelId
  }

  /** Samples and failures of a channel add up window by window, whichever is taken first. */
  lemma ChannelSums(h: Histories, channelId: int, now: int, c: Config)
    requires c.capacity >= 0
    ensures var total := ChannelAggregate(h, channelId, now, c);
            && (OfChannel(h, channelId) == {} ==> total.samples == 0 && total.failures == 0)
            && forall k :: k in OfChannel(h, channelId) ==>
                 var rest, st := ChannelAggregate(h - {k}, channelId, now, c), StatsFor(h, k, now, c);
                 total.samples == rest.samples + st.samples && total.failures == rest.failures + st.failures
  {
    forall k | k in OfChannel(h, channelId)
      ensures var rest, st := ChannelAggregate(h - {k}, channelId, now, c), StatsFor(h, k, now, c);
              ChannelAggregate(h, channelId, now, c).samples == rest.samples + st.samples
              && ChannelAggregate(h, channelId, now, c).failures == rest.failures + st.failures
    {
      AggregateSplit(h, channelId, now, c, k);
    }
    if OfChannel(h, channelId) == {} {
      ForeignAddNothing(h, channelId, now, c);
    }
  }

  lemma {:induction false} ForeignAddNothing(h: Histories, channelId: int, now: int, c: Config)
    requires c.capacity >= 0 && OfChannel(h, channelId) == {}
    ensures ChannelAggregate(h, channelId, now, c) == Aggregate(0, 0, 0, 0, 0)
    decreases |h|
  {
    if k :| k in h {
      assert k !in OfChannel(h, channelId);
      AggregateSplit(h, channelId, now, c, k);
      OneLess(h, k);
      assert OfChannel(h - {k}, channelId) == {};
      ForeignAddNothing(h - {k}, channelId, now, c);
    }
  }

  /** `most` is the largest of the values, or 0. */
  ghost predicate Largest(most: nat, keys: set<WindowKey>, value: WindowKey -> nat) {
    && (forall k :: k in keys ==> value(k) <= most)
    && (most == 0 || exists k :: k in keys && value(k) == most)
  }

  /** The longest run of failures and the newest times of a channel are those of one of its windows. */
  ghost predicate Maxima(a: Aggregate, h: Histories, keys: set<WindowKey>, now: int, c: Config)
    requires c.capacity >= 0
  {
    && Largest(a.consecutiveFails, keys, (k: WindowKey) => StatsFor(h, k, now, c).consecutiveFails)
    && Largest(a.lastSuccessAt, keys, (k: WindowKey) => StatsFor(h, k, now, c).lastSuccessAt)
    && Largest(a.lastSampleAt, keys, (k: WindowKey) => StatsFor(h, k, now, c).lastSampleAt)
  }

  lemma LargestOf(most: nat, keys: set<WindowKey>, value: WindowKey -> nat, k: WindowKey)
    requires Largest(most, keys - {k}, value) && k in keys
    ensures Largest(Max(value(k), most), keys, value)
  {
    if value(k) <= most && most > 0 {
      var l :| l in keys - {k} && value(l) == most;
      assert l in keys;
    }
  }

  lemma LargestAlike(most: nat, keys: set<WindowKey>, f: WindowKey -> nat, g: WindowKey -> nat)
    requires Largest(most, keys, f) && forall k :: k in keys ==> f(k) == g(k)
    ensures Largest(most, keys, g)
  {
  }

  lemma MaximaStep(rest: Aggregate, h: Histories, keys: set<WindowKey>, now: int, c: Config, k: WindowKey)
    requires c.capacity >= 0 && k in keys && keys <= h.Keys && Maxima(rest, h - {k}, keys - {k}, now, c)
    ensures Maxima(Combine(rest, StatsFor(h, k, now, c)), h, keys, now, c)
  {
    var less := h - {k};
    assert forall l :: l in keys - {k} ==> StatsFor(less, l, now, c) == StatsFor(h, l, now, c);
    var fails := (l: WindowKey) => StatsFor(h, l, now, c).consecutiveFails;
    var less1 := (l: WindowKey) => StatsFor(less, l, now, c).consecutiveFails;
    LargestAlike(rest.consecutiveFails, keys - {k}, less1, fails);
    LargestOf(rest.consecutiveFails, keys, fails, k);
    var success := (l: WindowKey) => StatsFor(h, l, now, c).lastSuccessAt;
    var less2 := (l: WindowKey) => StatsFor(less, l, now, c).lastSuccessAt;
    LargestAlike(rest.lastSuccessAt, keys - {k}, less2, success);
    LargestOf(rest.lastSuccessAt, keys, success, k);
    var sample := (l: WindowKey) => StatsFor(h, l, now, c).lastSampleAt;
    var less3 := (l: WindowKey) => StatsFor(less, l, now, c).lastSampleAt;
    LargestAlike(rest.lastSampleAt, keys - {k}, less3, sample);
    LargestOf(rest.lastSampleAt, keys, sample, k);
  }

  lemma {:induction false} ChannelMaxima(h: Histories, channelId: int, now: int, c: Config)
    requires c.capacity >= 0
    ensures Maxima(ChannelAggregate(h, channelId, now, c), h, OfChannel(h, channelId), now, c)
    decreases |h|
  {
    if k :| k in OfChannel(h, channelId) {
      OneLess(h, k);
      ChannelMaxima(h - {k}, channelId, now, c);
      assert OfChannel(h - {k}, channelId) == OfChannel(h, channelId) - {k};
      AggregateSplit(h, channelId, now, c, k);
      MaximaStep(ChannelAggregate(h - {k}, channelId, now, c), h, OfChannel(h, channelId), now, c, k);
    } else {
      ForeignAddNothing(h, channelId, now, c);
    }
  }

  lemma ChannelStatsAre(a: Aggregate, c: Config)
    ensures a.samples == 0 ==> ChannelStats(a, c) == WindowStats(0, 0, 0.0, 0, 0, 0, false)
    ensures a.samples > 0 ==>
              var st := ChannelStats(a, c);
              && st.samples == a.samples && st.failures == a.failures && st.consecutiveFails == a.consecutiveFails
              && st.lastSuccessAt == a.lastSuccessAt && st.lastSampleAt == a.lastSampleAt
  {
  }

  lemma ChannelRate(a: Aggregate, c: Config)
    ensures var st := ChannelStats(a, c); st.failureRate * st.samples as real == st.failures as real
  {
    if a.samples > 0 {
      RateMeans(a.failures, a.samples);
    }
  }

  lemma ChannelGate(a: Aggregate, c: Config, longRun: bool, noSuccess: bool)
    requires InRange(c) && longRun == (a.consecutiveFails >= c.consecFails) && noSuccess == (a.lastSuccessAt == 0)
    ensures ChannelStats(a, c).candidate <==>
              && a.samples >= c.minSamples
              && a.failures as real >= c.failRate * a.samples as real
              && (longRun || noSuccess)
  {
    if a.samples > 0 {
      GateMeans(a.samples, a.failures, a.consecutiveFails, a.lastSuccessAt, c);
    }
  }

  ghost predicate SomeRunFails(h: Histories, keys: set<WindowKey>, now: int, c: Config)
    requires c.capacity >= 0
  {
    exists k :: k in keys && StatsFor(h, k, now, c).consecutiveFails >= c.consecFails
  }

  ghost predicate NoneSucceeded(h: Histories, keys: set<WindowKey>, now: int, c: Config)
    requires c.capacity >= 0
  {
    forall k :: k in keys ==> StatsFor(h, k, now, c).lastSuccessAt == 0
  }

  lemma MaximaDecide(a: Aggregate, h: Histories, keys: set<WindowKey>, now: int, c: Config)
    requires InRange(c) && Maxima(a, h, keys, now, c)
    ensures a.consecutiveFails >= c.consecFails <==> SomeRunFails(h, keys, now, c)
    ensures a.lastSuccessAt == 0 <==> NoneSucceeded(h, keys, now, c)
  {
  }

  /** A channel is a candidate if and only if its windows have enough samples between them, enough of these
      failed, and either one window's run of failures is long enough or no window has a success. */
  lemma ChannelCandidateExactlyWhen(h: Histories, channelId: int, now: int, c: Config) returns (a: Aggregate)
    requires InRange(c)
    ensures a == ChannelAggregate(h, channelId, now, c)
    ensures ChannelStats(a, c).candidate <==>
              && a.samples >= c.minSamples
              && a.failures as real >= c.failRate * a.samples as real
              && (SomeRunFails(h, OfChannel(h, channelId), now, c) || NoneSucceeded(h, OfChannel(h, channelId), now, c))
  {
    a := ChannelAggregate(h, channelId, now, c);
    ChannelMaxima(h, channelId, now, c);
    MaximaGate(a, h, OfChannel(h, channelId), now, c);
  }

  lemma MaximaGate(a: Aggregate, h: Histories, keys: set<WindowKey>, now: int, c: Config)
    requires InRange(c) && Maxima(a, h, keys, now, c)
    ensures ChannelStats(a, c).candidate <==>
              && a.samples >= c.minSamples
              && a.failures as real >= c.failRate * a.samples as real
              && (SomeRunFails(h, keys, now, c) || NoneSucceeded(h, keys, now, c))
  {
    MaximaDecide(a, h, keys, now, c);
    ChannelGate(a, c, SomeRunFails(h, keys, now, c), NoneSucceeded(h, keys, now, c));
  }

  /** The channel's statistics are its sums and maxima, with the rate of the sums; nothing without samples. */
  lemma ChannelStatsMean(a: Aggregate, c: Config)
    ensures var st := ChannelStats(a, c);
            && st.samples == a.samples && st.failureRate * st.samples as real == st.failures as real
            && (a.samples == 0 ==> st == WindowStats(0, 0, 0.0, 0, 0, 0, false))
            && (a.samples > 0 ==>
                  && st.failures == a.failures && st.consecutiveFails == a.consecutiveFails
                  && st.lastSuccessAt == a.lastSuccessAt && st.lastSampleAt == a.lastSampleAt)
  {
    ChannelStatsAre(a, c);
    ChannelRate(a, c);
  }

  // ----- reports -----

  /** A channel-wide report reaches the reporting window and the channel's others once, and no other window. */
  lemma ChannelReportMeans(h: Histories, self: WindowKey, s: Sample, k: WindowKey)
    ensures var after := ChannelReported(h, self, s);
            && (k in after <==> k in h || k == self)
            && (k == self && k !in h ==> after[k] == [s])
            && (k in h && k.channelId == self.channelId ==>
                |after[k]| == |h[k]| + 1 && after[k][|h[k]|] == s && h[k] <= after[k])
            && (k in h && k.channelId != self.channelId ==> after[k] == h[k])
  {
  }

  /** A reap removes exactly the windows whose newest sample is older than `ttl` before now. */
  lemma ReapMeans(h: Histories, now: int, ttl: int, k: WindowKey)
    requires k in h && h[k] != []
    ensures k in Reaped(h, now, ttl) <==> ttl <= 0 || h[k][|h[k]| - 1].at >= now - ttl
    ensures k in Reaped(h, now, ttl) ==> Reaped(h, now, ttl)[k] == h[k]
  {
  }
}
