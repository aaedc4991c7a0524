/** What later readers notice of a reap: nothing while single windows are reported to, but a channel-wide
    report shows which windows are gone. */
module OutlierReaping {
  import opened Selecting
  import opened Wrappers
  import opened OutlierWindow

  // ----- answers -----

  ghost predicate InOrder(h: Histories) {
    forall k :: k in h ==> NonDecreasing(h[k])
  }

  /** The answers a reader can get from the store at time `later`. */
  ghost predicate SameAnswers(a: Histories, b: Histories, later: int, c: Config)
    requires c.capacity >= 0
  {
    && (forall k :: StatsFor(a, k, later, c) == StatsFor(b, k, later, c))
    && (forall channelId :: ChannelAggregate(a, channelId, later, c) == ChannelAggregate(b, channelId, later, c))
  }

  lemma NothingAdded(a: Aggregate)
    ensures Combine(a, NO_STATS) == a
  {
  }

  /** The windows' own statistics decide the channel's. */
  lemma {:induction false} StatsDecideAggregate(a: Histories, b: Histories, channelId: int, later: int, c: Config)
    requires c.capacity >= 0 && forall k :: StatsFor(a, k, later, c) == StatsFor(b, k, later, c)
    ensures ChannelAggregate(a, channelId, later, c) == ChannelAggregate(b, channelId, later, c)
    decreases |a| + |b|
  {
    if a.Keys + b.Keys != {} {
      var k :| k in a.Keys + b.Keys;
      var a', b' := a - {k}, b - {k};
      forall l ensures StatsFor(a', l, later, c) == StatsFor(b', l, later, c) {
        assert StatsFor(a, l, later, c) == StatsFor(b, l, later, c);
      }
      AggregateWithout(a, channelId, later, c, k);
      AggregateWithout(b, channelId, later, c, k);
      FewerKeys(a, k);
      FewerKeys(b, k);
      StatsDecideAggregate(a', b', channelId, later, c);
    } else {
      assert a == b;
    }
  }

  lemma FewerKeys(h: Histories, k: WindowKey)
    ensures |h - {k}| <= |h| && (k in h ==> |h - {k}| < |h|)
  {
    if k in h {
      OneLess(h, k);
    } else {
      assert h - {k} == h;
    }
  }

  lemma AggregateWithout(h: Histories, channelId: int, later: int, c: Config, k: WindowKey)
    requires c.capacity >= 0
    ensures var rest := ChannelAggregate(h - {k}, channelId, later, c);
            ChannelAggregate(h, channelId, later, c)
            == if k.channelId == channelId then Combine(rest, StatsFor(h, k, later, c)) else rest
  {
    if k in h {
      AggregateSplit(h, channelId, later, c, k);
    } else {
      assert h - {k} == h;
      NothingAdded(ChannelAggregate(h, channelId, later, c));
    }
  }

  // ----- a store that lost stale samples -----

  function HistoryOf(h: Histories, k: WindowKey): seq<Sample> {
    if k in h then h[k] else []
  }

  /** `kept` is what is left of `full` after samples older than `cutoff` were dropped from its front. */
  ghost predicate Trimmed(full: seq<Sample>, kept: seq<Sample>, cutoff: int) {
    && |kept| <= |full| && full[|full| - |kept|..] == kept
    && forall i :: 0 <= i < |full| - |kept| ==> full[i].at < cutoff
  }

  ghost predicate AllTrimmed(a: Histories, b: Histories, cutoff: int) {
    forall k :: Trimmed(HistoryOf(a, k), HistoryOf(b, k), cutoff)
  }

  lemma ReapTrims(h: Histories, now: int, ttl: int, cutoff: int)
    requires InOrder(h) && (ttl > 0 ==> cutoff == now - ttl)
    ensures AllTrimmed(h, Reaped(h, now, ttl), cutoff)
  {
  }

  lemma StaleFront(gone: seq<Sample>, kept: seq<Sample>, later: int, c: Config)
    requires c.capacity >= 0 && forall i :: 0 <= i < |gone| ==> gone[i].at <= later - c.timeWindow
    ensures Considered(gone + kept, later, c) == Considered(kept, later, c)
  {
    FreshAllOrNone(gone, later - c.timeWindow);
    SelectConcat(gone, kept, Later(later - c.timeWindow));
  }

  lemma TrimmedLooksSame(full: seq<Sample>, kept: seq<Sample>, cutoff: int, later: int, c: Config)
    requires c.capacity >= 0 && Trimmed(full, kept, cutoff) && cutoff <= later - c.timeWindow + 1
    ensures EvaluateHistory(LastN(full, PHYSICAL_CAP), later, c) == EvaluateHistory(LastN(kept, PHYSICAL_CAP), later, c)
  {
    var dropped := |full| - |kept|;
    if |kept| >= PHYSICAL_CAP {
      assert full[dropped..][|kept| - PHYSICAL_CAP..] == full[|full| - PHYSICAL_CAP..];
    } else {
      var from := if |full| > PHYSICAL_CAP then |full| - PHYSICAL_CAP else 0;
      assert LastN(full, PHYSICAL_CAP) == full[from..dropped] + kept;
      forall i | 0 <= i < dropped - from ensures full[from..dropped][i].at <= later - c.timeWindow {
        assert full[from + i].at < cutoff;
      }
      StaleFront(full[from..dropped], kept, later, c);
    }
  }

  lemma TrimmedAnswersSame(a: Histories, b: Histories, cutoff: int, later: int, c: Config)
    requires c.capacity >= 0 && AllTrimmed(a, b, cutoff) && cutoff <= later - c.timeWindow + 1
    ensures SameAnswers(a, b, later, c)
  {
    forall k ensures StatsFor(a, k, later, c) == StatsFor(b, k, later, c) {
      assert Trimmed(HistoryOf(a, k), HistoryOf(b, k), cutoff);
      TrimmedLooksSame(HistoryOf(a, k), HistoryOf(b, k), cutoff, later, c);
      StatsOfHistory(a, k, later, c);
      StatsOfHistory(b, k, later, c);
    }
    forall channelId ensures ChannelAggregate(a, channelId, later, c) == ChannelAggregate(b, channelId, later, c) {
      StatsDecideAggregate(a, b, channelId, later, c);
    }
  }

  lemma StatsOfHistory(h: Histories, k: WindowKey, later: int, c: Config)
    requires c.capacity >= 0
    ensures StatsFor(h, k, later, c) == EvaluateHistory(LastN(HistoryOf(h, k), PHYSICAL_CAP), later, c)
  {
  }

  // ----- what happens after a reap -----

  datatype Action =
    | ReportOne(key: WindowKey, sample: Sample)
    | ReportAll(self: WindowKey, sample: Sample)  // a channel-wide report
    | Clear(channelId: int)
    | ReapAgain(at: int, ttl: int)

  function After(h: Histories, action: Action): Histories {
    match action
    case ReportOne(k, s) => h[k := HistoryOf(h, k) + [s]]
    case ReportAll(self, s) => ChannelReported(h, self, s)
    case Clear(channelId) => map k | k in h && k.channelId != channelId :: h[k]
    case ReapAgain(at, ttl) => Reaped(h, at, ttl)
  }

  function AfterAll(h: Histories, actions: seq<Action>): Histories {
    if actions == [] then h else After(AfterAll(h, actions[..|actions| - 1]), actions[|actions| - 1])
  }

  /** A channel-wide report finds every window that should have its sample. */
  predicate ReachesAll(a: Histories, b: Histories, action: Action) {
    action.ReportAll? ==>
      forall k :: k in a && k !in b ==> k.channelId == action.self.channelId ==> k == action.self
  }

  lemma TrimmedMore(full: seq<Sample>, kept: seq<Sample>, cutoff: int, s: Sample)
    requires Trimmed(full, kept, cutoff)
    ensures Trimmed(full + [s], kept + [s], cutoff)
  {
    assert (full + [s])[|full| - |kept|..] == full[|full| - |kept|..] + [s];
  }

  /** The action adds a sample to the window of key k. */
  predicate Receives(h: Histories, action: Action, k: WindowKey) {
    match action
    case ReportOne(key, _) => k == key
    case ReportAll(self, _) => k == self || (k in h && k.channelId == self.channelId)
    case _ => false
  }

  lemma ReportedHistory(h: Histories, action: Action, k: WindowKey)
    requires action.ReportOne? || action.ReportAll?
    ensures HistoryOf(After(h, action), k)
            == if Receives(h, action, k) then HistoryOf(h, k) + [action.sample] else HistoryOf(h, k)
  {
    assert [] + [action.sample] == [action.sample];
  }

  lemma ReportKeepsTrimmed(a: Histories, b: Histories, cutoff: int, action: Action)
    requires AllTrimmed(a, b, cutoff) && (action.ReportOne? || action.ReportAll?) && ReachesAll(a, b, action)
    requires b.Keys <= a.Keys
    ensures AllTrimmed(After(a, action), After(b, action), cutoff)
  {
    forall k ensures Trimmed(HistoryOf(After(a, action), k), HistoryOf(After(b, action), k), cutoff) {
      assert Trimmed(HistoryOf(a, k), HistoryOf(b, k), cutoff);
      TrimmedMore(HistoryOf(a, k), HistoryOf(b, k), cutoff, action.sample);
      ReportedHistory(a, action, k);
      ReportedHistory(b, action, k);
      assert Receives(a, action, k) == Receives(b, action, k);
    }
  }

  function Forgotten(history: seq<Sample>, at: int, ttl: int): seq<Sample> {
    if ttl > 0 && Idle(history, at - ttl) then [] else history
  }

  lemma ReapedHistory(h: Histories, k: WindowKey, at: int, ttl: int)
    ensures HistoryOf(Reaped(h, at, ttl), k) == Forgotten(HistoryOf(h, k), at, ttl)
  {
  }

  /** Two windows are forgotten alike: the newest samples agree, and where none is left the full one is stale. */
  lemma ForgetKeepsTrimmed(full: seq<Sample>, kept: seq<Sample>, cutoff: int, at: int, ttl: int)
    requires Trimmed(full, kept, cutoff)
    ensures Trimmed(Forgotten(full, at, ttl), Forgotten(kept, at, ttl), cutoff)
  {
    if kept != [] {
      assert full[|full| - |kept|..][|kept| - 1] == full[|full| - 1];
    }
  }

  lemma ReapKeepsTrimmed(a: Histories, b: Histories, cutoff: int, at: int, ttl: int)
    requires AllTrimmed(a, b, cutoff)
    ensures AllTrimmed(Reaped(a, at, ttl), Reaped(b, at, ttl), cutoff)
  {
    forall k ensures Trimmed(HistoryOf(Reaped(a, at, ttl), k), HistoryOf(Reaped(b, at, ttl), k), cutoff) {
      assert Trimmed(HistoryOf(a, k), HistoryOf(b, k), cutoff);
      ForgetKeepsTrimmed(HistoryOf(a, k), HistoryOf(b, k), cutoff, at, ttl);
      ReapedHistory(a, k, at, ttl);
      ReapedHistory(b, k, at, ttl);
    }
  }

  lemma ActionKeepsTrimmed(a: Histories, b: Histories, cutoff: int, action: Action)
    requires AllTrimmed(a, b, cutoff) && ReachesAll(a, b, action) && b.Keys <= a.Keys
    ensures AllTrimmed(After(a, action), After(b, action), cutoff)
  {
    match action
    case ReportOne(_, _) => ReportKeepsTrimmed(a, b, cutoff, action);
    case ReportAll(_, _) => ReportKeepsTrimmed(a, b, cutoff, action);
    case Clear(_) =>
      forall k ensures Trimmed(HistoryOf(After(a, action), k), HistoryOf(After(b, action), k), cutoff) {
        assert Trimmed(HistoryOf(a, k), HistoryOf(b, k), cutoff);
      }
    case ReapAgain(at, ttl) => ReapKeepsTrimmed(a, b, cutoff, at, ttl);
  }

  lemma ActionKeepsKeys(a: Histories, b: Histories, cutoff: int, action: Action)
    requires AllTrimmed(a, b, cutoff) && b.Keys <= a.Keys
    ensures After(b, action).Keys <= After(a, action).Keys
  {
    if action.ReapAgain? {
      forall k | k in Reaped(b, action.at, action.ttl) ensures k in Reaped(a, action.at, action.ttl) {
        assert Trimmed(HistoryOf(a, k), HistoryOf(b, k), cutoff);
        if b[k] != [] {
          assert a[k][|a[k]| - |b[k]|..][|b[k]| - 1] == a[k][|a[k]| - 1];
        }
      }
    }
  }

  /** No channel-wide report of the run misses a window that only the other store still has. */
  predicate NoneMissed(a: Histories, b: Histories, actions: seq<Action>) {
    actions == [] ||
    var before := actions[..|actions| - 1];
    NoneMissed(a, b, before) && ReachesAll(AfterAll(a, before), AfterAll(b, before), actions[|actions| - 1])
  }

  lemma {:induction false} RunKeepsTrimmed(a: Histories, b: Histories, cutoff: int, actions: seq<Action>)
    requires AllTrimmed(a, b, cutoff) && b.Keys <= a.Keys && NoneMissed(a, b, actions)
    ensures AllTrimmed(AfterAll(a, actions), AfterAll(b, actions), cutoff)
    ensures AfterAll(b, actions).Keys <= AfterAll(a, actions).Keys
  {
    if actions != [] {
      var before, last := actions[..|actions| - 1], actions[|actions| - 1];
      RunKeepsTrimmed(a, b, cutoff, before);
      ActionKeepsTrimmed(AfterAll(a, before), AfterAll(b, before), cutoff, last);
      ActionKeepsKeys(AfterAll(a, before), AfterAll(b, before), cutoff, last);
    }
  }

  // ----- when a reap is invisible -----

  predicate NoChannelReport(actions: seq<Action>) {
    forall i :: 0 <= i < |actions| ==> !actions[i].ReportAll?
  }

  /** No reap is noticed by a reader later on, as long as reports, clears and further reaps are all that
      happens in between. */
  ghost predicate ReapIsInvisible(ttl: int, c: Config)
    requires c.capacity >= 0
  {
    forall h: Histories, now: int, actions: seq<Action>, later: int ::
      InOrder(h) && NoChannelReport(actions) && later >= now ==>
        SameAnswers(AfterAll(h, actions), AfterAll(Reaped(h, now, ttl), actions), later, c)
  }

  lemma ReapedIsPart(h: Histories, now: int, ttl: int)
    ensures Reaped(h, now, ttl).Keys <= h.Keys
  {
  }

  lemma ReapUnseen(h: Histories, now: int, ttl: int, actions: seq<Action>, later: int, c: Config)
    requires InRange(c) && InOrder(h) && later >= now && (ttl <= 0 || ttl + 1 >= c.timeWindow)
    requires NoneMissed(h, Reaped(h, now, ttl), actions)
    ensures SameAnswers(AfterAll(h, actions), AfterAll(Reaped(h, now, ttl), actions), later, c)
  {
    var cutoff := if ttl > 0 then now - ttl else later - c.timeWindow;
    ReapTrims(h, now, ttl, cutoff);
    ReapedIsPart(h, now, ttl);
    TrimmedRunSame(h, Reaped(h, now, ttl), cutoff, actions, later, c);
  }

  lemma TrimmedRunSame(a: Histories, b: Histories, cutoff: int, actions: seq<Action>, later: int, c: Config)
    requires c.capacity >= 0 && cutoff <= later - c.timeWindow + 1
    requires AllTrimmed(a, b, cutoff) && b.Keys <= a.Keys && NoneMissed(a, b, actions)
    ensures SameAnswers(AfterAll(a, actions), AfterAll(b, actions), later, c)
  {
    RunKeepsTrimmed(a, b, cutoff, actions);
    TrimmedAnswersSame(AfterAll(a, actions), AfterAll(b, actions), cutoff, later, c);
  }

  lemma {:induction false} NoneToMiss(a: Histories, b: Histories, actions: seq<Action>)
    requires NoChannelReport(actions)
    ensures NoneMissed(a, b, actions)
  {
    if actions != [] {
      NoneToMiss(a, b, actions[..|actions| - 1]);
    }
  }

  /** A shorter ttl reaps a window whose newest sample still counts. */
  lemma ReapTooEager(ttl: int, c: Config)
    requires InRange(c) && 0 < ttl && ttl + 1 < c.timeWindow
    ensures !ReapIsInvisible(ttl, c)
  {
    var k := WindowKey(1, "m");
    var h: Histories := map[k := [Sample(1, true)]];
    var now := ttl + 2;
    assert InOrder(h);
    assert Fresh([Sample(1, true)], now - c.timeWindow) == [Sample(1, true)] by {
      FreshAllOrNone([Sample(1, true)], now - c.timeWindow);
    }
    assert StatsFor(h, k, now, c).samples == 1;
    assert k !in Reaped(h, now, ttl);
    assert AfterAll(h, []) == h && AfterAll(Reaped(h, now, ttl), []) == Reaped(h, now, ttl);
    assert !SameAnswers(AfterAll(h, []), AfterAll(Reaped(h, now, ttl), []), now, c);
  }

  /** With reports in order before it, a reap changes no single or channel-wide answer, whatever single
      reports, clears and reaps follow it, exactly when it does nothing or its ttl is at least the time
      window (in whole nanoseconds, one less is still enough). */
  lemma ReapInvisibleExactlyWhen(ttl: int, c: Config)
    requires InRange(c)
    ensures ReapIsInvisible(ttl, c) <==> ttl <= 0 || ttl + 1 >= c.timeWindow
  {
    if ttl <= 0 || ttl + 1 >= c.timeWindow {
      forall h: Histories, now: int, actions: seq<Action>, later: int
        | InOrder(h) && NoChannelReport(actions) && later >= now
        ensures SameAnswers(AfterAll(h, actions), AfterAll(Reaped(h, now, ttl), actions), later, c)
      {
        NoneToMiss(h, Reaped(h, now, ttl), actions);
        ReapUnseen(h, now, ttl, actions, later, c);
      }
    } else {
      ReapTooEager(ttl, c);
    }
  }

  // ----- channel-wide reports -----

  /** Channel-wide reports come after the reap, as times go. */
  predicate Timely(actions: seq<Action>, now: int) {
    forall i :: 0 <= i < |actions| && actions[i].ReportAll? ==> actions[i].sample.at >= now
  }

  ghost predicate SameFrom(a: Histories, b: Histories, now: int, c: Config)
    requires c.capacity >= 0
  {
    forall later :: later >= now ==> SameAnswers(a, b, later, c)
  }

  /** At every moment of the run, and for every time of asking. */
  ghost predicate AlwaysSame(a: Histories, b: Histories, actions: seq<Action>, now: int, c: Config)
    requires c.capacity >= 0
  {
    && SameFrom(AfterAll(a, actions), AfterAll(b, actions), now, c)
    && (actions != [] ==> AlwaysSame(a, b, actions[..|actions| - 1], now, c))
  }

  lemma NewestCounts(history: seq<Sample>, s: Sample, c: Config)
    requires InRange(c)
    ensures EvaluateHistory(LastN(history + [s], PHYSICAL_CAP), s.at, c) != NO_STATS
  {
    var recent := LastN(history + [s], PHYSICAL_CAP);
    assert recent[|recent| - 1] == s;
    assert s in recent;
    FreshAllOrNone(recent, s.at - c.timeWindow);
  }

  /** A window the report missed has a fresh sample in one store and is unknown in the other. */
  lemma MissedWindowShows(a: Histories, b: Histories, action: Action, now: int, c: Config)
    requires InRange(c) && action.ReportAll? && action.sample.at >= now && !ReachesAll(a, b, action)
    ensures !SameFrom(After(a, action), After(b, action), now, c)
  {
    var k :| k in a && k !in b && k.channelId == action.self.channelId && k != action.self;
    var s := action.sample;
    assert After(a, action)[k] == a[k] + [s] && k !in After(b, action);
    NewestCounts(a[k], s, c);
    assert StatsFor(After(a, action), k, s.at, c) != StatsFor(After(b, action), k, s.at, c);
    assert !SameAnswers(After(a, action), After(b, action), s.at, c);
  }

  /** Over any run after a reap that is invisible by itself, channel-wide reports included: all answers are at
      all times the same if and only if no such report came from a channel with a reaped window other than the
      reporting one. */
  lemma {:induction false} ReapSeenExactlyWhen(h: Histories, now: int, ttl: int, actions: seq<Action>, c: Config)
    requires InRange(c) && InOrder(h) && (ttl <= 0 || ttl + 1 >= c.timeWindow) && Timely(actions, now)
    ensures AlwaysSame(h, Reaped(h, now, ttl), actions, now, c) <==> NoneMissed(h, Reaped(h, now, ttl), actions)
  {
    var r := Reaped(h, now, ttl);
    if NoneMissed(h, r, actions) {
      forall later | later >= now ensures SameAnswers(AfterAll(h, actions), AfterAll(r, actions), later, c) {
        ReapUnseen(h, now, ttl, actions, later, c);
      }
    }
    if actions != [] {
      var before, last := actions[..|actions| - 1], actions[|actions| - 1];
      ReapSeenExactlyWhen(h, now, ttl, before, c);
      if !ReachesAll(AfterAll(h, before), AfterAll(r, before), last) {
        MissedWindowShows(AfterAll(h, before), AfterAll(r, before), last, now, c);
      }
    }
  }

  lemma AfterOne(h: Histories, action: Action)
    ensures AfterAll(h, [action]) == After(h, action)
  {
    assert [action][..0] == [];
    assert AfterAll(h, []) == h;
  }

  lemma NoneMissedOnce(a: Histories, b: Histories, action: Action)
    requires ReachesAll(a, b, action)
    ensures NoneMissed(a, b, [action])
  {
    assert [action][..0] == [];
    assert AfterAll(a, []) == a && AfterAll(b, []) == b;
  }

  /** One channel-wide report right after the reap. */
  lemma ChannelReportShowsReap(h: Histories, now: int, ttl: int, self: WindowKey, s: Sample, c: Config)
    requires InRange(c) && InOrder(h) && (ttl <= 0 || ttl + 1 >= c.timeWindow) && s.at >= now
    ensures SameFrom(ChannelReported(h, self, s), ChannelReported(Reaped(h, now, ttl), self, s), now, c) <==>
            forall k :: k in h && k !in Reaped(h, now, ttl) && k.channelId == self.channelId ==> k == self
  {
    var r, action := Reaped(h, now, ttl), ReportAll(self, s);
    AfterOne(h, action);
    AfterOne(r, action);
    if ReachesAll(h, r, action) {
      NoneMissedOnce(h, r, action);
      forall later | later >= now ensures SameAnswers(After(h, action), After(r, action), later, c) {
        ReapUnseen(h, now, ttl, [action], later, c);
      }
    } else {
      MissedWindowShows(h, r, action, now, c);
    }
  }

  /** Two windows of one channel, one idle: reap, then the other reports for the channel. The idle one would
      have had the sample and is gone. */
  lemma ReapedWindowMissesReport(c: Config, now: nat, ttl: nat)
    requires InRange(c) && ttl + 1 >= c.timeWindow && 0 < ttl < now
    ensures var idle, live := WindowKey(1, "a"), WindowKey(1, "b");
            var h: Histories := map[idle := [Sample(0, false)], live := [Sample(now, false)]];
            var s := Sample(now, false);
            && SameFrom(h, Reaped(h, now, ttl), now, c)
            && !SameFrom(ChannelReported(h, live, s), ChannelReported(Reaped(h, now, ttl), live, s), now, c)
  {
    var idle, live := WindowKey(1, "a"), WindowKey(1, "b");
    var h: Histories := map[idle := [Sample(0, false)], live := [Sample(now, false)]];
    assert idle.model[0] != live.model[0];
    assert InOrder(h) && idle in h && idle !in Reaped(h, now, ttl);
    ChannelReportShowsReap(h, now, ttl, live, Sample(now, false), c);
    assert AfterAll(h, []) == h && AfterAll(Reaped(h, now, ttl), []) == Reaped(h, now, ttl);
    forall later | later >= now ensures SameAnswers(h, Reaped(h, now, ttl), later, c) {
      ReapUnseen(h, now, ttl, [], later, c);
    }
  }
}
