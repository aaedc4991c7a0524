/** Rolling success/failure windows per (channel, model): a 20-slot ring stands in for the unbounded
    report history. Times are nanoseconds since the zero time, so 0 is `time.Time{}`. */
module OutlierWindow {
  import opened Selecting
  import opened Wrappers

  const PHYSICAL_CAP := 20

  datatype Sample = Sample(at: nat, success: bool)

  datatype Config = Config(capacity: int, timeWindow: int, minSamples: int, failRate: real, consecFails: int)

  const DEFAULT := Config(PHYSICAL_CAP, 600_000_000_000, 8, 0.85, 10)

  predicate InRange(c: Config) {
    && 1 <= c.capacity <= PHYSICAL_CAP && c.timeWindow > 0 && c.minSamples > 0
    && 0.0 < c.failRate <= 1.0 && c.consecFails > 0
  }

  /** Each illegal value falls back to its own default, beside legal ones that are kept. */
  function Configured(c: Config): (r: Config)
    ensures InRange(r)
    ensures r.capacity == (if 1 <= c.capacity <= PHYSICAL_CAP then c.capacity else 20)
    ensures r.timeWindow == (if c.timeWindow > 0 then c.timeWindow else 600_000_000_000)
    ensures r.minSamples == (if c.minSamples > 0 then c.minSamples else 8)
    ensures r.failRate == (if 0.0 < c.failRate <= 1.0 then c.failRate else 0.85)
    ensures r.consecFails == (if c.consecFails > 0 then c.consecFails else 10)
    ensures InRange(c) <==> r == c
  {
    Config(
      if c.capacity <= 0 || c.capacity > PHYSICAL_CAP then PHYSICAL_CAP else c.capacity,
      if c.timeWindow <= 0 then DEFAULT.timeWindow else c.timeWindow,
      if c.minSamples <= 0 then DEFAULT.minSamples else c.minSamples,
      if c.failRate <= 0.0 || c.failRate > 1.0 then DEFAULT.failRate else c.failRate,
      if c.consecFails <= 0 then DEFAULT.consecFails else c.consecFails)
  }

  datatype WindowStats = WindowStats(
    samples: nat, failures: nat, failureRate: real, consecutiveFails: nat,
    lastSuccessAt: nat, lastSampleAt: nat, candidate: bool)

  const NO_STATS := WindowStats(0, 0, 0.0, 0, 0, 0, false)

  // ----- statistics of a history -----

  function LastN<T>(s: seq<T>, n: nat): seq<T> {
    if |s| > n then s[|s| - n..] else s
  }

  function Later(cutoff: int): Sample -> bool {
    (x: Sample) => x.at > cutoff
  }

  /** The samples later than `cutoff`. */
  function Fresh(s: seq<Sample>, cutoff: int): seq<Sample> {
    Select(s, Later(cutoff))
  }

  function FailureCount(s: seq<Sample>): nat {
    if s == [] then 0 else FailureCount(s[..|s| - 1]) + (if s[|s| - 1].success then 0 else 1)
  }

  function TrailingFailures(s: seq<Sample>): nat {
    if s == [] || s[|s| - 1].success then 0 else TrailingFailures(s[..|s| - 1]) + 1
  }

  function LastSuccess(s: seq<Sample>): nat {
    if s == [] then 0 else if s[|s| - 1].success then s[|s| - 1].at else LastSuccess(s[..|s| - 1])
  }

  predicate Gate1(samples: nat, failureRate: real, consecutiveFails: nat, lastSuccessAt: nat, c: Config) {
    samples >= c.minSamples && failureRate >= c.failRate && (consecutiveFails >= c.consecFails || lastSuccessAt == 0)
  }

  function StatsOf(valid: seq<Sample>, c: Config): WindowStats {
    if valid == [] then NO_STATS
    else
      var rate := FailureCount(valid) as real / |valid| as real;
      WindowStats(
        |valid|, FailureCount(valid), rate, TrailingFailures(valid), LastSuccess(valid), valid[|valid| - 1].at,
        Gate1(|valid|, rate, TrailingFailures(valid), LastSuccess(valid), c))
  }

  /** The samples an evaluation looks at, given all samples it can see. */
  function Considered(seen: seq<Sample>, now: int, c: Config): seq<Sample>
    requires c.capacity >= 0
  {
    LastN(Fresh(seen, now - c.timeWindow), c.capacity)
  }

  /** The specification: statistics over everything ever reported. */
  function EvaluateHistory(history: seq<Sample>, now: int, c: Config): WindowStats
    requires c.capacity >= 0
  {
    StatsOf(Considered(history, now, c), c)
  }

  ghost predicate NonDecreasing(history: seq<Sample>) {
    forall i, j :: 0 <= i < j < |history| ==> history[i].at <= history[j].at
  }

  lemma FreshAllOrNone(s: seq<Sample>, cutoff: int)
    ensures |Fresh(s, cutoff)| <= |s|
    ensures (forall x :: x in s ==> x.at > cutoff) <==> Fresh(s, cutoff) == s
    ensures (forall x :: x in s ==> x.at <= cutoff) <==> Fresh(s, cutoff) == []
  {
    SelectKeepsAll(s, Later(cutoff));
    SelectDropsAll(s, Later(cutoff));
    assert forall x :: Later(cutoff)(x) <==> x.at > cutoff;
  }

  lemma LastNAgree(a: seq<Sample>, b: seq<Sample>, all: seq<Sample>, n: nat)
    requires all == a + b
    ensures LastN(b, n) == LastN(all, n) <==> |b| >= n || |b| == |all|
  {
    if |b| >= n {
      assert LastN(all, n) == LastN(b, n);
    } else if a == [] {
      assert all == b;
    } else {
      assert |LastN(all, n)| != |LastN(b, n)|;
    }
  }

  lemma RecentSeesEnough(older: seq<Sample>, recent: seq<Sample>, now: int, c: Config)
    requires c.capacity >= 0
    ensures var cutoff := now - c.timeWindow;
            Considered(recent, now, c) == Considered(older + recent, now, c)
            <==> |Fresh(recent, cutoff)| >= c.capacity || |Fresh(recent, cutoff)| == |Fresh(older + recent, cutoff)|
  {
    var cutoff := now - c.timeWindow;
    var a, b, all := Fresh(older, cutoff), Fresh(recent, cutoff), Fresh(older + recent, cutoff);
    assert all == a + b by { SelectConcat(older, recent, Later(cutoff)); }
    LastNAgree(a, b, all, c.capacity);
    assert Considered(recent, now, c) == LastN(b, c.capacity);
    assert Considered(older + recent, now, c) == LastN(all, c.capacity);
  }

  /** Exactly when the last 20 reports give the same samples as the whole history: enough of them are
      fresh, or no older report is. */
  lemma RingSeesEnough(history: seq<Sample>, now: int, c: Config)
    requires InRange(c)
    ensures var cutoff := now - c.timeWindow;
            var recent := LastN(history, PHYSICAL_CAP);
            Considered(recent, now, c) == Considered(history, now, c)
            <==> |Fresh(recent, cutoff)| >= c.capacity || |Fresh(recent, cutoff)| == |Fresh(history, cutoff)|
  {
    var cutoff := now - c.timeWindow;
    var recent := LastN(history, PHYSICAL_CAP);
    var older := history[..|history| - |recent|];
    assert history == older + recent;
    RecentSeesEnough(older, recent, now, c);
  }

  /** A fresh older report makes all recent reports fresh. */
  lemma FreshIsSuffix(older: seq<Sample>, recent: seq<Sample>, cutoff: int)
    requires NonDecreasing(older + recent) && Fresh(older, cutoff) != []
    ensures Fresh(recent, cutoff) == recent
  {
    FreshAllOrNone(older, cutoff);
    var i :| 0 <= i < |older| && older[i].at > cutoff;
    forall y | y in recent ensures y.at > cutoff {
      var j :| 0 <= j < |recent| && recent[j] == y;
      assert (older + recent)[i] == older[i] && (older + recent)[|older| + j] == y;
    }
    FreshAllOrNone(recent, cutoff);
  }

  /** With non-decreasing report times the ring answers exactly as the unbounded history would. */
  lemma RingIsHistory(history: seq<Sample>, now: int, c: Config)
    requires InRange(c) && NonDecreasing(history)
    ensures EvaluateHistory(LastN(history, PHYSICAL_CAP), now, c) == EvaluateHistory(history, now, c)
  {
    var cutoff := now - c.timeWindow;
    var recent := LastN(history, PHYSICAL_CAP);
    var older := history[..|history| - |recent|];
    assert history == older + recent;
    assert Considered(recent, now, c) == Considered(history, now, c) by {
      RingSeesEnough(history, now, c);
      SelectConcat(older, recent, Later(cutoff));
      if Fresh(older, cutoff) != [] {
        FreshIsSuffix(older, recent, cutoff);
      }
    }
  }

  // ----- the ring -----

  lemma SlotOf(reports: nat, size: nat, i: nat)
    requires i < size && size == (if reports < PHYSICAL_CAP then reports else PHYSICAL_CAP)
    ensures var start := if size == PHYSICAL_CAP then reports % PHYSICAL_CAP else 0;
            (start + i) % PHYSICAL_CAP == (reports - size + i) % PHYSICAL_CAP
  {
  }

  lemma SlotsDiffer(j: int, n: int)
    requires n - PHYSICAL_CAP < j < n
    ensures j % PHYSICAL_CAP != n % PHYSICAL_CAP
  {
  }

  lemma NextSlot(n: nat)
    ensures (n % PHYSICAL_CAP + 1) % PHYSICAL_CAP == (n + 1) % PHYSICAL_CAP
  {
  }

  class RingWindow {
    const buf: array<Sample>
    var size: nat
    var next: nat
    var lastSeen: nat
    ghost var history: seq<Sample>

    /** Slot j % 20 holds report j, for the last `size` reports. */
    ghost predicate Valid()
      reads this, buf
    {
      && buf.Length == PHYSICAL_CAP
      && size == (if |history| < PHYSICAL_CAP then |history| else PHYSICAL_CAP)
      && next == |history| % PHYSICAL_CAP
      && lastSeen == (if history == [] then 0 else history[|history| - 1].at)
      && forall j :: |history| - size <= j < |history| ==> buf[j % PHYSICAL_CAP] == history[j]
    }

    constructor ()
      ensures Valid() && history == [] && fresh(buf)
    {
      buf := new Sample[PHYSICAL_CAP](_ => Sample(0, false));
      size, next, lastSeen, history := 0, 0, 0, [];
    }

    method Record(success: bool, now: nat)
      requires Valid()
      modifies this, buf
      ensures Valid() && history == old(history) + [Sample(now, success)]
    {
      ghost var n := |history|;
      forall j | n - PHYSICAL_CAP < j < n ensures j % PHYSICAL_CAP != next {
        SlotsDiffer(j, n);
      }
      buf[next] := Sample(now, success);
      next := (next + 1) % PHYSICAL_CAP;
      NextSlot(n);
      if size < PHYSICAL_CAP {
        size := size + 1;
      }
      lastSeen := now;
      history := history + [Sample(now, success)];
    }

    /** The held samples from oldest to newest. */
    method Ordered() returns (out: seq<Sample>)
      requires Valid()
      ensures out == LastN(history, PHYSICAL_CAP)
    {
      out := [];
      if size == 0 {
        return;
      }
      var start := if size == PHYSICAL_CAP then next else 0;
      for i := 0 to size
        invariant |out| == i && forall k :: 0 <= k < i ==> out[k] == history[|history| - size + k]
      {
        SlotOf(|history|, size, i);
        out := out + [buf[(start + i) % PHYSICAL_CAP]];
      }
    }

    method Evaluate(now: int, c: Config) returns (st: WindowStats)
      requires Valid() && InRange(c)
      ensures st == EvaluateHistory(LastN(history, PHYSICAL_CAP), now, c)
      ensures NonDecreasing(history) ==> st == EvaluateHistory(history, now, c)
    {
      var ordered := Ordered();
      if NonDecreasing(history) {
        RingIsHistory(history, now, c);
      }
      var valid := KeepFresh(ordered, now - c.timeWindow);
      if |valid| > c.capacity {
        valid := valid[|valid| - c.capacity..];
      }
      st := Accumulate(valid, c);
    }
  }

  method KeepFresh(ordered: seq<Sample>, cutoff: int) returns (valid: seq<Sample>)
    ensures valid == Fresh(ordered, cutoff)
  {
    valid := [];
    for i := 0 to |ordered|
      invariant valid == Fresh(ordered[..i], cutoff)
    {
      SelectNext(ordered, i, Later(cutoff));
      if ordered[i].at > cutoff {
        valid := valid + [ordered[i]];
      }
    }
    assert ordered[..|ordered|] == ordered;
  }

  method Accumulate(valid: seq<Sample>, c: Config) returns (st: WindowStats)
    ensures st == StatsOf(valid, c)
  {
    if |valid| == 0 {
      return NO_STATS;
    }
    var failures, lastSuccessAt := 0, 0;
    for i := 0 to |valid|
      invariant failures == FailureCount(valid[..i]) && lastSuccessAt == LastSuccess(valid[..i])
    {
      assert valid[..i + 1][..i] == valid[..i];
      if valid[i].success {
        lastSuccessAt := valid[i].at;
      } else {
        failures := failures + 1;
      }
    }
    assert valid[..|valid|] == valid;
    var consecutive, i := 0, |valid|;
    while i > 0 && !valid[i - 1].success
      invariant 0 <= i <= |valid|
      invariant consecutive + TrailingFailures(valid[..i]) == TrailingFailures(valid)
      decreases i
    {
      assert valid[..i][..i - 1] == valid[..i - 1];
      consecutive, i := consecutive + 1, i - 1;
    }
    var rate := failures as real / |valid| as real;
    return WindowStats(|valid|, failures, rate, consecutive, lastSuccessAt, valid[|valid| - 1].at,
                       Gate1(|valid|, rate, consecutive, lastSuccessAt, c));
  }

  // ----- the store -----

  datatype WindowKey = WindowKey(channelId: int, model: string)

  type Histories = map<WindowKey, seq<Sample>>

  function StatsFor(h: Histories, k: WindowKey, now: int, c: Config): WindowStats
    requires c.capacity >= 0
  {
    if k in h then EvaluateHistory(LastN(h[k], PHYSICAL_CAP), now, c) else NO_STATS
  }

  /** A channel-wide report adds one sample to the reporting window, created if need be, and to every
      other known window of the channel. */
  function ChannelReported(h: Histories, self: WindowKey, s: Sample): Histories {
    map k | k in h.Keys + {self} ::
      if k !in h then [s] else if k.channelId == self.channelId then h[k] + [s] else h[k]
  }

  /** The channel's windows outside `waiting` have the sample, the others do not yet. */
  function PartlyReported(h: Histories, waiting: set<WindowKey>, channelId: int, s: Sample): Histories {
    map k | k in h :: if k in waiting || k.channelId != channelId then h[k] else h[k] + [s]
  }

  datatype Aggregate = Aggregate(samples: nat, failures: nat, consecutiveFails: nat, lastSuccessAt: nat,
                                 lastSampleAt: nat)

  function Combine(a: Aggregate, st: WindowStats): Aggregate {
    Aggregate(a.samples + st.samples, a.failures + st.failures, Max(st.consecutiveFails, a.consecutiveFails),
              Max(st.lastSuccessAt, a.lastSuccessAt), Max(st.lastSampleAt, a.lastSampleAt))
  }

  /** Sums and maxima over the channel's windows, taken in some order. */
  ghost function ChannelAggregate(h: Histories, channelId: int, now: int, c: Config): Aggregate
    requires c.capacity >= 0
  {
    if h == map[] then Aggregate(0, 0, 0, 0, 0)
    else
      var k :| k in h;
      var rest := ChannelAggregate(h - {k}, channelId, now, c);
      if k.channelId == channelId then Combine(rest, StatsFor(h, k, now, c)) else rest
  }

  lemma CombineSwaps(a: Aggregate, x: WindowStats, y: WindowStats)
    ensures Combine(Combine(a, x), y) == Combine(Combine(a, y), x)
  {
  }

  /** Any window may come first: the aggregate does not depend on the iteration order. */
  lemma {:induction false} AggregateSplit(h: Histories, channelId: int, now: int, c: Config, k: WindowKey)
    requires c.capacity >= 0 && k in h
    ensures var rest := ChannelAggregate(h - {k}, channelId, now, c);
            ChannelAggregate(h, channelId, now, c)
            == if k.channelId == channelId then Combine(rest, StatsFor(h, k, now, c)) else rest
    decreases h.Keys
  {
    var first :| first in h
      && var rest := ChannelAggregate(h - {first}, channelId, now, c);
         ChannelAggregate(h, channelId, now, c)
         == if first.channelId == channelId then Combine(rest, StatsFor(h, first, now, c)) else rest;
    if first != k {
      AggregateSplit(h - {first}, channelId, now, c, k);
      AggregateSplit(h - {k}, channelId, now, c, first);
      assert h - {first} - {k} == h - {k} - {first};
      assert StatsFor(h - {first}, k, now, c) == StatsFor(h, k, now, c);
      assert StatsFor(h - {k}, first, now, c) == StatsFor(h, first, now, c);
      var rest := ChannelAggregate(h - {k} - {first}, channelId, now, c);
      CombineSwaps(rest, StatsFor(h, k, now, c), StatsFor(h, first, now, c));
    }
  }

  lemma AggregateAdd(h: Histories, k: WindowKey, history: seq<Sample>, channelId: int, now: int, c: Config)
    requires c.capacity >= 0 && k !in h
    ensures var rest := ChannelAggregate(h, channelId, now, c);
            ChannelAggregate(h[k := history], channelId, now, c)
            == if k.channelId == channelId then Combine(rest, StatsFor(h[k := history], k, now, c)) else rest
  {
    AggregateSplit(h[k := history], channelId, now, c, k);
    assert h[k := history] - {k} == h;
  }

  /** The windows a walk over the store has passed. */
  function Walked(h: Histories, todo: set<WindowKey>): Histories {
    map k | k in h && k !in todo :: h[k]
  }

  lemma WalkStarts(h: Histories)
    ensures Walked(h, h.Keys) == map[]
  {
  }

  lemma WalkEnds(h: Histories)
    ensures Walked(h, {}) == h
  {
  }

  lemma WalkStep(h: Histories, todo: set<WindowKey>, k: WindowKey, channelId: int, now: int, c: Config)
    requires c.capacity >= 0 && k in todo && k in h
    ensures var total := ChannelAggregate(Walked(h, todo), channelId, now, c);
            ChannelAggregate(Walked(h, todo - {k}), channelId, now, c)
            == if k.channelId == channelId then Combine(total, StatsFor(h, k, now, c)) else total
  {
    assert Walked(h, todo - {k}) == Walked(h, todo)[k := h[k]];
    AggregateAdd(Walked(h, todo), k, h[k], channelId, now, c);
  }

  /** A window without samples adds nothing. */
  lemma EmptyAddsNothing(a: Aggregate, valid: seq<Sample>, c: Config)
    ensures StatsOf(valid, c).samples == 0 ==> Combine(a, StatsOf(valid, c)) == a
  {
  }

  lemma PartlyReportedStep(h: Histories, todo: set<WindowKey>, self: WindowKey, s: Sample, k: WindowKey)
    requires k in todo && k in h
    ensures var before := PartlyReported(h, todo + {self}, self.channelId, s);
            PartlyReported(h, todo - {k} + {self}, self.channelId, s)
            == if k.channelId == self.channelId && k != self then before[k := before[k] + [s]] else before
  {
  }

  lemma NothingReported(h: Histories, waiting: set<WindowKey>, channelId: int, s: Sample)
    requires h.Keys <= waiting
    ensures PartlyReported(h, waiting, channelId, s) == h
  {
  }

  lemma FanOutCompletes(h: Histories, self: WindowKey, s: Sample)
    ensures PartlyReported(h[self := (if self in h then h[self] else []) + [s]], {self}, self.channelId, s)
            == ChannelReported(h, self, s)
  {
    assert [] + [s] == [s];
  }

  function ChannelStats(a: Aggregate, c: Config): WindowStats {
    if a.samples == 0 then NO_STATS
    else
      var rate := a.failures as real / a.samples as real;
      WindowStats(a.samples, a.failures, rate, a.consecutiveFails, a.lastSuccessAt, a.lastSampleAt,
                  Gate1(a.samples, rate, a.consecutiveFails, a.lastSuccessAt, c))
  }

  ghost function HistoriesOf(ws: map<WindowKey, RingWindow>): Histories
    reads set k | k in ws :: ws[k]
  {
    map k | k in ws :: ws[k].history
  }

  /** `owner` says which key an object belongs to, so different keys share nothing. */
  ghost predicate OwnedBy(k: WindowKey, w: RingWindow, repr: set<object>, owner: map<object, WindowKey>) {
    w in repr && w.buf in repr && w in owner && owner[w] == k && w.buf in owner && owner[w.buf] == k
  }

  ghost predicate Owned(ws: map<WindowKey, RingWindow>, repr: set<object>, owner: map<object, WindowKey>)
    reads set k | k in ws :: ws[k]
    reads set k | k in ws :: ws[k].buf
  {
    forall k :: k in ws ==> OwnedBy(k, ws[k], repr, owner) && ws[k].Valid()
  }

  lemma OwnedFewer(ws: map<WindowKey, RingWindow>, fewer: map<WindowKey, RingWindow>, repr: set<object>,
                   owner: map<object, WindowKey>)
    requires Owned(ws, repr, owner) && forall k :: k in fewer ==> k in ws && fewer[k] == ws[k]
    ensures Owned(fewer, repr, owner)
    ensures forall k :: k in fewer ==> fewer[k] in repr && fewer[k].buf in repr
  {
  }

  lemma OwnedOneMore(ws: map<WindowKey, RingWindow>, k: WindowKey, w: RingWindow, more: map<WindowKey, RingWindow>,
                     repr: set<object>, owner: map<object, WindowKey>)
    requires Owned(ws, repr, owner) && OwnedBy(k, w, repr, owner) && w.Valid() && more == ws[k := w]
    ensures Owned(more, repr, owner)
    ensures forall l :: l in more ==> more[l] in repr && more[l].buf in repr
  {
  }

  lemma OwnedStill(ws: map<WindowKey, RingWindow>, repr: set<object>, owner: map<object, WindowKey>,
                   repr': set<object>, owner': map<object, WindowKey>)
    requires Owned(ws, repr, owner) && repr <= repr'
    requires forall o :: o in repr && o in owner ==> o in owner' && owner'[o] == owner[o]
    ensures Owned(ws, repr', owner')
    ensures forall l :: l in ws ==> ws[l] in repr' && ws[l].buf in repr'
  {
  }

  lemma HistoriesWith(ws: map<WindowKey, RingWindow>, k: WindowKey, w: RingWindow)
    ensures HistoriesOf(ws[k := w]) == HistoriesOf(ws)[k := w.history]
  {
  }

  lemma HistoriesWithout(ws: map<WindowKey, RingWindow>, k: WindowKey)
    ensures HistoriesOf(ws - {k}) == HistoriesOf(ws) - {k}
  {
  }

  lemma HistoriesOfOthers(ws: map<WindowKey, RingWindow>, channelId: int)
    ensures HistoriesOf(map k | k in ws && k.channelId != channelId :: ws[k])
            == map k | k in HistoriesOf(ws) && k.channelId != channelId :: HistoriesOf(ws)[k]
  {
  }

  lemma CreateThenRecord(h: Histories, k: WindowKey, s: Sample)
    ensures var created := if k in h then h else h[k := []];
            created[k := created[k] + [s]] == h[k := (if k in h then h[k] else []) + [s]]
  {
  }

  class WindowStore {
    var windows: map<WindowKey, RingWindow>
    var config: Config
    ghost var Repr: set<object>
    ghost var owner: map<object, WindowKey>

    ghost predicate Owns(k: WindowKey, w: RingWindow)
      reads this
    {
      OwnedBy(k, w, Repr, owner)
    }

    ghost predicate Valid()
      reads this, Repr
    {
      && InRange(config)
      && this !in Repr
      && (forall k :: k in windows ==> windows[k] in Repr && windows[k].buf in Repr)
      && Owned(windows, Repr, owner)
    }

    ghost predicate Good(k: WindowKey)
      requires k in windows
      reads this, Repr
    {
      Owns(k, windows[k]) && windows[k].Valid()
    }

    ghost function Model(): Histories
      requires Valid()
      reads this, Repr
    {
      HistoriesOf(windows)
    }

    constructor ()
      ensures Valid() && Model() == map[] && config == DEFAULT && Repr == {}
    {
      windows, config, Repr, owner := map[], DEFAULT, {}, map[];
    }

    method Configure(c: Config)
      requires Valid()
      modifies this`config
      ensures Valid() && config == Configured(c) && Model() == old(Model())
    {
      config := Configured(c);
    }

    method GetOrCreate(k: WindowKey) returns (w: RingWindow)
      requires Valid()
      modifies this`windows, this`Repr, this`owner
      ensures Valid() && fresh(Repr - old(Repr)) && old(Repr) <= Repr
      ensures k in windows && windows[k] == w
      ensures Model() == if k in old(Model()) then old(Model()) else old(Model())[k := []]
    {
      if k in windows {
        w := windows[k];
      } else {
        w := Create(k);
      }
    }

    method Create(k: WindowKey) returns (w: RingWindow)
      requires Valid() && k !in windows
      modifies this`windows, this`Repr, this`owner
      ensures Valid() && fresh(Repr - old(Repr)) && old(Repr) <= Repr
      ensures windows == old(windows)[k := w] && Model() == old(Model())[k := []]
    {
      w := new RingWindow();
      Adopt(k, w);
      Insert(k, w);
    }

    /** Takes a new window into the footprint. */
    ghost method Adopt(k: WindowKey, w: RingWindow)
      requires Valid() && {w, w.buf} !! Repr + {this}
      modifies this`Repr, this`owner
      ensures Valid() && Repr == old(Repr) + {w, w.buf} && Owns(k, w) && Model() == old(Model())
    {
      OwnedStill(windows, Repr, owner, Repr + {w, w.buf}, owner[w := k][w.buf := k]);
      owner, Repr := owner[w := k][w.buf := k], Repr + {w, w.buf};
    }

    method Keep(ws: map<WindowKey, RingWindow>)
      requires InRange(config) && this !in Repr && Owned(ws, Repr, owner)
      requires forall k :: k in ws ==> ws[k] in Repr && ws[k].buf in Repr
      modifies this`windows
      ensures Valid() && windows == ws && Model() == old(HistoriesOf(ws))
    {
      windows := ws;
    }

    method Insert(k: WindowKey, w: RingWindow)
      requires Valid() && k !in windows && Owns(k, w) && w.Valid()
      modifies this`windows
      ensures Valid() && windows == old(windows)[k := w] && Model() == old(Model())[k := w.history]
    {
      HistoriesWith(windows, k, w);
      OwnedOneMore(windows, k, w, windows[k := w], Repr, owner);
      Keep(windows[k := w]);
    }

    /** Recording in one window leaves every other window alone. */
    method RecordIn(k: WindowKey, success: bool, now: nat)
      requires Valid() && k in windows
      modifies windows[k], windows[k].buf
      ensures Valid()
      ensures Model() == old(Model())[k := old(Model())[k] + [Sample(now, success)]]
    {
      var w := windows[k];
      assert Good(k);
      forall l | l in windows && l != k ensures {windows[l], windows[l].buf} !! {w, w.buf} {
        assert Good(l);
      }
      w.Record(success, now);
      forall l | l in windows && l != k ensures windows[l].Valid() && windows[l].history == old(windows[l].history) {
      }
    }

    method Report(channelId: int, model: string, success: bool, now: nat)
      requires Valid()
      modifies this`windows, this`Repr, this`owner, Repr
      ensures Valid() && fresh(Repr - old(Repr)) && old(Repr) <= Repr
      ensures var k, h := WindowKey(channelId, model), old(Model());
              Model() == h[k := (if k in h then h[k] else []) + [Sample(now, success)]]
    {
      var k := WindowKey(channelId, model);
      CreateThenRecord(Model(), k, Sample(now, success));
      var w := GetOrCreate(k);
      RecordIn(k, success, now);
    }

    /** The channel's known windows except the reporting one, in any order. */
    method FanOut(self: WindowKey, s: Sample)
      requires Valid()
      modifies Repr
      ensures Valid()
      ensures Model() == PartlyReported(old(Model()), {self}, self.channelId, s)
    {
      var todo := windows.Keys;
      ghost var h := Model();
      NothingReported(h, todo + {self}, self.channelId, s);
      while todo != {}
        invariant Valid() && todo <= windows.Keys && windows == old(windows)
        invariant Model() == PartlyReported(h, todo + {self}, self.channelId, s)
        decreases todo
      {
        var k :| k in todo;
        PartlyReportedStep(h, todo, self, s, k);
        Forward(k, self, s);
        todo := todo - {k};
      }
      assert todo + {self} == {self};
    }

    method Forward(k: WindowKey, self: WindowKey, s: Sample)
      requires Valid() && k in windows
      modifies windows[k], windows[k].buf
      ensures Valid()
      ensures Model() == if k.channelId == self.channelId && k != self then old(Model())[k := old(Model())[k] + [s]]
                         else old(Model())
    {
      if k.channelId == self.channelId && k != self {
        RecordIn(k, s.success, s.at);
      }
    }

    method ReportChannel(channelId: int, model: string, success: bool, now: nat)
      requires Valid()
      modifies this`windows, this`Repr, this`owner, Repr
      ensures Valid() && fresh(Repr - old(Repr)) && old(Repr) <= Repr
      ensures Model() == ChannelReported(old(Model()), WindowKey(channelId, model), Sample(now, success))
    {
      FanOutCompletes(Model(), WindowKey(channelId, model), Sample(now, success));
      Report(channelId, model, success, now);
      FanOut(WindowKey(channelId, model), Sample(now, success));
    }

    method Evaluate(channelId: int, model: string, now: int) returns (st: WindowStats)
      requires Valid()
      ensures st == StatsFor(Model(), WindowKey(channelId, model), now, config)
    {
      var k := WindowKey(channelId, model);
      if k !in windows {
        return NO_STATS;
      }
      st := windows[k].Evaluate(now, config);
    }

    /** Whatever order the store is walked in, the answer is the channel's sums and maxima. */
    method EvaluateChannel(channelId: int, now: int) returns (st: WindowStats)
      requires Valid()
      ensures st == ChannelStats(ChannelAggregate(Model(), channelId, now, config), config)
    {
      ghost var h := Model();
      var total := Aggregate(0, 0, 0, 0, 0);
      var todo := windows.Keys;
      WalkStarts(h);
      while todo != {}
        invariant todo <= h.Keys && total == ChannelAggregate(Walked(h, todo), channelId, now, config)
        decreases todo
      {
        var k :| k in todo;
        WalkStep(h, todo, k, channelId, now, config);
        total := AddWindow(total, k, channelId, now);
        todo := todo - {k};
      }
      WalkEnds(h);
      st := Finish(total);
    }

    method AddWindow(total: Aggregate, k: WindowKey, channelId: int, now: int) returns (more: Aggregate)
      requires Valid() && k in windows
      ensures more == if k.channelId == channelId then Combine(total, StatsFor(Model(), k, now, config)) else total
    {
      more := total;
      if k.channelId == channelId {
        var sub := windows[k].Evaluate(now, config);
        EmptyAddsNothing(total, Considered(LastN(windows[k].history, PHYSICAL_CAP), now, config), config);
        if sub.samples != 0 {
          more := Combine(total, sub);
        }
      }
    }

    method Finish(total: Aggregate) returns (st: WindowStats)
      ensures st == ChannelStats(total, config)
    {
      if total.samples == 0 {
        return NO_STATS;
      }
      var rate := total.failures as real / total.samples as real;
      return WindowStats(total.samples, total.failures, rate, total.consecutiveFails, total.lastSuccessAt,
                         total.lastSampleAt,
                         Gate1(total.samples, rate, total.consecutiveFails, total.lastSuccessAt, config));
    }

    method ClearChannel(channelId: int)
      requires Valid()
      modifies this`windows
      ensures Valid() && Model() == map k | k in old(Model()) && k.channelId != channelId :: old(Model())[k]
    {
      HistoriesOfOthers(windows, channelId);
      var kept := map k | k in windows && k.channelId != channelId :: windows[k];
      OwnedFewer(windows, kept, Repr, owner);
      Keep(kept);
    }

    /** Removes the windows not reported to since `now - ttl`. */
    method Reap(now: int, ttl: int) returns (reaped: nat)
      requires Valid()
      modifies this`windows
      ensures Valid() && Model() == Reaped(old(Model()), now, ttl)
      ensures reaped == |old(Model())| - |Model()|
    {
      reaped := 0;
      if ttl > 0 {
        reaped := RemoveIdle(now - ttl);
      }
    }

    method RemoveIdle(cutoff: int) returns (reaped: nat)
      requires Valid()
      modifies this`windows
      ensures Valid() && Model() == Busy(old(Model()), {}, cutoff)
      ensures reaped + |Model()| == |old(Model())|
    {
      reaped := 0;
      var todo := windows.Keys;
      ghost var h := Model();
      while todo != {}
        invariant Valid() && todo <= windows.Keys
        invariant Model() == Busy(h, todo, cutoff)
        invariant reaped + |Model()| == |h|
        decreases todo
      {
        var k :| k in todo;
        BusyStep(h, todo, cutoff, k);
        var removed := RemoveIfIdle(k, cutoff);
        if removed {
          reaped := reaped + 1;
        }
        todo := todo - {k};
      }
    }

    method RemoveIfIdle(k: WindowKey, cutoff: int) returns (removed: bool)
      requires Valid() && k in windows
      modifies this`windows
      ensures Valid() && removed == Idle(old(Model())[k], cutoff)
      ensures Model() == if removed then old(Model()) - {k} else old(Model())
      ensures windows.Keys == if removed then old(windows.Keys) - {k} else old(windows.Keys)
      ensures |Model()| + (if removed then 1 else 0) == |old(Model())|
    {
      assert windows[k].Valid();
      removed := windows[k].lastSeen < cutoff;
      if removed {
        OneLess(Model(), k);
        Remove(k);
      }
    }

    method Remove(k: WindowKey)
      requires Valid() && k in windows
      modifies this`windows
      ensures Valid() && windows == old(windows) - {k} && Model() == old(Model()) - {k}
    {
      HistoriesWithout(windows, k);
      OwnedFewer(windows, windows - {k}, Repr, owner);
      Keep(windows - {k});
    }
  }

  /** The windows that are still to be looked at or were reported to since `cutoff`. */
  function Busy(h: Histories, todo: set<WindowKey>, cutoff: int): Histories {
    map k | k in h && (k in todo || !Idle(h[k], cutoff)) :: h[k]
  }

  predicate Idle(history: seq<Sample>, cutoff: int) {
    (if history == [] then 0 else history[|history| - 1].at) < cutoff
  }

  lemma OneLess(h: Histories, k: WindowKey)
    requires k in h
    ensures |h - {k}| + 1 == |h|
  {
    assert h.Keys == (h - {k}).Keys + {k};
  }

  lemma BusyStep(h: Histories, todo: set<WindowKey>, cutoff: int, k: WindowKey)
    requires k in todo && k in h
    ensures var before := Busy(h, todo, cutoff);
            Busy(h, todo - {k}, cutoff) == if Idle(h[k], cutoff) then before - {k} else before
  {
  }

  function Reaped(h: Histories, now: int, ttl: int): Histories {
    if ttl <= 0 then h else Busy(h, {}, now - ttl)
  }
}
