/** Site-channel history: hourly rows from the ledger, gathered per (account, group, model), summed and
    put into adaptive buckets. */
module SiteModelHistory {
  import opened HourlyLedger
  import opened Sorting
  import opened Wrappers

  datatype SiteKey = SiteKey(hour: int, accountId: int, groupKey: string, modelName: string)

  datatype Binding = Binding(accountId: int, groupKey: string)

  /** A finished attempt; `actualModel` is trimmed, `binding` is what the channel lookup found, `at` is Unix time. */
  datatype Attempt = Attempt(
    channelId: int, actualModel: string, binding: Option<Binding>, metrics: Metrics, at: nat, date: string)

  predicate Ignored(a: Attempt) {
    a.channelId == 0 || a.actualModel == "" || a.binding.None?
  }

  /** An attempt of a bound channel adds to one row; anything else is ignored. */
  function UpdateEntries(a: Attempt): seq<Entry<SiteKey>> {
    if Ignored(a) then []
    else
      var b := a.binding.value;
      [Entry(SiteKey(a.at / 3600, b.accountId, b.groupKey, a.actualModel), Row("", a.date, a.at, a.metrics))]
  }

  /** An attempt adds its metrics to one row, that of its hour, binding and model, if it names a channel and a model
      and the channel is bound; otherwise to none. */
  lemma AttemptCounts(a: Attempt)
    ensures a.channelId != 0 && a.actualModel != "" && a.binding.Some? ==>
              && |UpdateEntries(a)| == 1
              && var e := UpdateEntries(a)[0];
                 && e.key.hour * 3600 <= a.at < (e.key.hour + 1) * 3600
                 && e.key.accountId == a.binding.value.accountId && e.key.groupKey == a.binding.value.groupKey
                 && e.key.modelName == a.actualModel
                 && e.row.metrics == a.metrics && e.row.lastRequestAt == a.at && e.row.date == a.date
    ensures a.channelId == 0 || a.actualModel == "" || a.binding == None ==> UpdateEntries(a) == []
  {
  }

  datatype Series = Series(accountId: int, groupKey: string, modelName: string)

  predicate InSeries(k: SiteKey, series: Series, minHour: int) {
    && k.accountId == series.accountId && k.groupKey == series.groupKey
    && k.modelName == series.modelName && k.hour >= minHour
  }

  ghost function SeriesSelector(series: Series, minHour: int): SiteKey -> bool {
    (k: SiteKey) => InSeries(k, series, minHour)
  }

  datatype HourRow = HourRow(hour: int, success: int, failure: int, lastRequestAt: nat)

  ghost predicate HoursAscend(hours: seq<HourRow>) {
    forall i, j :: 0 <= i < j < |hours| ==> hours[i].hour < hours[j].hour
  }

  // ----- sums over a series -----

  function Successes(hours: seq<HourRow>): int {
    if hours == [] then 0 else Successes(hours[..|hours| - 1]) + hours[|hours| - 1].success
  }

  function Failures(hours: seq<HourRow>): int {
    if hours == [] then 0 else Failures(hours[..|hours| - 1]) + hours[|hours| - 1].failure
  }

  lemma {:induction false} SumsConcat(a: seq<HourRow>, b: seq<HourRow>)
    ensures Successes(a + b) == Successes(a) + Successes(b) && Failures(a + b) == Failures(a) + Failures(b)
  {
    if b == [] {
      assert a + b == a;
    } else {
      assert (a + b)[..|a + b| - 1] == a + b[..|b| - 1];
      SumsConcat(a, b[..|b| - 1]);
    }
  }

  lemma SumsOne(h: HourRow)
    ensures Successes([h]) == h.success && Failures([h]) == h.failure
  {
    assert [h][..0] == [];
  }

  lemma SumsInsert(a: seq<HourRow>, h: HourRow, b: seq<HourRow>)
    ensures Successes(a + [h] + b) == Successes(a + b) + h.success
    ensures Failures(a + [h] + b) == Failures(a + b) + h.failure
  {
    SumsConcat(a, b);
    SumsOne(h);
    SumsConcat(a, [h]);
    SumsConcat(a + [h], b);
  }

  function ByHour(): (HourRow, HourRow) -> bool {
    (x: HourRow, y: HourRow) => x.hour < y.hour
  }

  lemma AscendingIsSorted(hours: seq<HourRow>)
    ensures HoursAscend(hours) <==> Sorted(hours, ByHour())
  {
    assert forall i, j :: 0 <= i < j < |hours| ==> (ByHour()(hours[i], hours[j]) <==> hours[i].hour < hours[j].hour);
  }

  method InsertHour(hours: seq<HourRow>, h: HourRow) returns (r: seq<HourRow>)
    requires HoursAscend(hours) && forall x :: x in hours ==> x.hour != h.hour
    ensures HoursAscend(r) && forall x :: x in r <==> x == h || x in hours
    ensures Successes(r) == Successes(hours) + h.success && Failures(r) == Failures(hours) + h.failure
  {
    AscendingIsSorted(hours);
    HoursDecide(hours, h);
    r := InsertSorted(hours, h, ByHour());
    AscendingIsSorted(r);
    InsertedSums(hours, h, r);
  }

  lemma InsertedSums(hours: seq<HourRow>, h: HourRow, r: seq<HourRow>)
    requires exists i :: 0 <= i <= |hours| && r == hours[..i] + [h] + hours[i..]
    ensures forall x :: x in r <==> x == h || x in hours
    ensures Successes(r) == Successes(hours) + h.success && Failures(r) == Failures(hours) + h.failure
  {
    var i :| 0 <= i <= |hours| && r == hours[..i] + [h] + hours[i..];
    assert hours == hours[..i] + hours[i..];
    SumsInsert(hours[..i], h, hours[i..]);
  }

  lemma HoursDecide(hours: seq<HourRow>, h: HourRow)
    requires HoursAscend(hours) && forall x :: x in hours ==> x.hour != h.hour
    ensures Decides(ByHour(), Elements(hours) + {h})
  {
  }

  function KeyAt(series: Series, hour: int): SiteKey {
    SiteKey(hour, series.accountId, series.groupKey, series.modelName)
  }

  function HourOf(hour: int, row: Row): HourRow {
    HourRow(hour, row.metrics.requestSuccess, row.metrics.requestFailed, row.lastRequestAt)
  }

  predicate InMerged(merged: map<SiteKey, Row>, series: Series, minHour: int, h: HourRow) {
    h.hour >= minHour && KeyAt(series, h.hour) in merged && h == HourOf(h.hour, merged[KeyAt(series, h.hour)])
  }

  /** The rows of one series, one per hour, in hour order. */
  method GatherSeries(merged: map<SiteKey, Row>, series: Series, minHour: int) returns (hours: seq<HourRow>)
    ensures HoursAscend(hours)
    ensures forall h :: h in hours <==> InMerged(merged, series, minHour, h)
    ensures Successes(hours) as real == Total(merged, SeriesSelector(series, minHour), RequestSuccess)
    ensures Failures(hours) as real == Total(merged, SeriesSelector(series, minHour), RequestFailed)
  {
    hours := [];
    var todo := merged;
    ghost var sel := SeriesSelector(series, minHour);
    while todo != map[]
      invariant todo.Keys <= merged.Keys
      invariant HoursAscend(hours)
      invariant forall k :: k in todo ==> todo[k] == merged[k]
      invariant forall h :: h in hours <==> InMerged(merged, series, minHour, h) && KeyAt(series, h.hour) !in todo
      invariant Successes(hours) as real + Total(todo, sel, RequestSuccess) == Total(merged, sel, RequestSuccess)
      invariant Failures(hours) as real + Total(todo, sel, RequestFailed) == Total(merged, sel, RequestFailed)
      decreases todo.Keys
    {
      var k :| k in todo;
      TotalSplit(todo, sel, RequestSuccess, k);
      TotalSplit(todo, sel, RequestFailed, k);
      if InSeries(k, series, minHour) {
        assert k == KeyAt(series, k.hour);
        hours := InsertHour(hours, HourOf(k.hour, todo[k]));
      }
      todo := todo - {k};
    }
  }

  /** The hourly rows of one series from table and cache, merged, in hour order. */
  method LoadSeries(db: map<SiteKey, Row>, cache: map<SiteKey, Row>, series: Series, minHour: int)
    returns (hours: seq<HourRow>)
    ensures HoursAscend(hours)
    ensures forall h :: h in hours <==> InMerged(Merge(db, cache, Recorded), series, minHour, h)
    ensures var sel := SeriesSelector(series, minHour);
            Successes(hours) as real == Total(db, sel, RequestSuccess) + Total(cache, sel, RequestSuccess)
            && Failures(hours) as real == Total(db, sel, RequestFailed) + Total(cache, sel, RequestFailed)
  {
    var merged := MergeRows(db, cache, Recorded);
    MergeAddsTotals(db, cache, Recorded, SeriesSelector(series, minHour), RequestSuccess);
    MergeAddsTotals(db, cache, Recorded, SeriesSelector(series, minHour), RequestFailed);
    hours := GatherSeries(merged, series, minHour);
  }

  /** The row of an hour adds the table's and the cache's counts and has the newer of their times. */
  lemma MergedHour(db: map<SiteKey, Row>, cache: map<SiteKey, Row>, series: Series, minHour: int, h: HourRow)
    ensures InMerged(Merge(db, cache, Recorded), series, minHour, h) <==>
              var k := SiteKey(h.hour, series.accountId, series.groupKey, series.modelName);
              && h.hour >= minHour && (k in db || k in cache)
              && h.success == (if k in db then db[k].metrics.requestSuccess else 0)
                              + (if k in cache then cache[k].metrics.requestSuccess else 0)
              && h.failure == (if k in db then db[k].metrics.requestFailed else 0)
                              + (if k in cache then cache[k].metrics.requestFailed else 0)
              && (k in db ==> db[k].lastRequestAt <= h.lastRequestAt)
              && (k in cache ==> cache[k].lastRequestAt <= h.lastRequestAt)
              && ((k in db && db[k].lastRequestAt == h.lastRequestAt)
                  || (k in cache && cache[k].lastRequestAt == h.lastRequestAt))
  {
  }

  /** The steps of the site-model statistics are those of their ledger, each record carrying one attempt. */
  datatype Action = RecordAttempt(attempt: Attempt) | BeginFlush | EndFlush(ok: bool)

  function Live(actions: seq<Action>): State<SiteKey> {
    if actions == [] then Empty() else Next(Live(actions[..|actions| - 1]), StepOf(actions[|actions| - 1]))
  }

  function StepOf(a: Action): Step<SiteKey> {
    match a
    case RecordAttempt(attempt) => Record(UpdateEntries(attempt))
    case BeginFlush => Detach
    case EndFlush(ok) => Settle(ok)
  }

  predicate OfSeries(a: Attempt, series: Series, minHour: int) {
    !Ignored(a) && a.binding.value == Binding(series.accountId, series.groupKey) && a.actualModel == series.modelName
    && a.at >= minHour * 3600
  }

  /** What a series should count: its own attempts in the window, those that got past the flush lock. */
  ghost function AttemptTotal(actions: seq<Action>, series: Series, minHour: int, c: Counter): real {
    if actions == [] then 0.0
    else
      var prefix, last := actions[..|actions| - 1], actions[|actions| - 1];
      AttemptTotal(prefix, series, minHour, c)
      + (if last.RecordAttempt? && !Live(prefix).flushing && OfSeries(last.attempt, series, minHour)
         then Count(last.attempt.metrics, c) else 0.0)
  }

  lemma UpdateTotal(a: Attempt, series: Series, minHour: int, c: Counter)
    ensures EntryTotal(UpdateEntries(a), SeriesSelector(series, minHour), c)
            == if OfSeries(a, series, minHour) then Count(a.metrics, c) else 0.0
  {
    if !Ignored(a) {
      var sel, e := SeriesSelector(series, minHour), UpdateEntries(a)[0];
      assert [e][..0] == [];
      assert EntryTotal([e], sel, c) == Selected(e, sel, c);
      assert a.at / 3600 >= minHour <==> a.at >= minHour * 3600;
    }
  }

  lemma HistoryGrows(s: State<SiteKey>, a: Action, series: Series, minHour: int, c: Counter)
    ensures var sel := SeriesSelector(series, minHour);
            EntryTotal(Next(s, StepOf(a)).history, sel, c)
            == EntryTotal(s.history, sel, c)
               + (if a.RecordAttempt? && !s.flushing && OfSeries(a.attempt, series, minHour)
                   then Count(a.attempt.metrics, c) else 0.0)
  {
    if a.RecordAttempt? && !s.flushing {
      UpdateTotal(a.attempt, series, minHour, c);
      EntryTotalConcat(s.history, UpdateEntries(a.attempt), SeriesSelector(series, minHour), c);
    }
  }

  /** In every reachable state table, cache and snapshot hold exactly the series' own attempts; between
      flushes table and cache alone do, so that is what a loaded series counts. */
  lemma {:induction false} SeriesIsExact(actions: seq<Action>, series: Series, minHour: int, c: Counter)
    ensures var s := Live(actions);
            var sel := SeriesSelector(series, minHour);
            && Total(s.db, sel, c) + Total(s.cache, sel, c) + Total(s.snapshot, sel, c)
               == EntryTotal(s.history, sel, c) == AttemptTotal(actions, series, minHour, c)
            && (!s.flushing ==> s.snapshot == map[] && Total(s.snapshot, sel, c) == 0.0)
  {
    if actions != [] {
      var prefix, last := actions[..|actions| - 1], actions[|actions| - 1];
      var s := Live(prefix);
      SeriesIsExact(prefix, series, minHour, c);
      StepKeepsBalance(s, StepOf(last), SeriesSelector(series, minHour), c);
      HistoryGrows(s, last, series, minHour, c);
    }
  }

  // ----- bucketing -----

  /** Go's remainder keeps the sign of the dividend. */
  function GoMod(a: int, b: int): int
    requires b > 0
  {
    if a >= 0 then a % b else -((-a) % b)
  }

  function ChooseBucketSpan(spanSeconds: int): int {
    if spanSeconds <= 24 * 3600 then 3600
    else if spanSeconds <= 7 * 24 * 3600 then 6 * 3600
    else if spanSeconds <= 30 * 24 * 3600 then 24 * 3600
    else 7 * 24 * 3600
  }

  function BucketStart(hour: int, span: int): int
    requires span > 0
  {
    hour * 3600 - GoMod(hour * 3600, span)
  }

  lemma GoModBounds(a: int, b: int)
    requires b > 0
    ensures a >= 0 ==> 0 <= GoMod(a, b) < b
    ensures a < 0 ==> -b < GoMod(a, b) <= 0
    ensures GoMod(a, b) == 0 <==> a % b == 0
  {
    if a < 0 {
      assert a == b * (a / b) + a % b;
      assert -a == b * (-a / b) + (-a) % b;
      NegatedMultiple(a, b);
    }
  }

  lemma NegatedMultiple(a: int, b: int)
    requires b > 0
    ensures (-a) % b == 0 <==> a % b == 0
  {
    if a % b == 0 {
      assert -a == b * (-(a / b)) + 0;
      MultipleMod(-(a / b), b);
    }
    if (-a) % b == 0 {
      assert a == b * (-((-a) / b)) + 0;
      MultipleMod(-((-a) / b), b);
    }
  }

  lemma MultipleMod(q: int, b: int)
    requires b > 0
    ensures (b * q) % b == 0
  {
    var r := (b * q) % b;
    var d := (b * q) / b;
    assert b * q == b * d + r;
    assert r == b * (q - d);
    if q - d >= 1 {
      TimesMonotone(b, 1, q - d);
    } else if q - d <= -1 {
      TimesMonotone(b, q - d, -1);
    }
  }

  lemma TimesMonotone(b: int, x: int, y: int)
    requires b > 0 && x <= y
    ensures b * x <= b * y
  {
  }

  lemma RoundedIsMultiple(a: int, b: int)
    requires b > 0
    ensures (a - GoMod(a, b)) % b == 0
  {
    if a >= 0 {
      assert a - a % b == b * (a / b);
      MultipleMod(a / b, b);
    } else {
      assert a + (-a) % b == b * (-((-a) / b));
      MultipleMod(-((-a) / b), b);
    }
  }

  /** A bucket starts on a multiple of its span, and contains its hour exactly when the hour is not
      before 1970 or starts a bucket itself (before 1970 Go's remainder rounds the wrong way). */
  lemma BucketAligned(hour: int, span: int)
    requires span > 0
    ensures BucketStart(hour, span) % span == 0
    ensures BucketStart(hour, span) <= hour * 3600 < BucketStart(hour, span) + span
            <==> hour >= 0 || hour * 3600 % span == 0
    ensures hour >= 0 ==> hour * 3600 - span < BucketStart(hour, span) <= hour * 3600
    ensures hour < 0 ==> hour * 3600 <= BucketStart(hour, span) < hour * 3600 + span
  {
    RoundedIsMultiple(hour * 3600, span);
    GoModBounds(hour * 3600, span);
  }

  datatype Bucket = Bucket(time: int, success: int, failure: int)

  function InBucket(hours: seq<HourRow>, span: int, time: int): (r: Bucket)
    requires span > 0
  {
    if hours == [] then Bucket(time, 0, 0)
    else
      var rest, h := InBucket(hours[..|hours| - 1], span, time), hours[|hours| - 1];
      if BucketStart(h.hour, span) == time then Bucket(time, rest.success + h.success, rest.failure + h.failure)
      else rest
  }

  ghost predicate TimesAscend(buckets: seq<Bucket>) {
    forall i, j :: 0 <= i < j < |buckets| ==> buckets[i].time < buckets[j].time
  }

  /** Every bucket holds exactly the counts of its own hours. */
  ghost predicate OwnCounts(buckets: seq<Bucket>, hours: seq<HourRow>, span: int)
    requires span > 0
  {
    forall b :: b in buckets ==> b == InBucket(hours, span, b.time)
  }

  /** Every hour has its bucket. */
  ghost predicate CoverHours(buckets: seq<Bucket>, hours: seq<HourRow>, span: int)
    requires span > 0
  {
    forall h :: h in hours ==> BucketStart(h.hour, span) in Times(buckets)
  }

  /** No bucket is empty of hours. */
  ghost predicate OnHours(buckets: seq<Bucket>, hours: seq<HourRow>, span: int)
    requires span > 0
  {
    forall i :: 0 <= i < |buckets| ==> Occupied(hours, span, buckets[i].time)
  }

  ghost predicate Occupied(hours: seq<HourRow>, span: int, time: int)
    requires span > 0
  {
    exists h :: h in hours && time == BucketStart(h.hour, span)
  }

  function Times(buckets: seq<Bucket>): seq<int> {
    seq(|buckets|, i requires 0 <= i < |buckets| => buckets[i].time)
  }

  ghost predicate FilledSoFar(bucketMap: map<int, Bucket>, hours: seq<HourRow>, span: int, t: int)
    requires span > 0
  {
    && (t in bucketMap <==> Occupied(hours, span, t))
    && InBucket(hours, span, t) == if t in bucketMap then bucketMap[t] else Bucket(t, 0, 0)
  }

  method FillBuckets(hours: seq<HourRow>, span: int) returns (bucketMap: map<int, Bucket>)
    requires span > 0
    ensures forall t :: FilledSoFar(bucketMap, hours, span, t)
  {
    bucketMap := map[];
    for i := 0 to |hours|
      invariant forall t :: FilledSoFar(bucketMap, hours[..i], span, t)
    {
      var start := BucketStart(hours[i].hour, span);
      assert FilledSoFar(bucketMap, hours[..i], span, start);
      ghost var was, read := bucketMap, hours[..i + 1];
      var bucket := if start in bucketMap then bucketMap[start] else Bucket(start, 0, 0);
      bucketMap := bucketMap[start :=
        Bucket(start, bucket.success + hours[i].success, bucket.failure + hours[i].failure)];
      assert read == hours[..i] + [hours[i]] && read[..i] == hours[..i];
      forall t ensures FilledSoFar(bucketMap, read, span, t) {
        assert FilledSoFar(was, hours[..i], span, t);
        assert Occupied(read, span, t) <==> t == start || Occupied(hours[..i], span, t);
      }
    }
    assert hours[..|hours|] == hours;
  }

  lemma InBucketTime(hours: seq<HourRow>, span: int, t: int)
    requires span > 0
    ensures InBucket(hours, span, t).time == t
  {
  }

  /** Sorted, distinct buckets, one for each occupied time. */
  method BuildBuckets(hours: seq<HourRow>, span: int) returns (buckets: seq<Bucket>)
    requires span > 0
    ensures TimesAscend(buckets) && OwnCounts(buckets, hours, span)
    ensures CoverHours(buckets, hours, span) && OnHours(buckets, hours, span)
  {
    var bucketMap := FillBuckets(hours, span);
    forall t | t in bucketMap ensures bucketMap[t].time == t {
      assert FilledSoFar(bucketMap, hours, span, t);
      InBucketTime(hours, span, t);
    }
    buckets := SortBuckets(bucketMap);
    forall b | b in buckets ensures b == InBucket(hours, span, b.time) {
      assert FilledSoFar(bucketMap, hours, span, b.time);
    }
    forall i | 0 <= i < |buckets| ensures Occupied(hours, span, buckets[i].time) {
      assert buckets[i] in buckets;
      assert FilledSoFar(bucketMap, hours, span, buckets[i].time);
    }
    forall h | h in hours ensures BucketStart(h.hour, span) in Times(buckets) {
      assert Occupied(hours, span, BucketStart(h.hour, span));
      assert FilledSoFar(bucketMap, hours, span, BucketStart(h.hour, span));
      var i :| 0 <= i < |buckets| && buckets[i] == bucketMap[BucketStart(h.hour, span)];
      assert Times(buckets)[i] == BucketStart(h.hour, span);
    }
  }

  method SortBuckets(bucketMap: map<int, Bucket>) returns (buckets: seq<Bucket>)
    requires forall t :: t in bucketMap ==> bucketMap[t].time == t
    ensures TimesAscend(buckets)
    ensures forall b :: b in buckets <==> b.time in bucketMap && b == bucketMap[b.time]
  {
    var times := SortSet(bucketMap.Keys, (a: int, b: int) => a < b);
    assert forall t :: t in times <==> t in Elements(times);
    buckets := seq(|times|, i requires 0 <= i < |times| => assert times[i] in times; bucketMap[times[i]]);
    forall b ensures b in buckets <==> b.time in bucketMap && b == bucketMap[b.time] {
      if b.time in bucketMap && b == bucketMap[b.time] {
        var i :| 0 <= i < |times| && times[i] == b.time;
        assert buckets[i] == b;
      }
    }
    forall i, j | 0 <= i < j < |buckets| ensures buckets[i].time < buckets[j].time {
      assert times[i] in times && times[j] in times && times[i] < times[j];
    }
  }

  // ----- conservation and size -----

  function BucketSuccesses(buckets: seq<Bucket>): int {
    if buckets == [] then 0 else BucketSuccesses(buckets[..|buckets| - 1]) + buckets[|buckets| - 1].success
  }

  function BucketFailures(buckets: seq<Bucket>): int {
    if buckets == [] then 0 else BucketFailures(buckets[..|buckets| - 1]) + buckets[|buckets| - 1].failure
  }

  /** The given bucket times, filled from `hours`. */
  function Filled(times: seq<int>, hours: seq<HourRow>, span: int): seq<Bucket>
    requires span > 0
  {
    seq(|times|, i requires 0 <= i < |times| => InBucket(hours, span, times[i]))
  }

  lemma {:induction false} FillingAddsOnce(times: seq<int>, hours: seq<HourRow>, h: HourRow, span: int)
    requires span > 0 && forall i, j :: 0 <= i < j < |times| ==> times[i] < times[j]
    ensures var hit := BucketStart(h.hour, span) in times;
            var before, after := Filled(times, hours, span), Filled(times, hours + [h], span);
            BucketSuccesses(after) == BucketSuccesses(before) + (if hit then h.success else 0)
            && BucketFailures(after) == BucketFailures(before) + (if hit then h.failure else 0)
  {
    if times != [] {
      var prefix, last := times[..|times| - 1], times[|times| - 1];
      FillingAddsOnce(prefix, hours, h, span);
      FilledLast(times, hours, span);
      FilledLast(times, hours + [h], span);
      OneMoreHour(hours, h, span, last);
      assert times == prefix + [last];
    }
  }

  lemma FilledLast(times: seq<int>, hours: seq<HourRow>, span: int)
    requires span > 0 && times != []
    ensures Filled(times, hours, span)
            == Filled(times[..|times| - 1], hours, span) + [InBucket(hours, span, times[|times| - 1])]
    ensures BucketSuccesses(Filled(times, hours, span)) ==
            BucketSuccesses(Filled(times[..|times| - 1], hours, span))
                + InBucket(hours, span, times[|times| - 1]).success
    ensures BucketFailures(Filled(times, hours, span)) ==
            BucketFailures(Filled(times[..|times| - 1], hours, span))
                + InBucket(hours, span, times[|times| - 1]).failure
  {
    assert Filled(times, hours, span)[..|times| - 1] == Filled(times[..|times| - 1], hours, span);
  }

  lemma OneMoreHour(hours: seq<HourRow>, h: HourRow, span: int, time: int)
    requires span > 0
    ensures var was, now := InBucket(hours, span, time), InBucket(hours + [h], span, time);
            && now.success == was.success + (if BucketStart(h.hour, span) == time then h.success else 0)
            && now.failure == was.failure + (if BucketStart(h.hour, span) == time then h.failure else 0)
  {
    assert (hours + [h])[..|hours|] == hours;
  }

  lemma {:induction false} FilledSums(times: seq<int>, hours: seq<HourRow>, span: int)
    requires span > 0 && forall i, j :: 0 <= i < j < |times| ==> times[i] < times[j]
    requires forall h :: h in hours ==> BucketStart(h.hour, span) in times
    ensures BucketSuccesses(Filled(times, hours, span)) == Successes(hours)
    ensures BucketFailures(Filled(times, hours, span)) == Failures(hours)
  {
    if hours == [] {
      EmptySums(times, span);
    } else {
      var prefix, h := hours[..|hours| - 1], hours[|hours| - 1];
      assert hours == prefix + [h];
      FilledSums(times, prefix, span);
      FillingAddsOnce(times, prefix, h, span);
    }
  }

  lemma {:induction false} EmptySums(times: seq<int>, span: int)
    requires span > 0
    ensures BucketSuccesses(Filled(times, [], span)) == 0 && BucketFailures(Filled(times, [], span)) == 0
  {
    if times != [] {
      EmptySums(times[..|times| - 1], span);
      assert Filled(times, [], span)[..|times| - 1] == Filled(times[..|times| - 1], [], span);
    }
  }

  /** Bucketing conserves counts: every hour falls in exactly one bucket. */
  lemma BucketsConserve(hours: seq<HourRow>, span: int, buckets: seq<Bucket>)
    requires span > 0 && TimesAscend(buckets)
    requires OwnCounts(buckets, hours, span) && CoverHours(buckets, hours, span)
    ensures BucketSuccesses(buckets) == Successes(hours) && BucketFailures(buckets) == Failures(hours)
  {
    var times := Times(buckets);
    forall i | 0 <= i < |buckets| ensures Filled(times, hours, span)[i] == buckets[i] {
      assert buckets[i] in buckets;
    }
    assert Filled(times, hours, span) == buckets;
    FilledSums(times, hours, span);
  }

  lemma {:induction false} AlignedTimesSpread(buckets: seq<Bucket>, span: int)
    requires span > 0 && TimesAscend(buckets) && buckets != []
    requires forall i :: 0 <= i < |buckets| ==> buckets[i].time % span == 0
    ensures buckets[|buckets| - 1].time >= buckets[0].time + (|buckets| - 1) * span
  {
    if |buckets| > 1 {
      var prefix := buckets[..|buckets| - 1];
      AlignedTimesSpread(prefix, span);
      var a, b := buckets[|buckets| - 2], buckets[|buckets| - 1];
      MultiplesApart(a.time, b.time, span);
    }
  }

  lemma MultiplesApart(a: int, b: int, span: int)
    requires span > 0 && a % span == 0 && b % span == 0 && a < b
    ensures b >= a + span
  {
    var p, q := a / span, b / span;
    assert a == span * p && b == span * q;
    if q <= p {
      TimesMonotone(span, q, p);
    } else {
      TimesMonotone(span, p + 1, q);
    }
  }

  /** Where a bucket of a series between hours `low` and `high` can start. */
  predicate Within(time: int, low: int, high: int, span: int)
    requires span > 0
  {
    && time % span == 0
    && (if low >= 0 then low * 3600 - span < time else low * 3600 <= time)
    && (if high >= 0 then time <= high * 3600 else time < high * 3600 + span)
  }

  lemma BucketWithin(hour: int, low: int, high: int, span: int)
    requires span > 0 && low <= hour <= high
    ensures Within(BucketStart(hour, span), low, high, span)
  {
    BucketAligned(hour, span);
    RoundsTowardZero(hour * 3600, span);
  }

  lemma ModAtMost(a: nat, b: int)
    requires b > 0
    ensures a % b <= a
  {
    var q := a / b;
    assert a == b * q + a % b;
    TimesMonotone(b, 0, q);
  }

  lemma RoundsTowardZero(a: int, b: int)
    requires b > 0
    ensures if a >= 0 then a - GoMod(a, b) >= 0 else a - GoMod(a, b) <= 0
  {
    ModAtMost(if a >= 0 then a else -a, b);
  }

  lemma AllWithin(hours: seq<HourRow>, span: int, buckets: seq<Bucket>)
    requires span > 0 && HoursAscend(hours) && hours != [] && OnHours(buckets, hours, span)
    ensures forall i :: 0 <= i < |buckets| ==>
              Within(buckets[i].time, hours[0].hour, hours[|hours| - 1].hour, span)
  {
    forall i | 0 <= i < |buckets|
      ensures Within(buckets[i].time, hours[0].hour, hours[|hours| - 1].hour, span)
    {
      assert Occupied(hours, span, buckets[i].time);
      var h :| h in hours && buckets[i].time == BucketStart(h.hour, span);
      var j :| 0 <= j < |hours| && hours[j] == h;
      assert j > 0 ==> hours[0].hour < hours[j].hour;
      assert j < |hours| - 1 ==> hours[j].hour < hours[|hours| - 1].hour;
      BucketWithin(h.hour, hours[0].hour, hours[|hours| - 1].hour, span);
    }
  }

  /** Buckets are never further apart than their hours allow. */
  lemma BucketCount(buckets: seq<Bucket>, low: int, high: int, span: int, gaps: nat)
    requires span > 0 && low <= high && TimesAscend(buckets) && gaps == |buckets| - 1
    requires forall i :: 0 <= i < |buckets| ==> Within(buckets[i].time, low, high, span)
    ensures gaps * span < (high - low) * 3600 + span
  {
    AlignedTimesSpread(buckets, span);
    assert Within(buckets[0].time, low, high, span) && Within(buckets[gaps].time, low, high, span);
  }

  function SpanOf(hours: seq<HourRow>): int
    requires hours != []
  {
    ChooseBucketSpan((hours[|hours| - 1].hour - hours[0].hour + 1) * 3600)
  }

  lemma FewSpans(gaps: nat, width: int, span: int)
    requires 0 <= width < 2161 && span == ChooseBucketSpan((width + 1) * 3600)
    requires gaps * span < width * 3600 + span
    ensures gaps <= 30
  {
    if gaps > 30 {
      TimesMonotone(span, 31, gaps);
      assert false;
    }
  }

  /** A series inside the 90-day window, 2161 hours at most, never needs more than 31 buckets. */
  lemma AtMost31Buckets(hours: seq<HourRow>, buckets: seq<Bucket>)
    requires HoursAscend(hours) && hours != [] && hours[|hours| - 1].hour - hours[0].hour < 2161
    requires TimesAscend(buckets) && OnHours(buckets, hours, SpanOf(hours))
    ensures |buckets| <= 31
  {
    if buckets != [] {
      var gaps := |buckets| - 1;
      assert |hours| > 1 ==> hours[0].hour < hours[|hours| - 1].hour;
      AllWithin(hours, SpanOf(hours), buckets);
      BucketCount(buckets, hours[0].hour, hours[|hours| - 1].hour, SpanOf(hours), gaps);
      FewSpans(gaps, hours[|hours| - 1].hour - hours[0].hour, SpanOf(hours));
    }
  }

  datatype Summary = Summary(
    successCount: int, failureCount: int, lastRequestAt: Option<int>, bucketSpan: int, buckets: seq<Bucket>)

  function NewestAt(hours: seq<HourRow>): nat {
    if hours == [] then 0 else Max(NewestAt(hours[..|hours| - 1]), hours[|hours| - 1].lastRequestAt)
  }

  lemma {:induction false} NewestIsMaximum(hours: seq<HourRow>)
    ensures forall h :: h in hours ==> h.lastRequestAt <= NewestAt(hours)
    ensures NewestAt(hours) == 0 || exists h :: h in hours && h.lastRequestAt == NewestAt(hours)
  {
    if hours != [] {
      var prefix, last := hours[..|hours| - 1], hours[|hours| - 1];
      NewestIsMaximum(prefix);
      assert hours == prefix + [last];
      assert last in hours;
      if NewestAt(prefix) > last.lastRequestAt {
        var h :| h in prefix && h.lastRequestAt == NewestAt(prefix);
        assert h in hours;
      }
    }
  }

  method SummaryTotals(hours: seq<HourRow>) returns (success: int, failed: int, maxLast: nat)
    ensures success == Successes(hours) && failed == Failures(hours) && maxLast == NewestAt(hours)
  {
    success, failed, maxLast := 0, 0, 0;
    for i := 0 to |hours|
      invariant success == Successes(hours[..i]) && failed == Failures(hours[..i]) && maxLast == NewestAt(hours[..i])
    {
      assert hours[..i + 1][..i] == hours[..i];
      success := success + hours[i].success;
      failed := failed + hours[i].failure;
      if hours[i].lastRequestAt > maxLast {
        maxLast := hours[i].lastRequestAt;
      }
    }
    assert hours[..|hours|] == hours;
  }

  /** The summary of a sorted series: totals, the newest request time, and buckets adding up to the totals. */
  method BuildSummary(hours: seq<HourRow>) returns (summary: Summary)
    requires HoursAscend(hours)
    ensures summary.successCount == Successes(hours) && summary.failureCount == Failures(hours)
    ensures BucketSuccesses(summary.buckets) == summary.successCount
            && BucketFailures(summary.buckets) == summary.failureCount
    ensures hours == [] <==> summary.lastRequestAt == None
    ensures hours != [] ==>
              var last := summary.lastRequestAt.value;
              if exists h :: h in hours && h.lastRequestAt > 0 then
                (forall h :: h in hours ==> h.lastRequestAt <= last)
                && exists h :: h in hours && h.lastRequestAt == last
              else last == (hours[|hours| - 1].hour + 1) * 3600 - 1
    ensures hours != [] ==>
              && TimesAscend(summary.buckets) && summary.bucketSpan == SpanOf(hours)
              && OwnCounts(summary.buckets, hours, SpanOf(hours)) && CoverHours(summary.buckets, hours, SpanOf(hours))
    ensures hours != [] && hours[|hours| - 1].hour - hours[0].hour < 2161 ==> |summary.buckets| <= 31
    ensures hours != [] ==>
              var span := hours[|hours| - 1].hour - hours[0].hour + 1;
              summary.bucketSpan == if span <= 24 then 3600
                                    else if span <= 168 then 21_600
                                    else if span <= 720 then 86_400
                                    else 604_800
  {
    if |hours| == 0 {
      return Summary(0, 0, None, 0, []);
    }
    var success, failed, maxLast := SummaryTotals(hours);
    NewestIsMaximum(hours);
    var latestHour := hours[|hours| - 1].hour;
    var last: int := if maxLast > 0 then maxLast else (latestHour + 1) * 3600 - 1;
    var span := ChooseBucketSpan((latestHour - hours[0].hour + 1) * 3600);
    var buckets := BuildBuckets(hours, span);
    BucketsConserve(hours, span, buckets);
    if latestHour - hours[0].hour < 2161 {
      AtMost31Buckets(hours, buckets);
    }
    return Summary(success, failed, Some(last), span, buckets);
  }
}
