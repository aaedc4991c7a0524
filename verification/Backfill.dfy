/** The one-time projection of stored relay logs into the leaderboard, read page by page with a
    (time, id) cursor. The table is given as the sequence of its rows ordered by (time, id). */
module Backfill {
  import opened Selecting
  import opened RelayLogs
  import opened HourlyLedger
  import opened Leaderboard
  import opened Text

  const LOOKBACK := 24 * 3600

  ghost predicate Ordered(table: seq<RelayLog>) {
    forall i, j :: 0 <= i < j < |table| ==> KeyLess(KeyOf(table[i]), KeyOf(table[j]))
  }

  /** When the request finished: start plus whole seconds of its duration. */
  function EventAt(row: RelayLog): int {
    if row.useTime <= 0 then row.time else row.time + row.useTime / 1000
  }

  function QueryStart(scanStart: int): int {
    if scanStart - LOOKBACK < 0 then 0 else scanStart - LOOKBACK
  }

  // ----- attribution of one log -----

  function Normalize(value: string, fallback: string): string {
    var trimmed := TrimSpace(value);
    if trimmed == "" then fallback else trimmed
  }

  predicate Attempted(a: ChannelAttempt) {
    a.status == AttemptSuccess || a.status == AttemptFailed
  }

  /** The last real attempt that named a model, else the requested model. */
  function LastAttemptModel(attempts: seq<ChannelAttempt>, requestModel: string): string {
    if attempts == [] then requestModel
    else
      var last := attempts[|attempts| - 1];
      if Attempted(last) && Normalize(last.modelName, "") != "" then Normalize(last.modelName, "")
      else LastAttemptModel(attempts[..|attempts| - 1], requestModel)
  }

  predicate NamesModel(a: ChannelAttempt) {
    Attempted(a) && Normalize(a.modelName, "") != ""
  }

  /** Skipped, capacity and rate-limit attempts never name the model; of the others the last that has a
      name does, at position `at`, and the requested model stands in when there is none. */
  lemma {:induction false} LastAttemptModelMeans(attempts: seq<ChannelAttempt>, requestModel: string) returns (at: int)
    ensures -1 <= at < |attempts| && (at >= 0 ==> NamesModel(attempts[at]))
    ensures forall j :: at < j < |attempts| ==> !NamesModel(attempts[j])
    ensures LastAttemptModel(attempts, requestModel)
            == if at < 0 then requestModel else Normalize(attempts[at].modelName, "")
  {
    at := |attempts| - 1;
    if attempts != [] && !NamesModel(attempts[at]) {
      at := LastAttemptModelMeans(attempts[..at], requestModel);
    }
  }

  function FinalModel(row: RelayLog, requestModel: string): string {
    var actual := Normalize(row.actualModelName, "");
    if actual != "" then actual else LastAttemptModel(row.attempts, requestModel)
  }

  /** `labelOf(id)` is the text "channel-" followed by the id. */
  function LastAttemptChannel(attempts: seq<ChannelAttempt>, labelOf: int -> string): (int, string) {
    if attempts == [] then (0, "unassigned")
    else
      var last := attempts[|attempts| - 1];
      if Attempted(last) then (last.channelId, Normalize(last.channelName, labelOf(last.channelId)))
      else LastAttemptChannel(attempts[..|attempts| - 1], labelOf)
  }

  /** The channel is that of the last attempt really made, at position `at`, or 0 when there was none. */
  lemma {:induction false} LastAttemptChannelMeans(attempts: seq<ChannelAttempt>, labelOf: int -> string)
    returns (at: int)
    ensures -1 <= at < |attempts| && (at >= 0 ==> Attempted(attempts[at]))
    ensures forall j :: at < j < |attempts| ==> !Attempted(attempts[j])
    ensures LastAttemptChannel(attempts, labelOf) ==
            if at < 0 then (0, "unassigned")
            else (attempts[at].channelId, Normalize(attempts[at].channelName, labelOf(attempts[at].channelId)))
  {
    at := |attempts| - 1;
    if attempts != [] && !Attempted(attempts[at]) {
      at := LastAttemptChannelMeans(attempts[..at], labelOf);
    }
  }

  function FinalChannel(row: RelayLog, labelOf: int -> string): (int, string) {
    if row.channelId != 0 || TrimSpace(row.channelName) != "" then
      (row.channelId, Normalize(row.channelName, labelOf(row.channelId)))
    else LastAttemptChannel(row.attempts, labelOf)
  }

  /** Only the total cost is stored, so it is kept as input cost. */
  function RowMetrics(row: RelayLog): Metrics {
    Metrics(row.inputTokens, row.outputTokens, row.cost, 0.0, row.useTime,
            if row.success then 1 else 0, if row.success then 0 else 1)
  }

  /** How texts are rendered: the label of a channel and the date of a time. */
  datatype Rendering = Rendering(labelOf: int -> string, dateOf: int -> string)

  /** The event of one scanned log; scanned logs do not start before 1970. */
  function EventOf(row: RelayLog, r: Rendering): Event {
    var requestModel := Normalize(row.requestModelName, "unknown");
    var (channelId, channelName) := FinalChannel(row, r.labelOf);
    Event(requestModel, FinalModel(row, requestModel), channelId, channelName,
          RowMetrics(row), if EventAt(row) < 0 then 0 else EventAt(row), r.dateOf(EventAt(row)))
  }

  // ----- the scan -----

  predicate InQuery(row: RelayLog, queryStart: int, cutoff: int, lastTime: int, lastId: int) {
    queryStart <= row.time < cutoff && KeyLess(Cursor(lastTime, lastId), KeyOf(row))
  }

  function Scanned(queryStart: int, cutoff: int, lastTime: int, lastId: int): RelayLog -> bool {
    (row: RelayLog) => InQuery(row, queryStart, cutoff, lastTime, lastId)
  }

  /** The rows a scan still has to read, behind the cursor. */
  function After(table: seq<RelayLog>, queryStart: int, cutoff: int, lastTime: int, lastId: int): seq<RelayLog> {
    Select(table, Scanned(queryStart, cutoff, lastTime, lastId))
  }

  lemma {:induction false} AfterSubset(table: seq<RelayLog>, queryStart: int, cutoff: int, lastTime: int, lastId: int)
    requires Ordered(table)
    ensures var rows := After(table, queryStart, cutoff, lastTime, lastId);
            Ordered(rows)
            && forall row :: row in rows <==> row in table && InQuery(row, queryStart, cutoff, lastTime, lastId)
  {
    if table != [] {
      AfterSubset(table[1..], queryStart, cutoff, lastTime, lastId);
      var rest := After(table[1..], queryStart, cutoff, lastTime, lastId);
      assert table == [table[0]] + table[1..];
      forall row | row in rest ensures KeyLess(KeyOf(table[0]), KeyOf(row)) {
        var i :| 0 <= i < |table[1..]| && table[1..][i] == row;
        assert table[i + 1] == row;
      }
    }
  }

  /** Moving the cursor to the n-th row in scan order leaves exactly the rows behind it. */
  lemma {:induction false} CursorSkips(table: seq<RelayLog>, queryStart: int, cutoff: int, lastTime: int, lastId: int,
                                       n: nat)
    requires Ordered(table)
    requires 0 < n <= |After(table, queryStart, cutoff, lastTime, lastId)|
    ensures var rows := After(table, queryStart, cutoff, lastTime, lastId);
            After(table, queryStart, cutoff, rows[n - 1].time, rows[n - 1].id) == rows[n..]
  {
    var rows := After(table, queryStart, cutoff, lastTime, lastId);
    var rest := table[1..];
    if InQuery(table[0], queryStart, cutoff, lastTime, lastId) {
      assert rows == [table[0]] + After(rest, queryStart, cutoff, lastTime, lastId);
      if n == 1 {
        AllAfterFirst(table, queryStart, cutoff, lastTime, lastId);
      } else {
        CursorSkips(rest, queryStart, cutoff, lastTime, lastId, n - 1);
        assert After(rest, queryStart, cutoff, lastTime, lastId)[n - 1..] == rows[n..];
        FirstSkipped(table, queryStart, cutoff, lastTime, lastId, n - 1);
      }
    } else {
      CursorSkips(rest, queryStart, cutoff, lastTime, lastId, n);
      FirstSkipped(table, queryStart, cutoff, lastTime, lastId, n);
    }
  }

  /** The first row is not read again after a later one. */
  lemma FirstSkipped(table: seq<RelayLog>, queryStart: int, cutoff: int, lastTime: int, lastId: int, n: nat)
    requires Ordered(table) && table != []
    requires 0 < n <= |After(table[1..], queryStart, cutoff, lastTime, lastId)|
    ensures var pivot := After(table[1..], queryStart, cutoff, lastTime, lastId)[n - 1];
            After(table, queryStart, cutoff, pivot.time, pivot.id)
                == After(table[1..], queryStart, cutoff, pivot.time, pivot.id)
  {
    AfterSubset(table[1..], queryStart, cutoff, lastTime, lastId);
    var rows := After(table[1..], queryStart, cutoff, lastTime, lastId);
    assert rows[n - 1] in rows;
    var i :| 0 <= i < |table[1..]| && table[1..][i] == rows[n - 1];
    assert table[i + 1] == rows[n - 1];
  }

  lemma AllAfterFirst(table: seq<RelayLog>, queryStart: int, cutoff: int, lastTime: int, lastId: int)
    requires Ordered(table) && table != [] && InQuery(table[0], queryStart, cutoff, lastTime, lastId)
    ensures After(table, queryStart, cutoff, table[0].time, table[0].id)
            == After(table[1..], queryStart, cutoff, lastTime, lastId)
  {
    forall row | row in table[1..]
      ensures InQuery(row, queryStart, cutoff, table[0].time, table[0].id)
              <==> InQuery(row, queryStart, cutoff, lastTime, lastId)
    {
      var i :| 0 <= i < |table[1..]| && table[1..][i] == row;
      assert table[i + 1] == row;
    }
    SelectAlike(table[1..], Scanned(queryStart, cutoff, table[0].time, table[0].id),
                Scanned(queryStart, cutoff, lastTime, lastId));
  }

  // ----- the projection -----

  predicate Finished(row: RelayLog, scanStart: int, cutoff: int) {
    scanStart <= EventAt(row) < cutoff
  }

  function Attributed(r: Rendering): RelayLog -> Event {
    (row: RelayLog) => EventOf(row, r)
  }

  /** The events a scan of `rows` counts, in scan order. */
  function CountedEvents(rows: seq<RelayLog>, scanStart: int, cutoff: int, eventOf: RelayLog -> Event): seq<Event> {
    if rows == [] then []
    else
      var last := rows[|rows| - 1];
      CountedEvents(rows[..|rows| - 1], scanStart, cutoff, eventOf)
      + (if Finished(last, scanStart, cutoff) then [eventOf(last)] else [])
  }

  /** One fold over the whole table: what any paging must compute. */
  function Projection(table: seq<RelayLog>, scanStart: int, cutoff: int, r: Rendering): map<LeaderboardKey, Row>
  {
    var queryStart := QueryStart(scanStart);
    Folded(After(table, queryStart, cutoff, queryStart, 0), scanStart, cutoff, Attributed(r))
  }

  lemma RecordNext(before: seq<Entry<LeaderboardKey>>, entries: seq<Entry<LeaderboardKey>>, i: nat)
    requires i < |entries|
    ensures RecordAll(map[], before + entries[..i + 1])
            == RecordOne(RecordAll(map[], before + entries[..i]), entries[i])
  {
    var more := before + entries[..i + 1];
    assert more[..|more| - 1] == before + entries[..i];
  }

  method AddBackfillLog(aggregated: map<LeaderboardKey, Row>, e: Event, ghost events: seq<Event>)
    returns (updated: map<LeaderboardKey, Row>)
    requires aggregated == RecordAll(map[], AllEntries(events))
    ensures updated == RecordAll(map[], AllEntries(events + [e]))
  {
    var entries := EntriesOf(e);
    ghost var before := AllEntries(events);
    updated := aggregated;
    assert before + entries[..0] == before;
    for i := 0 to |entries|
      invariant updated == RecordAll(map[], before + entries[..i])
    {
      RecordNext(before, entries, i);
      updated := RecordOne(updated, entries[i]);
    }
    assert entries[..|entries|] == entries;
    AllEntriesAppend(events, e);
  }

  lemma AllEntriesAppend(events: seq<Event>, e: Event)
    ensures AllEntries(events + [e]) == AllEntries(events) + EntriesOf(e)
  {
    assert (events + [e])[..|events|] == events;
  }

  /** The projection of the scanned rows. */
  function Folded(rows: seq<RelayLog>, scanStart: int, cutoff: int, eventOf: RelayLog -> Event):
    map<LeaderboardKey, Row>
  {
    RecordAll(map[], AllEntries(CountedEvents(rows, scanStart, cutoff, eventOf)))
  }

  lemma CountNext(before: seq<RelayLog>, batch: seq<RelayLog>, i: nat, scanStart: int, cutoff: int,
                  eventOf: RelayLog -> Event)
    requires i < |batch|
    ensures CountedEvents(before + batch[..i + 1], scanStart, cutoff, eventOf)
            == CountedEvents(before + batch[..i], scanStart, cutoff, eventOf)
               + (if Finished(batch[i], scanStart, cutoff) then [eventOf(batch[i])] else [])
    ensures !Finished(batch[i], scanStart, cutoff) ==>
              CountedEvents(before + batch[..i + 1], scanStart, cutoff, eventOf)
                  == CountedEvents(before + batch[..i], scanStart, cutoff, eventOf)
  {
    var more := before + batch[..i + 1];
    assert more[..|more| - 1] == before + batch[..i] && more[|more| - 1] == batch[i];
  }

  method AddBatch(aggregated: map<LeaderboardKey, Row>, batch: seq<RelayLog>, scanStart: int, cutoff: int,
                  eventOf: RelayLog -> Event,
                  ghost before: seq<RelayLog>)
    returns (updated: map<LeaderboardKey, Row>)
    requires aggregated == Folded(before, scanStart, cutoff, eventOf)
    ensures updated == Folded(before + batch, scanStart, cutoff, eventOf)
  {
    updated := aggregated;
    assert before + batch[..0] == before;
    for i := 0 to |batch|
      invariant updated == Folded(before + batch[..i], scanStart, cutoff, eventOf)
    {
      CountNext(before, batch, i, scanStart, cutoff, eventOf);
      if Finished(batch[i], scanStart, cutoff) {
        updated := AddBackfillLog(updated, eventOf(batch[i]),
                                  CountedEvents(before + batch[..i], scanStart, cutoff, eventOf));
      }
    }
    assert before + batch[..|batch|] == before + batch;
  }

  /** Whatever the page size, the paged scan ends and computes the one fold over the whole table. */
  method Collect(table: seq<RelayLog>, scanStart: int, cutoff: int, pageSize: nat, r: Rendering)
    returns (aggregated: map<LeaderboardKey, Row>)
    requires Ordered(table) && pageSize > 0
    ensures aggregated == Projection(table, scanStart, cutoff, r)
  {
    var queryStart, eventOf := QueryStart(scanStart), Attributed(r);
    var lastTime, lastId := queryStart, 0;
    aggregated := map[];
    ghost var done, left := [], After(table, queryStart, cutoff, queryStart, 0);
    ghost var rows := left;
    while true
      invariant ScannedTo(table, queryStart, cutoff, lastTime, lastId, rows, done, left)
      invariant aggregated == Folded(done, scanStart, cutoff, eventOf)
      decreases |left|
    {
      var batch := LoadPage(table, queryStart, cutoff, lastTime, lastId, pageSize);
      PageScanned(table, queryStart, cutoff, lastTime, lastId, pageSize, rows, done, left, batch);
      if |batch| == 0 {
        break;
      }
      lastTime, lastId := batch[|batch| - 1].time, batch[|batch| - 1].id;
      aggregated := AddBatch(aggregated, batch, scanStart, cutoff, eventOf, done);
      done, left := done + batch, left[|batch|..];
      if |batch| < pageSize {
        break;
      }
    }
    assert done == rows;
  }

  /** Of the scan's rows `done` are counted, and `left` are behind the cursor. */
  ghost predicate ScannedTo(table: seq<RelayLog>, queryStart: int, cutoff: int, lastTime: int, lastId: int,
                            rows: seq<RelayLog>, done: seq<RelayLog>, left: seq<RelayLog>)
  {
    done + left == rows && After(table, queryStart, cutoff, lastTime, lastId) == left
  }

  lemma PageScanned(table: seq<RelayLog>, queryStart: int, cutoff: int, lastTime: int, lastId: int, pageSize: nat,
                    rows: seq<RelayLog>, done: seq<RelayLog>, left: seq<RelayLog>, batch: seq<RelayLog>)
    requires Ordered(table) && pageSize > 0 && ScannedTo(table, queryStart, cutoff, lastTime, lastId, rows, done, left)
    requires batch == LoadPage(table, queryStart, cutoff, lastTime, lastId, pageSize)
    ensures |batch| <= |left| && (|batch| < pageSize ==> done + batch == rows)
    ensures batch == [] ==> done == rows
    ensures batch != [] ==>
              ScannedTo(table, queryStart, cutoff, batch[|batch| - 1].time, batch[|batch| - 1].id,
                        rows, done + batch, left[|batch|..])
  {
    assert done + batch + left[|batch|..] == done + left;
    if batch != [] {
      Advance(table, queryStart, cutoff, lastTime, lastId, batch);
    }
  }

  /** One page of the keyset query. */
  function LoadPage(table: seq<RelayLog>, queryStart: int, cutoff: int, lastTime: int, lastId: int,
                    pageSize: nat)
    : (batch: seq<RelayLog>)
    ensures var rest := After(table, queryStart, cutoff, lastTime, lastId);
            batch <= rest && |batch| <= pageSize && (|batch| < pageSize ==> batch == rest)
  {
    var rest := After(table, queryStart, cutoff, lastTime, lastId);
    if |rest| > pageSize then rest[..pageSize] else rest
  }

  lemma Advance(table: seq<RelayLog>, queryStart: int, cutoff: int, lastTime: int, lastId: int, batch: seq<RelayLog>)
    requires Ordered(table) && batch != [] && batch <= After(table, queryStart, cutoff, lastTime, lastId)
    ensures var last := batch[|batch| - 1];
            After(table, queryStart, cutoff, last.time, last.id)
            == After(table, queryStart, cutoff, lastTime, lastId)[|batch|..]
  {
    CursorSkips(table, queryStart, cutoff, lastTime, lastId, |batch|);
  }

  /** The sum over all counted logs, each taken once. */
  ghost function LogTotal(rows: seq<RelayLog>, scanStart: int, cutoff: int, c: Counter): real {
    if rows == [] then 0.0
    else
      var last := rows[|rows| - 1];
      LogTotal(rows[..|rows| - 1], scanStart, cutoff, c)
      + (if Finished(last, scanStart, cutoff) then Count(RowMetrics(last), c) else 0.0)
  }

  lemma OneMoreEvent(events: seq<Event>, e: Event, c: Counter)
    ensures AllEventsTotal(events + [e], c) == AllEventsTotal(events, c) + Count(e.metrics, c)
  {
    assert (events + [e])[..|events|] == events;
  }

  lemma {:induction false} EventsSumToLogs(rows: seq<RelayLog>, scanStart: int, cutoff: int, eventOf: RelayLog -> Event,
                                           c: Counter)
    requires forall row :: eventOf(row).metrics == RowMetrics(row)
    ensures AllEventsTotal(CountedEvents(rows, scanStart, cutoff, eventOf), c) == LogTotal(rows, scanStart, cutoff, c)
  {
    if rows != [] {
      var prefix, last := rows[..|rows| - 1], rows[|rows| - 1];
      EventsSumToLogs(prefix, scanStart, cutoff, eventOf, c);
      var events, e := CountedEvents(prefix, scanStart, cutoff, eventOf), eventOf(last);
      if Finished(last, scanStart, cutoff) {
        assert CountedEvents(rows, scanStart, cutoff, eventOf) == events + [e];
        OneMoreEvent(events, e, c);
      } else {
        assert CountedEvents(rows, scanStart, cutoff, eventOf) == events;
      }
    }
  }

  /** Every log the scan counts is counted exactly once in each dimension. */
  lemma EachDimensionCountsOnce(table: seq<RelayLog>, scanStart: int, cutoff: int, r: Rendering, dimension: Dimension,
                                c: Counter)
    requires Ordered(table)
    ensures var queryStart := QueryStart(scanStart);
            Total(Projection(table, scanStart, cutoff, r), DimensionSelector(dimension), c)
            == LogTotal(After(table, queryStart, cutoff, queryStart, 0), scanStart, cutoff, c)
  {
    var queryStart := QueryStart(scanStart);
    AfterSubset(table, queryStart, cutoff, queryStart, 0);
    var rows := After(table, queryStart, cutoff, queryStart, 0);
    var eventOf := Attributed(r);
    var events := CountedEvents(rows, scanStart, cutoff, eventOf);
    RecordAllAddsToTotal(map[], AllEntries(events), DimensionSelector(dimension), c);
    DimensionSum(events, dimension, c);
    EventsSumToLogs(rows, scanStart, cutoff, eventOf, c);
  }

  /** A log finishing in the window is scanned exactly when it started at or after the query start; with
      a positive id a duration of at most 24 hours is always enough, a longer one only if it still
      started late enough. */
  lemma ScannedWhen(table: seq<RelayLog>, scanStart: int, cutoff: int, row: RelayLog)
    requires Ordered(table) && row in table && row.id > 0 && Finished(row, scanStart, cutoff)
    ensures var queryStart := QueryStart(scanStart);
            && (row in After(table, queryStart, cutoff, queryStart, 0) <==> row.time >= queryStart)
            && (row.time >= 0 && EventAt(row) - row.time <= LOOKBACK ==> row.time >= queryStart)
  {
    var queryStart := QueryStart(scanStart);
    AfterSubset(table, queryStart, cutoff, queryStart, 0);
  }

  /** A request that ran one second longer than the lookback and finished inside the window is lost. */
  lemma LongRequestIsLost(scanStart: int, row: RelayLog)
    requires scanStart > LOOKBACK && row.id > 0
    requires row.time == scanStart - LOOKBACK - 1 && row.useTime == (LOOKBACK + 1) * 1000
    ensures Finished(row, scanStart, scanStart + 1)
    ensures After([row], QueryStart(scanStart), scanStart + 1, QueryStart(scanStart), 0) == []
  {
    SelectOne(row, Scanned(QueryStart(scanStart), scanStart + 1, QueryStart(scanStart), 0));
  }
}
