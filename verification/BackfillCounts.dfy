/** What the backfilled leaderboard rows say, in the fields of the logs: which logs are in them, what each counter
    is, and which item a log counts for. */
module BackfillCounts {
  import opened Selecting
  import opened Text
  import opened RelayLogs
  import opened HourlyLedger
  import opened Leaderboard
  import opened Backfill

  // ----- which logs -----

  /** When the request ended; `useTime` is in milliseconds. */
  function EndOf(row: RelayLog): int {
    row.time + (if row.useTime > 0 then row.useTime / 1000 else 0)
  }

  /** The log started at most a day before the window, not before 1970, and ended inside it. */
  predicate Counts(row: RelayLog, scanStart: int, cutoff: int) {
    var earliest := if scanStart < 86400 then 0 else scanStart - 86400;
    && earliest <= row.time < cutoff && (row.time > earliest || row.id > 0)
    && scanStart <= EndOf(row) < cutoff
  }

  function Counting(scanStart: int, cutoff: int): RelayLog -> bool {
    (row: RelayLog) => Counts(row, scanStart, cutoff)
  }

  function Finishing(scanStart: int, cutoff: int): RelayLog -> bool {
    (row: RelayLog) => Finished(row, scanStart, cutoff)
  }

  function CountedLogs(table: seq<RelayLog>, scanStart: int, cutoff: int): seq<RelayLog> {
    Select(table, Counting(scanStart, cutoff))
  }

  lemma ScannedAreCounted(table: seq<RelayLog>, scanStart: int, cutoff: int)
    ensures var queryStart := QueryStart(scanStart);
            Select(After(table, queryStart, cutoff, queryStart, 0), Finishing(scanStart, cutoff))
            == CountedLogs(table, scanStart, cutoff)
  {
    var queryStart := QueryStart(scanStart);
    SelectTwice(table, Scanned(queryStart, cutoff, queryStart, 0), Finishing(scanStart, cutoff),
                Counting(scanStart, cutoff));
  }

  // ----- sums over logs -----

  function Sum(rows: seq<RelayLog>, value: RelayLog -> real): real {
    if rows == [] then 0.0 else Sum(rows[..|rows| - 1], value) + value(rows[|rows| - 1])
  }

  lemma SumAppend(rows: seq<RelayLog>, row: RelayLog, value: RelayLog -> real)
    ensures Sum(rows + [row], value) == Sum(rows, value) + value(row)
  {
    assert (rows + [row])[..|rows|] == rows;
  }

  lemma {:induction false} SumAlike(rows: seq<RelayLog>, f: RelayLog -> real, g: RelayLog -> real)
    requires forall row :: f(row) == g(row)
    ensures Sum(rows, f) == Sum(rows, g)
  {
    if rows != [] {
      SumAlike(rows[..|rows| - 1], f, g);
    }
  }

  lemma SumSelectAppend(rows: seq<RelayLog>, row: RelayLog, keep: RelayLog -> bool, value: RelayLog -> real)
    ensures Sum(Select(rows + [row], keep), value)
            == Sum(Select(rows, keep), value) + (if keep(row) then value(row) else 0.0)
  {
    SelectAppend(rows, row, keep);
    if keep(row) {
      SumAppend(Select(rows, keep), row, value);
    } else {
      assert Select(rows, keep) + [] == Select(rows, keep);
    }
  }

  /** A sum of ones is a number of logs. */
  lemma {:induction false} SumOfOnes(rows: seq<RelayLog>, value: RelayLog -> real, keep: RelayLog -> bool)
    requires forall row :: value(row) == if keep(row) then 1.0 else 0.0
    ensures Sum(rows, value) == |Select(rows, keep)| as real
  {
    if rows != [] {
      var before, last := rows[..|rows| - 1], rows[|rows| - 1];
      assert rows == before + [last];
      SumOfOnes(before, value, keep);
      SelectAppend(before, last, keep);
    }
  }

  lemma {:induction false} SumOfZeros(rows: seq<RelayLog>, value: RelayLog -> real)
    requires forall row :: value(row) == 0.0
    ensures Sum(rows, value) == 0.0
  {
    if rows != [] {
      SumOfZeros(rows[..|rows| - 1], value);
    }
  }

  function CounterOf(c: Counter): RelayLog -> real {
    (row: RelayLog) => Count(RowMetrics(row), c)
  }

  lemma {:induction false} LogTotalIsSum(rows: seq<RelayLog>, scanStart: int, cutoff: int, c: Counter)
    ensures LogTotal(rows, scanStart, cutoff, c) == Sum(Select(rows, Finishing(scanStart, cutoff)), CounterOf(c))
  {
    if rows != [] {
      var before, last := rows[..|rows| - 1], rows[|rows| - 1];
      assert rows == before + [last];
      LogTotalIsSum(before, scanStart, cutoff, c);
      SumSelectAppend(before, last, Finishing(scanStart, cutoff), CounterOf(c));
    }
  }

  // ----- the counters -----

  function Succeeded(): RelayLog -> bool {
    (row: RelayLog) => row.success
  }

  function Failed(): RelayLog -> bool {
    (row: RelayLog) => !row.success
  }

  /** What the seven counters of a row of the projection are for the logs it is made of. */
  ghost predicate CountersOf(rows: seq<RelayLog>, total: Counter -> real) {
    && total(RequestSuccess) == |Select(rows, Succeeded())| as real
    && total(RequestFailed) == |Select(rows, Failed())| as real
    && total(InputToken) == Sum(rows, (row: RelayLog) => row.inputTokens as real)
    && total(OutputToken) == Sum(rows, (row: RelayLog) => row.outputTokens as real)
    && total(InputCost) == Sum(rows, (row: RelayLog) => row.cost)
    && total(WaitTime) == Sum(rows, (row: RelayLog) => row.useTime as real)
    && total(OutputCost) == 0.0
  }

  lemma CountersAre(rows: seq<RelayLog>)
    ensures CountersOf(rows, (c: Counter) => Sum(rows, CounterOf(c)))
  {
    SumOfOnes(rows, CounterOf(RequestSuccess), Succeeded());
    SumOfOnes(rows, CounterOf(RequestFailed), Failed());
    SumAlike(rows, CounterOf(InputToken), (row: RelayLog) => row.inputTokens as real);
    SumAlike(rows, CounterOf(OutputToken), (row: RelayLog) => row.outputTokens as real);
    SumAlike(rows, CounterOf(InputCost), (row: RelayLog) => row.cost);
    SumAlike(rows, CounterOf(WaitTime), (row: RelayLog) => row.useTime as real);
    SumOfZeros(rows, CounterOf(OutputCost));
  }

  /** In each dimension the projection counts every counted log once: successes, failures, tokens, the whole
      cost as input cost, and waiting time. */
  lemma DimensionCounters(table: seq<RelayLog>, scanStart: int, cutoff: int, r: Rendering, dimension: Dimension)
    requires Ordered(table)
    ensures CountersOf(CountedLogs(table, scanStart, cutoff),
                       c => Total(Projection(table, scanStart, cutoff, r), DimensionSelector(dimension), c))
  {
    var queryStart, mine := QueryStart(scanStart), CountedLogs(table, scanStart, cutoff);
    forall c ensures Total(Projection(table, scanStart, cutoff, r), DimensionSelector(dimension), c)
                     == Sum(mine, CounterOf(c)) {
      EachDimensionCountsOnce(table, scanStart, cutoff, r, dimension, c);
      LogTotalIsSum(After(table, queryStart, cutoff, queryStart, 0), scanStart, cutoff, c);
      ScannedAreCounted(table, scanStart, cutoff);
    }
    CountersAre(mine);
  }

  // ----- the items -----

  /** Which item of a dimension the event is for. */
  function ItemOf(e: Event, dimension: Dimension): ItemKey {
    match dimension
    case ModelDimension => Name(e.actualModel)
    case ChannelDimension => Channel(e.channelId)
    case GroupDimension => Name(e.requestModel)
  }

  function ForItem(r: Rendering, dimension: Dimension, minHour: nat, item: ItemKey): RelayLog -> bool {
    (row: RelayLog) => ItemOf(EventOf(row, r), dimension) == item
        && (minHour == 0 || EventOf(row, r).at >= minHour * 3600)
  }

  /** The logs that finished in the window and count for the item. */
  function Mine(scanStart: int, cutoff: int, r: Rendering, dimension: Dimension, minHour: nat, item: ItemKey):
    RelayLog -> bool
  {
    (row: RelayLog) => Finished(row, scanStart, cutoff) && ForItem(r, dimension, minHour, item)(row)
  }

  lemma OneMoreLog(before: seq<RelayLog>, last: RelayLog, scanStart: int, cutoff: int, r: Rendering,
                   dimension: Dimension, minHour: nat, item: ItemKey, c: Counter)
    ensures EventTotal(CountedEvents(before + [last], scanStart, cutoff, Attributed(r)), dimension, minHour, item, c)
            == EventTotal(CountedEvents(before, scanStart, cutoff, Attributed(r)), dimension, minHour, item, c)
               + (if Mine(scanStart, cutoff, r, dimension, minHour, item)(last) then CounterOf(c)(last) else 0.0)
  {
    var events := CountedEvents(before, scanStart, cutoff, Attributed(r));
    CountedMore(before, last, scanStart, cutoff, r);
    MineMeans(last, scanStart, cutoff, r, dimension, minHour, item, c);
    EventTotalAppend(events, EventOf(last, r), dimension, minHour, item, c);
  }

  lemma MineMeans(row: RelayLog, scanStart: int, cutoff: int, r: Rendering, dimension: Dimension, minHour: nat,
                  item: ItemKey, c: Counter)
    ensures var e := EventOf(row, r);
            && CounterOf(c)(row) == Count(e.metrics, c)
            && (Mine(scanStart, cutoff, r, dimension, minHour, item)(row) <==>
                Finished(row, scanStart, cutoff) && ItemOf(e, dimension) == item
                    && (minHour == 0 || e.at >= minHour * 3600))
  {
    var e := EventOf(row, r);
    assert e.metrics == RowMetrics(row);
    assert CounterOf(c)(row) == Count(RowMetrics(row), c);
    assert ForItem(r, dimension, minHour, item)(row)
        <==> ItemOf(e, dimension) == item && (minHour == 0 || e.at >= minHour * 3600);
  }

  lemma CountedMore(before: seq<RelayLog>, last: RelayLog, scanStart: int, cutoff: int, r: Rendering)
    ensures var events := CountedEvents(before, scanStart, cutoff, Attributed(r));
            CountedEvents(before + [last], scanStart, cutoff, Attributed(r))
            == if Finished(last, scanStart, cutoff) then events + [EventOf(last, r)] else events
  {
    var events, rows := CountedEvents(before, scanStart, cutoff, Attributed(r)), before + [last];
    assert rows[..|rows| - 1] == before && rows[|rows| - 1] == last;
    assert events + [] == events;
  }

  /** The events counted so far for an item add up to its logs. */
  ghost predicate AddsUp(rows: seq<RelayLog>, scanStart: int, cutoff: int, r: Rendering, dimension: Dimension,
                         minHour: nat, item: ItemKey, c: Counter)
  {
    EventTotal(CountedEvents(rows, scanStart, cutoff, Attributed(r)), dimension, minHour, item, c)
    == Sum(Select(rows, Mine(scanStart, cutoff, r, dimension, minHour, item)), CounterOf(c))
  }

  lemma AddsUpOneMore(before: seq<RelayLog>, last: RelayLog, scanStart: int, cutoff: int, r: Rendering,
                      dimension: Dimension, minHour: nat, item: ItemKey, c: Counter)
    requires AddsUp(before, scanStart, cutoff, r, dimension, minHour, item, c)
    ensures AddsUp(before + [last], scanStart, cutoff, r, dimension, minHour, item, c)
  {
    SumSelectAppend(before, last, Mine(scanStart, cutoff, r, dimension, minHour, item), CounterOf(c));
    OneMoreLog(before, last, scanStart, cutoff, r, dimension, minHour, item, c);
  }

  lemma {:induction false} EventTotalIsSum(rows: seq<RelayLog>, scanStart: int, cutoff: int, r: Rendering,
                                           dimension: Dimension, minHour: nat, item: ItemKey, c: Counter)
    ensures AddsUp(rows, scanStart, cutoff, r, dimension, minHour, item, c)
  {
    if rows != [] {
      var before, last := rows[..|rows| - 1], rows[|rows| - 1];
      assert rows == before + [last];
      EventTotalIsSum(before, scanStart, cutoff, r, dimension, minHour, item, c);
      AddsUpOneMore(before, last, scanStart, cutoff, r, dimension, minHour, item, c);
    }
  }

  lemma EventTotalAppend(events: seq<Event>, e: Event, dimension: Dimension, minHour: nat, item: ItemKey, c: Counter)
    ensures EventTotal(events + [e], dimension, minHour, item, c)
            == EventTotal(events, dimension, minHour, item, c)
               + (if ItemOf(e, dimension) == item && (minHour == 0 || e.at >= minHour * 3600)
                  then Count(e.metrics, c) else 0.0)
  {
    assert (events + [e])[..|events|] == events;
  }

  /** The row of an item has the counters of exactly the counted logs attributed to it, in every window. */
  lemma ItemCounters(table: seq<RelayLog>, scanStart: int, cutoff: int, r: Rendering, dimension: Dimension,
                     minHour: nat, item: ItemKey)
    requires Ordered(table)
    ensures CountersOf(Select(CountedLogs(table, scanStart, cutoff), ForItem(r, dimension, minHour, item)),
                       c => Total(Projection(table, scanStart, cutoff, r), ItemSelector(dimension, minHour, item), c))
  {
    var queryStart := QueryStart(scanStart);
    var mine := Select(CountedLogs(table, scanStart, cutoff), ForItem(r, dimension, minHour, item));
    var rows := After(table, queryStart, cutoff, queryStart, 0);
    var events := CountedEvents(rows, scanStart, cutoff, Attributed(r));
    forall c ensures Total(Projection(table, scanStart, cutoff, r), ItemSelector(dimension, minHour, item), c)
                     == Sum(mine, CounterOf(c)) {
      RecordAllAddsToTotal(map[], AllEntries(events), ItemSelector(dimension, minHour, item), c);
      EntriesSumPerItem(events, dimension, minHour, item, c);
      EventTotalIsSum(rows, scanStart, cutoff, r, dimension, minHour, item, c);
      ScannedAreCounted(table, scanStart, cutoff);
      SelectTwice(rows, Finishing(scanStart, cutoff), ForItem(r, dimension, minHour, item),
                  Mine(scanStart, cutoff, r, dimension, minHour, item));
    }
    CountersAre(mine);
  }

  /** The first text that is not blank, trimmed. */
  function FirstText(texts: seq<string>, fallback: string): string {
    if texts == [] then fallback
    else if TrimSpace(texts[0]) != "" then TrimSpace(texts[0])
    else FirstText(texts[1..], fallback)
  }

  /** The attempt was really made. */
  predicate Made(a: ChannelAttempt) {
    a.status.AttemptSuccess? || a.status.AttemptFailed?
  }

  function MadeModels(attempts: seq<ChannelAttempt>): seq<string> {
    if attempts == [] then []
    else (if Made(attempts[|attempts| - 1]) then [attempts[|attempts| - 1].modelName] else [])
         + MadeModels(attempts[..|attempts| - 1])
  }

  lemma FirstTextMeans(text: string, others: seq<string>, fallback: string)
    ensures FirstText([text] + others, fallback)
            == if TrimSpace(text) != "" then TrimSpace(text) else FirstText(others, fallback)
  {
    assert ([text] + others)[1..] == others;
  }

  lemma {:induction false} LastModelIsFirstText(attempts: seq<ChannelAttempt>, fallback: string)
    ensures LastAttemptModel(attempts, fallback) == FirstText(MadeModels(attempts), fallback)
  {
    if attempts != [] {
      var last, before := attempts[|attempts| - 1], attempts[..|attempts| - 1];
      LastModelIsFirstText(before, fallback);
      FirstTextMeans(last.modelName, MadeModels(before), fallback);
      assert [] + MadeModels(before) == MadeModels(before);
    }
  }

  /** Position `at` holds the last attempt made, -1 if there is none. */
  predicate LastMade(attempts: seq<ChannelAttempt>, at: int) {
    && -1 <= at < |attempts| && (at >= 0 ==> Made(attempts[at]))
    && forall j :: at < j < |attempts| ==> !Made(attempts[j])
  }

  /** A log counts for the model it names, else for that of the last attempt made, else for the requested one;
      for the requested model, "unknown" if it has none; and for its channel, else for that of the last attempt
      made, else for channel 0. Its time is when it ended. */
  lemma LogIsAttributed(row: RelayLog, r: Rendering) returns (at: int)
    ensures LastMade(row.attempts, at)
    ensures var e := EventOf(row, r);
            && e.requestModel == FirstText([row.requestModelName], "unknown")
            && e.actualModel == FirstText([row.actualModelName] + MadeModels(row.attempts), e.requestModel)
            && (EndOf(row) >= 0 ==> e.at == EndOf(row)) && e.date == r.dateOf(EndOf(row))
    ensures var e, own := EventOf(row, r), row.channelId != 0 || TrimSpace(row.channelName) != "";
            if own then
              e.channelId == row.channelId && e.channelName == FirstText([row.channelName], r.labelOf(row.channelId))
            else if at >= 0 then
              var a := row.attempts[at];
              e.channelId == a.channelId && e.channelName == FirstText([a.channelName], r.labelOf(a.channelId))
            else e.channelId == 0 && e.channelName == "unassigned"
  {
    var requested := FirstText([row.requestModelName], "unknown");
    FirstTextMeans(row.requestModelName, [], "unknown");
    assert [row.requestModelName] + [] == [row.requestModelName];
    LastModelIsFirstText(row.attempts, requested);
    FirstTextMeans(row.actualModelName, MadeModels(row.attempts), requested);
    at := LastAttemptChannelMeans(row.attempts, r.labelOf);
    assert forall a :: Made(a) <==> Attempted(a);
  }
}
