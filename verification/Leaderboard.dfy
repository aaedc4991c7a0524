/** The leaderboard on top of the hourly ledger: one event feeds three dimensions, a query adds table
    rows, backfill rows and the live cache. `key` stands for the dimension key text; the channel
    dimension's decimal rendering is represented by the id itself. */
module Leaderboard {
  import opened HourlyLedger
  import opened Sorting
  import opened Wrappers

  datatype Dimension = ModelDimension | ChannelDimension | GroupDimension

  datatype ItemKey = Name(name: string) | Channel(id: int)

  /** Rows of the two sources never share a key, so they are kept in two maps. */
  datatype LeaderboardKey = LeaderboardKey(hour: int, dimension: Dimension, item: ItemKey)

  /** A finished request after its names were normalized; `at` is Unix time. */
  datatype Event = Event(
    requestModel: string, actualModel: string, channelId: int, channelName: string,
    metrics: Metrics, at: nat, date: string)

  function EntryFor(e: Event, dimension: Dimension): Entry<LeaderboardKey> {
    var (item, name) := match dimension
      case ModelDimension => (Name(e.actualModel), e.actualModel)
      case ChannelDimension => (Channel(e.channelId), e.channelName)
      case GroupDimension => (Name(e.requestModel), e.requestModel);
    Entry(LeaderboardKey(e.at / 3600, dimension, item), Row(name, e.date, e.at, e.metrics))
  }

  /** An event counts for its model, its channel and its requested model in the hour of its time, under the name the
      dimension shows. */
  lemma EntryMeans(e: Event, dimension: Dimension)
    ensures var entry := EntryFor(e, dimension);
            && entry.key.dimension == dimension
            && entry.key.hour * 3600 <= e.at < (entry.key.hour + 1) * 3600
            && entry.row.metrics == e.metrics && entry.row.lastRequestAt == e.at && entry.row.date == e.date
            && (dimension.ModelDimension? ==> entry.key.item == Name(e.actualModel) && entry.row.name == e.actualModel)
            && (dimension.ChannelDimension? ==>
                entry.key.item == Channel(e.channelId) && entry.row.name == e.channelName)
            && (dimension.GroupDimension? ==>
                entry.key.item == Name(e.requestModel) && entry.row.name == e.requestModel)
  {
  }

  function EntriesOf(e: Event): seq<Entry<LeaderboardKey>> {
    [EntryFor(e, ModelDimension), EntryFor(e, ChannelDimension), EntryFor(e, GroupDimension)]
  }

  function AllEntries(events: seq<Event>): seq<Entry<LeaderboardKey>> {
    if events == [] then [] else AllEntries(events[..|events| - 1]) + EntriesOf(events[|events| - 1])
  }

  /** The steps of the leaderboard are those of its ledger, each record carrying one event. */
  datatype Action = RecordEvent(event: Event) | BeginFlush | EndFlush(ok: bool)

  function StepOf(a: Action): Step<LeaderboardKey> {
    match a
    case RecordEvent(e) => Record(EntriesOf(e))
    case BeginFlush => Detach
    case EndFlush(ok) => Settle(ok)
  }

  function StepsOf(actions: seq<Action>): seq<Step<LeaderboardKey>> {
    seq(|actions|, i requires 0 <= i < |actions| => StepOf(actions[i]))
  }

  function Live(actions: seq<Action>): State<LeaderboardKey> {
    Run(Empty(), StepsOf(actions))
  }

  /** The events that got past the flush lock. */
  function EventsOf(actions: seq<Action>): seq<Event> {
    if actions == [] then []
    else
      var prefix, last := actions[..|actions| - 1], actions[|actions| - 1];
      EventsOf(prefix) + (if last.RecordEvent? && !Live(prefix).flushing then [last.event] else [])
  }

  lemma {:induction false} HistoryIsEvents(actions: seq<Action>)
    ensures Live(actions).history == AllEntries(EventsOf(actions))
  {
    if actions != [] {
      var prefix, last := actions[..|actions| - 1], actions[|actions| - 1];
      HistoryIsEvents(prefix);
      assert StepsOf(actions)[..|actions| - 1] == StepsOf(prefix);
      assert Live(actions) == Next(Live(prefix), StepOf(last));
      if last.RecordEvent? && !Live(prefix).flushing {
        var events := EventsOf(actions);
        assert events[..|events| - 1] == EventsOf(prefix);
      } else {
        assert EventsOf(actions) == EventsOf(prefix);
      }
    }
  }

  // ----- per-key exactness and equal dimension totals -----

  predicate InWindow(k: LeaderboardKey, dimension: Dimension, minHour: nat) {
    k.dimension == dimension && (minHour == 0 || k.hour >= minHour)
  }

  ghost function ItemSelector(dimension: Dimension, minHour: nat, item: ItemKey): LeaderboardKey -> bool {
    (k: LeaderboardKey) => InWindow(k, dimension, minHour) && k.item == item
  }

  ghost function DimensionSelector(dimension: Dimension): LeaderboardKey -> bool {
    (k: LeaderboardKey) => k.dimension == dimension
  }

  /** What one item's leaderboard row should show: the sum over its own requests in the window. */
  ghost function EventTotal(events: seq<Event>, dimension: Dimension, minHour: nat, item: ItemKey, c: Counter): real {
    if events == [] then 0.0
    else
      var e := events[|events| - 1];
      var mine := match dimension
        case ModelDimension => item == Name(e.actualModel)
        case ChannelDimension => item == Channel(e.channelId)
        case GroupDimension => item == Name(e.requestModel);
      EventTotal(events[..|events| - 1], dimension, minHour, item, c)
      + (if mine && (minHour == 0 || e.at >= minHour * 3600) then Count(e.metrics, c) else 0.0)
  }

  lemma EventAddsOnce(e: Event, sel: LeaderboardKey -> bool, c: Counter)
    ensures EntryTotal(EntriesOf(e), sel, c) ==
            Selected(EntryFor(e, ModelDimension), sel, c) + Selected(EntryFor(e, ChannelDimension), sel, c)
            + Selected(EntryFor(e, GroupDimension), sel, c)
  {
    var entries := EntriesOf(e);
    var two := entries[..2];
    assert two == [entries[0], entries[1]] && two[..1] == [entries[0]] && two[..1][..0] == [];
    assert EntryTotal(two[..1], sel, c) == Selected(entries[0], sel, c);
    assert EntryTotal(two, sel, c) == EntryTotal(two[..1], sel, c) + Selected(entries[1], sel, c);
    assert EntryTotal(entries, sel, c) == EntryTotal(two, sel, c) + Selected(entries[2], sel, c);
  }

  lemma {:induction false} EntriesSumPerItem(events: seq<Event>, dimension: Dimension, minHour: nat, item: ItemKey,
                                             c: Counter)
    ensures EntryTotal(AllEntries(events), ItemSelector(dimension, minHour, item), c)
            == EventTotal(events, dimension, minHour, item, c)
  {
    if events != [] {
      var prefix, e := events[..|events| - 1], events[|events| - 1];
      var sel := ItemSelector(dimension, minHour, item);
      EntriesSumPerItem(prefix, dimension, minHour, item, c);
      EntryTotalConcat(AllEntries(prefix), EntriesOf(e), sel, c);
      EventAddsOnce(e, sel, c);
      assert e.at / 3600 >= minHour <==> e.at >= minHour * 3600;
    }
  }

  /** Outside a flush, table + cache hold exactly each item's own requests, for every window. */
  lemma LiveRowsAreExact(actions: seq<Action>, dimension: Dimension, minHour: nat, item: ItemKey, c: Counter)
    requires !Live(actions).flushing
    ensures var s := Live(actions);
            var sel := ItemSelector(dimension, minHour, item);
            Total(s.db, sel, c) + Total(s.cache, sel, c) == EventTotal(EventsOf(actions), dimension, minHour, item, c)
  {
    LedgerConserves(StepsOf(actions), ItemSelector(dimension, minHour, item), c);
    HistoryIsEvents(actions);
    EntriesSumPerItem(EventsOf(actions), dimension, minHour, item, c);
  }

  ghost function AllEventsTotal(events: seq<Event>, c: Counter): real {
    if events == [] then 0.0
    else AllEventsTotal(events[..|events| - 1], c) + Count(events[|events| - 1].metrics, c)
  }

  lemma {:induction false} DimensionSum(events: seq<Event>, dimension: Dimension, c: Counter)
    ensures EntryTotal(AllEntries(events), DimensionSelector(dimension), c) == AllEventsTotal(events, c)
  {
    if events != [] {
      var prefix, e := events[..|events| - 1], events[|events| - 1];
      DimensionSum(prefix, dimension, c);
      EntryTotalConcat(AllEntries(prefix), EntriesOf(e), DimensionSelector(dimension), c);
      EventAddsOnce(e, DimensionSelector(dimension), c);
    }
  }

  /** In every reachable state, mid-flush included, each dimension holds every counted request once,
      so the model, channel and group totals are equal. */
  lemma DimensionsAgree(actions: seq<Action>, dimension: Dimension, c: Counter)
    ensures var s := Live(actions);
            var sel := DimensionSelector(dimension);
            Total(s.db, sel, c) + Total(s.cache, sel, c) + Total(s.snapshot, sel, c)
            == AllEventsTotal(EventsOf(actions), c)
  {
    LedgerConserves(StepsOf(actions), DimensionSelector(dimension), c);
    HistoryIsEvents(actions);
    DimensionSum(EventsOf(actions), dimension, c);
  }

  // ----- the query -----

  datatype ResultRow = ResultRow(item: ItemKey, lastRequestAt: nat, metrics: Metrics)

  /** The counter of one item over a list of rows. */
  ghost function RowTotal(rows: seq<(LeaderboardKey, Row)>, item: ItemKey, c: Counter): real {
    if rows == [] then 0.0
    else
      var (k, row) := rows[|rows| - 1];
      RowTotal(rows[..|rows| - 1], item, c) + (if k.item == item then Count(row.metrics, c) else 0.0)
  }

  lemma {:induction false} RowTotalConcat(a: seq<(LeaderboardKey, Row)>, b: seq<(LeaderboardKey, Row)>, item: ItemKey,
                                          c: Counter)
    ensures RowTotal(a + b, item, c) == RowTotal(a, item, c) + RowTotal(b, item, c)
  {
    if b == [] {
      assert a + b == a;
    } else {
      assert (a + b)[..|a + b| - 1] == a + b[..|b| - 1];
      RowTotalConcat(a, b[..|b| - 1], item, c);
    }
  }

  predicate Lists(rows: seq<(LeaderboardKey, Row)>, item: ItemKey) {
    exists row :: row in rows && row.0.item == item
  }

  predicate Holds(m: map<LeaderboardKey, Row>, sel: LeaderboardKey -> bool) {
    exists k :: k in m && sel(k)
  }

  /** The rows of one map that fall in the window, in any iteration order. */
  method LoadRows(m: map<LeaderboardKey, Row>, dimension: Dimension, minHour: nat)
    returns (rows: seq<(LeaderboardKey, Row)>)
    ensures forall item, c :: RowTotal(rows, item, c) == Total(m, ItemSelector(dimension, minHour, item), c)
    ensures forall item :: Lists(rows, item) <==> Holds(m, ItemSelector(dimension, minHour, item))
    ensures forall row :: row in rows <==> row.0 in m && InWindow(row.0, dimension, minHour) && row.1 == m[row.0]
  {
    rows := [];
    var left := m;
    while left != map[]
      invariant left.Keys <= m.Keys && forall k :: k in left ==> left[k] == m[k]
      invariant forall item, c ::
        RowTotal(rows, item, c) + Total(left, ItemSelector(dimension, minHour, item), c)
        == Total(m, ItemSelector(dimension, minHour, item), c)
      invariant forall row :: row in rows <==>
        row.0 in m && row.0 !in left && InWindow(row.0, dimension, minHour) && row.1 == m[row.0]
      decreases left.Keys
    {
      var k :| k in left;
      ghost var was := rows;
      if InWindow(k, dimension, minHour) {
        rows := rows + [(k, left[k])];
        assert rows[..|was|] == was;
      }
      forall item, c ensures
        RowTotal(rows, item, c) + Total(left - {k}, ItemSelector(dimension, minHour, item), c)
        == Total(m, ItemSelector(dimension, minHour, item), c)
      {
        TotalSplit(left, ItemSelector(dimension, minHour, item), c, k);
        assert RowTotal(was, item, c) + Total(left, ItemSelector(dimension, minHour, item), c)
            == Total(m, ItemSelector(dimension, minHour, item), c);
      }
      left := left - {k};
    }
    forall item ensures Lists(rows, item) <==> Holds(m, ItemSelector(dimension, minHour, item)) {
      if k :| k in m && ItemSelector(dimension, minHour, item)(k) {
        assert (k, m[k]) in rows && (k, m[k]).0.item == item;
      }
      if row :| row in rows && row.0.item == item {
        assert ItemSelector(dimension, minHour, item)(row.0);
      }
    }
  }

  /** The aggregate holds the item's sum over `rows`, and is missing only when there is nothing to sum. */
  ghost predicate Sums(aggregated: map<ItemKey, ResultRow>, rows: seq<(LeaderboardKey, Row)>, item: ItemKey,
                       c: Counter) {
    if item in aggregated then
      aggregated[item].item == item && Count(aggregated[item].metrics, c) == RowTotal(rows, item, c)
    else RowTotal(rows, item, c) == 0.0
  }

  /** The newest request time among the item's rows; an item without rows stands at 0. */
  ghost predicate NewestOf(rows: seq<(LeaderboardKey, Row)>, item: ItemKey, latest: nat) {
    && (forall row :: row in rows && row.0.item == item ==> row.1.lastRequestAt <= latest)
    && if Lists(rows, item) then exists row :: row in rows && row.0.item == item && row.1.lastRequestAt == latest
       else latest == 0
  }

  /** One result per item, summing its rows; display names are left out. */
  method AggregateRows(rows: seq<(LeaderboardKey, Row)>) returns (aggregated: map<ItemKey, ResultRow>)
    ensures forall item :: item in aggregated <==> Lists(rows, item)
    ensures forall item, c :: Sums(aggregated, rows, item, c)
    ensures forall item :: item in aggregated ==> NewestOf(rows, item, aggregated[item].lastRequestAt)
  {
    aggregated := map[];
    for i := 0 to |rows|
      invariant forall item :: item in aggregated <==> Lists(rows[..i], item)
      invariant forall item, c :: Sums(aggregated, rows[..i], item, c)
      invariant forall item :: item in aggregated ==> NewestOf(rows[..i], item, aggregated[item].lastRequestAt)
    {
      var (k, row) := rows[i];
      ghost var was := aggregated;
      assert rows[..i + 1] == rows[..i] + [rows[i]];
      var current := if k.item in aggregated then aggregated[k.item] else ResultRow(k.item, 0, ZERO);
      var updated :=
          ResultRow(k.item, Max(current.lastRequestAt, row.lastRequestAt), Add(current.metrics, row.metrics));
      aggregated := aggregated[k.item := updated];
      ghost var read := rows[..i + 1];
      forall item, c ensures Sums(aggregated, read, item, c) {
        assert Sums(was, rows[..i], item, c);
        SumsOneMore(was, rows[..i], rows[i], item, c, updated);
      }
      forall item ensures item in aggregated <==> Lists(read, item) {
        ListsOneMore(rows[..i], rows[i], item);
      }
      forall item | item in aggregated ensures NewestOf(read, item, aggregated[item].lastRequestAt) {
        NewestOneMore(rows[..i], rows[i], item, if item in was then was[item].lastRequestAt else 0);
      }
    }
    assert rows[..|rows|] == rows;
  }

  lemma SumsOneMore(was: map<ItemKey, ResultRow>, before: seq<(LeaderboardKey, Row)>, added: (LeaderboardKey, Row),
                    item: ItemKey, c: Counter, updated: ResultRow)
    requires Sums(was, before, item, c) && updated.item == added.0.item
    requires updated.metrics == Add(if added.0.item in was then was[added.0.item].metrics else ZERO, added.1.metrics)
    ensures Sums(was[added.0.item := updated], before + [added], item, c)
  {
    CountAdd(if added.0.item in was then was[added.0.item].metrics else ZERO, added.1.metrics, c);
    assert (before + [added])[..|before|] == before;
  }

  lemma ListsOneMore(before: seq<(LeaderboardKey, Row)>, added: (LeaderboardKey, Row), item: ItemKey)
    ensures Lists(before + [added], item) <==> Lists(before, item) || item == added.0.item
  {
    assert added in before + [added];
    assert forall row :: row in before + [added] <==> row in before || row == added;
  }

  lemma NewestOneMore(before: seq<(LeaderboardKey, Row)>, added: (LeaderboardKey, Row), item: ItemKey, latest: nat)
    requires NewestOf(before, item, latest)
    ensures NewestOf(before + [added], item,
                     if item == added.0.item then Max(latest, added.1.lastRequestAt) else latest)
  {
    ListsOneMore(before, added, item);
    assert forall row :: row in before + [added] <==> row in before || row == added;
  }

  /** A query between flushes shows, for every item, the sum of its own live requests in the window
      plus its backfilled rows, and lists exactly the items that have a row. */
  method Query(ghost actions: seq<Action>, cache: HourlyCache<LeaderboardKey>, backfill: map<LeaderboardKey, Row>,
               dimension: Dimension, minHour: nat)
    returns (result: map<ItemKey, ResultRow>)
    requires cache.Model() == Live(actions) && !cache.flushing
    ensures forall item, c :: item in result ==>
              Count(result[item].metrics, c) ==
              EventTotal(EventsOf(actions), dimension, minHour, item, c)
              + Total(backfill, ItemSelector(dimension, minHour, item), c)
    ensures forall item :: item in result <==>
              Holds(cache.db, ItemSelector(dimension, minHour, item))
              || Holds(backfill, ItemSelector(dimension, minHour, item))
              || Holds(cache.cache, ItemSelector(dimension, minHour, item))
    ensures forall item :: item in result ==>
              && result[item].item == item
              && NewestIn(result[item].lastRequestAt, cache.db, backfill, cache.cache,
                          ItemSelector(dimension, minHour, item))
  {
    var stored := LoadRows(cache.db, dimension, minHour);
    var history := LoadRows(backfill, dimension, minHour);
    var pending := LoadRows(cache.cache, dimension, minHour);
    result := AggregateRows(stored + history + pending);
    forall item | item in result
      ensures NewestIn(result[item].lastRequestAt, cache.db, backfill, cache.cache,
                       ItemSelector(dimension, minHour, item))
    {
      NewestOfThree(stored, history, pending, cache.db, backfill, cache.cache, dimension, minHour, item,
                    result[item].lastRequestAt);
    }
    forall item | item in result ensures result[item].item == item {
      assert Sums(result, stored + history + pending, item, InputToken);
    }
    forall item ensures item in result <==> Lists(stored, item) || Lists(history, item) || Lists(pending, item) {
      ListedThere(stored, history, pending, item);
    }
    forall item, c | item in result
      ensures Count(result[item].metrics, c) ==
              EventTotal(EventsOf(actions), dimension, minHour, item, c)
              + Total(backfill, ItemSelector(dimension, minHour, item), c)
    {
      assert Sums(result, stored + history + pending, item, c);
      RowTotalConcat(stored + history, pending, item, c);
      RowTotalConcat(stored, history, item, c);
      LiveRowsAreExact(actions, dimension, minHour, item, c);
    }
  }

  /** The newest request time among the selected rows of three maps. */
  ghost predicate NewestIn(latest: nat, a: map<LeaderboardKey, Row>, b: map<LeaderboardKey, Row>,
                           c: map<LeaderboardKey, Row>, sel: LeaderboardKey -> bool)
  {
    && (forall k :: sel(k) && k in a ==> a[k].lastRequestAt <= latest)
    && (forall k :: sel(k) && k in b ==> b[k].lastRequestAt <= latest)
    && (forall k :: sel(k) && k in c ==> c[k].lastRequestAt <= latest)
    && ((exists k :: k in a && sel(k) && a[k].lastRequestAt == latest)
        || (exists k :: k in b && sel(k) && b[k].lastRequestAt == latest)
        || (exists k :: k in c && sel(k) && c[k].lastRequestAt == latest))
  }

  ghost predicate RowsFrom(rows: seq<(LeaderboardKey, Row)>, m: map<LeaderboardKey, Row>, dimension: Dimension,
                           minHour: nat) {
    forall row :: row in rows <==> row.0 in m && InWindow(row.0, dimension, minHour) && row.1 == m[row.0]
  }

  lemma NewestOfThree(ra: seq<(LeaderboardKey, Row)>, rb: seq<(LeaderboardKey, Row)>, rc: seq<(LeaderboardKey, Row)>,
                      a: map<LeaderboardKey, Row>, b: map<LeaderboardKey, Row>, c: map<LeaderboardKey, Row>,
                      dimension: Dimension, minHour: nat, item: ItemKey, latest: nat)
    requires RowsFrom(ra, a, dimension, minHour) && RowsFrom(rb, b, dimension, minHour)
             && RowsFrom(rc, c, dimension, minHour)
    requires NewestOf(ra + rb + rc, item, latest) && Lists(ra + rb + rc, item)
    ensures NewestIn(latest, a, b, c, ItemSelector(dimension, minHour, item))
  {
    var all, sel := ra + rb + rc, ItemSelector(dimension, minHour, item);
    assert forall row :: row in all <==> row in ra || row in rb || row in rc;
    forall k | sel(k) && k in a ensures a[k].lastRequestAt <= latest {
      assert (k, a[k]) in ra && (k, a[k]) in all && (k, a[k]).0.item == item;
    }
    forall k | sel(k) && k in b ensures b[k].lastRequestAt <= latest {
      assert (k, b[k]) in rb && (k, b[k]) in all && (k, b[k]).0.item == item;
    }
    forall k | sel(k) && k in c ensures c[k].lastRequestAt <= latest {
      assert (k, c[k]) in rc && (k, c[k]) in all && (k, c[k]).0.item == item;
    }
    var row :| row in all && row.0.item == item && row.1.lastRequestAt == latest;
    assert sel(row.0);
  }

  lemma ListedThere(a: seq<(LeaderboardKey, Row)>, b: seq<(LeaderboardKey, Row)>, c: seq<(LeaderboardKey, Row)>,
                    item: ItemKey)
    ensures Lists(a + b + c, item) <==> Lists(a, item) || Lists(b, item) || Lists(c, item)
  {
    assert forall row :: row in a + b + c <==> row in a || row in b || row in c;
  }

  // ----- the order of the answer -----

  ghost predicate StrictTotal(less: (ItemKey, ItemKey) -> bool) {
    && (forall a :: !less(a, a))
    && (forall a, b, c :: less(a, b) && less(b, c) ==> less(a, c))
    && (forall a, b :: a != b ==> less(a, b) || less(b, a))
  }

  /** More requests first, then by key; `less` is the byte order of the key text. */
  predicate Precedes(a: ResultRow, b: ResultRow, less: (ItemKey, ItemKey) -> bool) {
    var left, right :=
        a.metrics.requestSuccess + a.metrics.requestFailed, b.metrics.requestSuccess + b.metrics.requestFailed;
    if left != right then left > right else less(a.item, b.item)
  }

  /** The answer lists every aggregated row once, in an order fixed by the rows alone. */
  method SortRows(aggregated: map<ItemKey, ResultRow>, less: (ItemKey, ItemKey) -> bool) returns (rows: seq<ResultRow>)
    requires StrictTotal(less)
    requires forall item :: item in aggregated ==> aggregated[item].item == item
    ensures Elements(rows) == aggregated.Values
    ensures Sorted(rows, (a: ResultRow, b: ResultRow) => Precedes(a, b, less))
    ensures forall other: seq<ResultRow> ::
              Elements(other) == aggregated.Values
                  && Sorted(other, (a: ResultRow, b: ResultRow) => Precedes(a, b, less))
              ==> other == rows
    ensures forall i, j :: 0 <= i < j < |rows| ==>
              var a, b := rows[i].metrics, rows[j].metrics;
              && a.requestSuccess + a.requestFailed >= b.requestSuccess + b.requestFailed
              && (a.requestSuccess + a.requestFailed == b.requestSuccess + b.requestFailed ==>
                    less(rows[i].item, rows[j].item))
  {
    var before := (a: ResultRow, b: ResultRow) => Precedes(a, b, less);
    rows := SortSet(aggregated.Values, before);
    forall other: seq<ResultRow> | Elements(other) == aggregated.Values && Sorted(other, before) ensures other == rows {
      SortedIsUnique(other, rows, before);
    }
  }
}
