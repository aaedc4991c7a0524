/** An additive hourly cache in front of a table: events accumulate in memory, a flush detaches the
    cache and adds it to the table, a failed flush merges it back. Used by the leaderboard and by the
    site-model statistics, which differ only in their keys. */
module HourlyLedger {
  import opened Wrappers

  datatype Metrics = Metrics(
    inputToken: int, outputToken: int, inputCost: real, outputCost: real,
    waitTime: int, requestSuccess: int, requestFailed: int)

  const ZERO := Metrics(0, 0, 0.0, 0.0, 0, 0, 0)

  function Add(a: Metrics, b: Metrics): Metrics {
    Metrics(a.inputToken + b.inputToken, a.outputToken + b.outputToken,
            a.inputCost + b.inputCost, a.outputCost + b.outputCost, a.waitTime + b.waitTime,
            a.requestSuccess + b.requestSuccess, a.requestFailed + b.requestFailed)
  }

  /** The seven counters, to state sums one counter at a time. */
  datatype Counter = InputToken | OutputToken | InputCost | OutputCost | WaitTime | RequestSuccess | RequestFailed

  function Count(m: Metrics, c: Counter): real {
    match c
    case InputToken => m.inputToken as real
    case OutputToken => m.outputToken as real
    case InputCost => m.inputCost
    case OutputCost => m.outputCost
    case WaitTime => m.waitTime as real
    case RequestSuccess => m.requestSuccess as real
    case RequestFailed => m.requestFailed as real
  }

  lemma CountAdd(a: Metrics, b: Metrics, c: Counter)
    ensures Count(Add(a, b), c) == Count(a, c) + Count(b, c)
  {
  }

  /** The counters determine the metrics. */
  lemma CountsDetermine(a: Metrics, b: Metrics)
    requires forall c :: Count(a, c) == Count(b, c)
    ensures a == b
  {
    assert Count(a, InputToken) == Count(b, InputToken) && Count(a, OutputToken) == Count(b, OutputToken);
    assert Count(a, InputCost) == Count(b, InputCost) && Count(a, OutputCost) == Count(b, OutputCost);
    assert Count(a, WaitTime) == Count(b, WaitTime);
    assert Count(a, RequestSuccess) == Count(b, RequestSuccess) && Count(a, RequestFailed) == Count(b, RequestFailed);
  }

  datatype Row = Row(name: string, date: string, lastRequestAt: nat, metrics: Metrics)

  /** One event's addition to one row. */
  datatype Entry<K> = Entry(key: K, row: Row)

  /** An event lands on a cached row, creating it first when missing. */
  function Recorded(cached: Row, added: Row): Row {
    Row(if added.name != "" then added.name else cached.name, cached.date,
        Max(cached.lastRequestAt, added.lastRequestAt), Add(cached.metrics, added.metrics))
  }

  /** The ON CONFLICT clause: identity columns from the new row, counters added, latest time kept. */
  function Upserted(stored: Row, added: Row): Row {
    Row(added.name, added.date, Max(stored.lastRequestAt, added.lastRequestAt), Add(stored.metrics, added.metrics))
  }

  function Merge<K>(base: map<K, Row>, added: map<K, Row>, combine: (Row, Row) -> Row): map<K, Row> {
    map k | k in base.Keys + added.Keys ::
      if k in base && k in added then combine(base[k], added[k]) else if k in base then base[k] else added[k]
  }

  function RecordOne<K>(cache: map<K, Row>, e: Entry<K>): map<K, Row> {
    cache[e.key := if e.key in cache then Recorded(cache[e.key], e.row) else e.row]
  }

  function RecordAll<K>(cache: map<K, Row>, entries: seq<Entry<K>>): map<K, Row> {
    if entries == [] then cache
    else RecordOne(RecordAll(cache, entries[..|entries| - 1]), entries[|entries| - 1])
  }

  // ----- totals over any selection of keys -----

  /** The sum of one counter over the selected rows, taken in some iteration order. */
  ghost function Total<K(!new)>(m: map<K, Row>, sel: K -> bool, c: Counter): real {
    if m == map[] then 0.0
    else
      var k :| k in m;
      (if sel(k) then Count(m[k].metrics, c) else 0.0) + Total(m - {k}, sel, c)
  }

  ghost function EntryTotal<K(!new)>(entries: seq<Entry<K>>, sel: K -> bool, c: Counter): real {
    if entries == [] then 0.0
    else EntryTotal(entries[..|entries| - 1], sel, c) + Selected(entries[|entries| - 1], sel, c)
  }

  ghost function Selected<K(!new)>(e: Entry<K>, sel: K -> bool, c: Counter): real {
    if sel(e.key) then Count(e.row.metrics, c) else 0.0
  }

  /** Any row may be summed first: the total does not depend on the iteration order. */
  lemma {:induction false} TotalSplit<K(!new)>(m: map<K, Row>, sel: K -> bool, c: Counter, k: K)
    requires k in m
    ensures Total(m, sel, c) == (if sel(k) then Count(m[k].metrics, c) else 0.0) + Total(m - {k}, sel, c)
    decreases m.Keys
  {
    var first :| first in m
      && Total(m, sel, c) == (if sel(first) then Count(m[first].metrics, c) else 0.0) + Total(m - {first}, sel, c);
    if first != k {
      TotalSplit(m - {first}, sel, c, k);
      TotalSplit(m - {k}, sel, c, first);
      assert m - {first} - {k} == m - {k} - {first};
    }
  }

  lemma TotalSet<K(!new)>(m: map<K, Row>, sel: K -> bool, c: Counter, k: K, row: Row)
    ensures Total(m[k := row], sel, c) == (if sel(k) then Count(row.metrics, c) else 0.0) + Total(m - {k}, sel, c)
  {
    TotalSplit(m[k := row], sel, c, k);
    assert m[k := row] - {k} == m - {k};
  }

  lemma RecordAddsToTotal<K(!new)>(cache: map<K, Row>, e: Entry<K>, sel: K -> bool, c: Counter)
    ensures Total(RecordOne(cache, e), sel, c) == Total(cache, sel, c) + Selected(e, sel, c)
  {
    if e.key in cache {
      TotalSet(cache, sel, c, e.key, Recorded(cache[e.key], e.row));
      TotalSplit(cache, sel, c, e.key);
      CountAdd(cache[e.key].metrics, e.row.metrics, c);
    } else {
      TotalSet(cache, sel, c, e.key, e.row);
      assert cache - {e.key} == cache;
    }
  }

  lemma {:induction false} RecordAllAddsToTotal<K(!new)>(cache: map<K, Row>, entries: seq<Entry<K>>, sel: K -> bool,
                                                         c: Counter)
    ensures Total(RecordAll(cache, entries), sel, c) == Total(cache, sel, c) + EntryTotal(entries, sel, c)
  {
    if entries != [] {
      var prefix := entries[..|entries| - 1];
      RecordAllAddsToTotal(cache, prefix, sel, c);
      RecordAddsToTotal(RecordAll(cache, prefix), entries[|entries| - 1], sel, c);
    }
  }

  lemma {:induction false} EntryTotalConcat<K(!new)>(a: seq<Entry<K>>, b: seq<Entry<K>>, sel: K -> bool, c: Counter)
    ensures EntryTotal(a + b, sel, c) == EntryTotal(a, sel, c) + EntryTotal(b, sel, c)
  {
    if b == [] {
      assert a + b == a;
    } else {
      assert (a + b)[..|a + b| - 1] == a + b[..|b| - 1];
      EntryTotalConcat(a, b[..|b| - 1], sel, c);
    }
  }

  /** A row combination that adds counters. */
  ghost predicate Additive(combine: (Row, Row) -> Row) {
    forall a, b :: combine(a, b).metrics == Add(a.metrics, b.metrics)
  }

  lemma {:induction false} MergeAddsTotals<K(!new)>(
      base: map<K, Row>, added: map<K, Row>, combine: (Row, Row) -> Row, sel: K -> bool, c: Counter)
    requires Additive(combine)
    ensures Total(Merge(base, added, combine), sel, c) == Total(base, sel, c) + Total(added, sel, c)
    decreases added.Keys
  {
    if added.Keys == {} {
      assert Merge(base, added, combine) == base;
      assert added == map[];
    } else {
      var k :| k in added.Keys;
      var rest := added - {k};
      var merged := Merge(base, added, combine);
      MergeAddsTotals(base - {k}, rest, combine, sel, c);
      assert merged - {k} == Merge(base - {k}, rest, combine);
      TotalSplit(merged, sel, c, k);
      TotalSplit(added, sel, c, k);
      if k in base {
        TotalSplit(base, sel, c, k);
        CountAdd(base[k].metrics, added[k].metrics, c);
      } else {
        assert base - {k} == base;
      }
    }
  }

  // ----- the protocol -----

  /** `flushing` is the write side of the flush lock, `history` every entry ever recorded. */
  datatype State<K> = State(
    cache: map<K, Row>, snapshot: map<K, Row>, flushing: bool, db: map<K, Row>, history: seq<Entry<K>>)

  datatype Step<K> = Record(entries: seq<Entry<K>>) | Detach | Settle(ok: bool)

  function Next<K>(s: State<K>, step: Step<K>): State<K> {
    match step
    case Record(entries) =>
      if s.flushing then s  // waits for the flush lock
      else s.(cache := RecordAll(s.cache, entries), history := s.history + entries)
    case Detach =>
      if s.flushing || s.cache == map[] then s
      else s.(snapshot := s.cache, cache := map[], flushing := true)
    case Settle(ok) =>
      if !s.flushing then s
      else if ok then s.(db := Merge(s.db, s.snapshot, Upserted), snapshot := map[], flushing := false)
      else s.(cache := Merge(s.cache, s.snapshot, Recorded), snapshot := map[], flushing := false)
  }

  function Run<K>(s: State<K>, steps: seq<Step<K>>): State<K> {
    if steps == [] then s else Next(Run(s, steps[..|steps| - 1]), steps[|steps| - 1])
  }

  function Empty<K>(): State<K> {
    State(map[], map[], false, map[], [])
  }

  /** Table + cache + detached snapshot equal the recorded events, for the selected keys and counter. */
  ghost predicate Balanced<K(!new)>(s: State<K>, sel: K -> bool, c: Counter) {
    Total(s.db, sel, c) + Total(s.cache, sel, c) + Total(s.snapshot, sel, c) == EntryTotal(s.history, sel, c)
  }

  lemma StepKeepsBalance<K(!new)>(s: State<K>, step: Step<K>, sel: K -> bool, c: Counter)
    requires Balanced(s, sel, c) && (!s.flushing ==> s.snapshot == map[])
    ensures Balanced(Next(s, step), sel, c) && (!Next(s, step).flushing ==> Next(s, step).snapshot == map[])
  {
    match step
    case Record(entries) =>
      RecordAllAddsToTotal(s.cache, entries, sel, c);
      EntryTotalConcat(s.history, entries, sel, c);
    case Detach =>
    case Settle(ok) =>
      MergeAddsTotals(s.db, s.snapshot, Upserted, sel, c);
      MergeAddsTotals(s.cache, s.snapshot, Recorded, sel, c);
  }

  /** Over every run of records, flushes and failed flushes nothing is lost or counted twice, for every
      selection of keys and every counter; outside a flush nothing is detached. */
  lemma {:induction false} LedgerConserves<K(!new)>(steps: seq<Step<K>>, sel: K -> bool, c: Counter)
    ensures var s := Run(Empty(), steps);
            && Balanced(s, sel, c)
            && (!s.flushing ==>
                s.snapshot == map[] && Total(s.db, sel, c) + Total(s.cache, sel, c) == EntryTotal(s.history, sel, c))
  {
    if steps != [] {
      LedgerConserves(steps[..|steps| - 1], sel, c);
      StepKeepsBalance(Run(Empty(), steps[..|steps| - 1]), steps[|steps| - 1], sel, c);
    }
  }

  // ----- latest request time of one key -----

  ghost function LatestAt<K>(m: map<K, Row>, k: K): nat {
    if k in m then m[k].lastRequestAt else 0
  }

  ghost function LatestEntry<K>(entries: seq<Entry<K>>, k: K): nat {
    if entries == [] then 0
    else
      var e := entries[|entries| - 1];
      Max(LatestEntry(entries[..|entries| - 1], k), if e.key == k then e.row.lastRequestAt else 0)
  }

  lemma {:induction false} RecordAllKeepsLatest<K>(cache: map<K, Row>, history: seq<Entry<K>>, entries: seq<Entry<K>>,
                                                   k: K)
    ensures LatestAt(RecordAll(cache, entries), k) == Max(LatestAt(cache, k), LatestEntry(entries, k))
    ensures LatestEntry(history + entries, k) == Max(LatestEntry(history, k), LatestEntry(entries, k))
  {
    if entries == [] {
      assert history + entries == history;
    } else {
      assert (history + entries)[..|history + entries| - 1] == history + entries[..|entries| - 1];
      RecordAllKeepsLatest(cache, history, entries[..|entries| - 1], k);
    }
  }

  ghost predicate LatestKept<K>(s: State<K>, k: K) {
    && (!s.flushing ==> s.snapshot == map[])
    && Max(LatestAt(s.db, k), Max(LatestAt(s.cache, k), LatestAt(s.snapshot, k))) == LatestEntry(s.history, k)
  }

  lemma StepKeepsLatest<K>(s: State<K>, step: Step<K>, k: K)
    requires LatestKept(s, k)
    ensures LatestKept(Next(s, step), k)
  {
    match step
    case Record(entries) => RecordAllKeepsLatest(s.cache, s.history, entries, k);
    case Detach =>
    case Settle(ok) =>
  }

  /** The latest request time of every key survives every run too. */
  lemma {:induction false} LedgerKeepsLatest<K>(steps: seq<Step<K>>, k: K)
    ensures LatestKept(Run(Empty(), steps), k)
  {
    if steps != [] {
      LedgerKeepsLatest(steps[..|steps| - 1], k);
      StepKeepsLatest(Run(Empty(), steps[..|steps| - 1]), steps[|steps| - 1], k);
    }
  }

  // ----- the process-wide cache -----

  class HourlyCache<K(==, !new)> {
    var cache: map<K, Row>
    var snapshot: map<K, Row>
    var flushing: bool
    var db: map<K, Row>
    ghost var history: seq<Entry<K>>

    ghost function Model(): State<K>
      reads this
    {
      State(cache, snapshot, flushing, db, history)
    }

    constructor ()
      ensures Model() == Empty()
      ensures cache == map[] && db == map[] && history == [] && !flushing
    {
      cache, snapshot, flushing, db, history := map[], map[], false, map[], [];
    }

    /** One event updates every row it touches under the cache lock. */
    method RecordEvent(entries: seq<Entry<K>>)
      requires !flushing
      modifies this
      ensures Model() == Next(old(Model()), Record(entries))
    {
      for i := 0 to |entries|
        invariant cache == RecordAll(old(cache), entries[..i])
        invariant snapshot == old(snapshot) && !flushing && db == old(db) && history == old(history)
      {
        var e := entries[i];
        assert entries[..i + 1][..i] == entries[..i];
        if e.key in cache {
          cache := cache[e.key := Recorded(cache[e.key], e.row)];
        } else {
          cache := cache[e.key := e.row];
        }
      }
      assert entries[..|entries|] == entries;
      history := history + entries;
    }

    method DetachCache()
      requires !flushing
      modifies this
      ensures Model() == Next(old(Model()), Detach)
    {
      if |cache| == 0 {
        return;
      }
      snapshot, cache, flushing := cache, map[], true;
    }

    /** The table takes the detached rows in one transaction, in any order, or not at all. */
    method SettleFlush(ok: bool)
      requires flushing
      modifies this
      ensures Model() == Next(old(Model()), Settle(ok))
    {
      if ok {
        db := MergeRows(db, snapshot, Upserted);
      } else {
        cache := MergeRows(cache, snapshot, Recorded);
      }
      snapshot, flushing := map[], false;
    }
  }

  /** Adding rows one by one in any map iteration order gives the merged map. */
  method MergeRows<K(==)>(base: map<K, Row>, added: map<K, Row>, combine: (Row, Row) -> Row)
    returns (merged: map<K, Row>)
    ensures merged == Merge(base, added, combine)
  {
    merged := base;
    var todo := added.Keys;
    while todo != {}
      invariant todo <= added.Keys
      invariant merged == Merge(base, Passed(added, todo), combine)
      decreases todo
    {
      var k :| k in todo;
      MergeStep(base, added, combine, todo, k);
      if k in merged {
        merged := merged[k := combine(merged[k], added[k])];
      } else {
        merged := merged[k := added[k]];
      }
      todo := todo - {k};
    }
    assert Passed(added, {}) == added;
  }

  /** The rows a walk over the map has passed. */
  function Passed<K>(added: map<K, Row>, todo: set<K>): map<K, Row> {
    map k | k in added && k !in todo :: added[k]
  }

  lemma MergeStep<K>(base: map<K, Row>, added: map<K, Row>, combine: (Row, Row) -> Row, todo: set<K>, k: K)
    requires k in todo && k in added
    ensures var merged := Merge(base, Passed(added, todo), combine);
            && (k in merged <==> k in base) && (k in base ==> merged[k] == base[k])
            && Merge(base, Passed(added, todo - {k}), combine)
               == merged[k := if k in base then combine(base[k], added[k]) else added[k]]
  {
  }
}
