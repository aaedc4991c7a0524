/** Saving cached statistics: dirty ids are detached, their cached rows written in three stages, and put
    back when any stage fails, while request goroutines keep updating. One save runs at a time. */
module StatsSave {

  /** The three tables of absolute counters, in the order a save writes them. */
  datatype Kind = ChannelStats | ModelStats | ApiKeyStats

  datatype StatId = StatId(kind: Kind, id: int)

  /** Where the save in progress stands. `detached` is every id taken from the dirty maps, `unwritten`
      those whose stage has not been written; `toRead` are the ids of the current kind not read yet and
      `rows` the cached rows read so far. Once no kind is left the hourly ledgers are flushed. */
  datatype Phase =
    | NoSave
    | Detaching(kinds: seq<Kind>, detached: set<StatId>)
    | Stage(kinds: seq<Kind>, toRead: set<StatId>, rows: map<StatId, int>, unwritten: set<StatId>,
            detached: set<StatId>)

  /** `cache` and `db` hold one counter per id; `marking` are updates between their cache set and their
      dirty mark; `updates` is history. */
  datatype State = State(
    cache: map<StatId, int>, db: map<StatId, int>, dirty: set<StatId>, marking: multiset<StatId>,
    phase: Phase, updates: seq<(StatId, int)>)

  const EMPTY := State(map[], map[], {}, multiset{}, NoSave, [])

  datatype Step =
    | UpdateCache(id: StatId, delta: int)  // Get, Add, Set as one step
    | MarkDirty(id: StatId)
    | BeginSave
    | DetachKind
    | ReadRow(id: StatId)
    | WriteStage(ok: bool)
    | AbortSave                            // a total, daily or hourly row, or a ledger flush, failed
    | FinishSave                           // the ledger flushes succeeded

  const KINDS := [ChannelStats, ModelStats, ApiKeyStats]

  function OfKind(ids: set<StatId>, kind: Kind): set<StatId> {
    set id | id in ids && id.kind == kind
  }

  function Cached(s: State, id: StatId): int {
    if id in s.cache then s.cache[id] else 0
  }

  function CacheUpdated(s: State, id: StatId, delta: int): State {
    s.(cache := s.cache[id := Cached(s, id) + delta],
       marking := s.marking + multiset{id},
       updates := s.updates + [(id, delta)])
  }

  function Marked(s: State, id: StatId): State {
    if id in s.marking then s.(marking := s.marking - multiset{id}, dirty := s.dirty + {id}) else s
  }

  function NextStage(kinds: seq<Kind>, unwritten: set<StatId>, detached: set<StatId>): Phase {
    Stage(kinds, if kinds == [] then {} else OfKind(unwritten, kinds[0]), map[], unwritten, detached)
  }

  function KindDetached(s: State): State {
    if !s.phase.Detaching? then s
    else if s.phase.kinds == [] then s.(phase := NextStage(KINDS, s.phase.detached, s.phase.detached))
    else
      var taken := OfKind(s.dirty, s.phase.kinds[0]);
      s.(dirty := s.dirty - taken, phase := Detaching(s.phase.kinds[1..], s.phase.detached + taken))
  }

  function RowRead(s: State, id: StatId): State {
    if !s.phase.Stage? || id !in s.phase.toRead then s
    else
      s.(phase := s.phase.(
           toRead := s.phase.toRead - {id},
           rows := if id in s.cache then s.phase.rows[id := s.cache[id]] else s.phase.rows))
  }

  /** A failed save puts every detached id back, written or not. */
  function Restored(s: State): State {
    if !s.phase.Stage? then s else s.(dirty := s.dirty + s.phase.detached, phase := NoSave)
  }

  function StageWritten(s: State, ok: bool): State {
    if !s.phase.Stage? || s.phase.kinds == [] || s.phase.toRead != {} then s
    else if !ok then Restored(s)
    else
      var kind := s.phase.kinds[0];
      s.(db := s.db + s.phase.rows,
         phase := NextStage(s.phase.kinds[1..], s.phase.unwritten - OfKind(s.phase.unwritten, kind), s.phase.detached))
  }

  function Next(s: State, step: Step): State {
    match step
    case UpdateCache(id, delta) => CacheUpdated(s, id, delta)
    case MarkDirty(id) => Marked(s, id)
    case BeginSave => if s.phase.NoSave? then s.(phase := Detaching(KINDS, {})) else s
    case DetachKind => KindDetached(s)
    case ReadRow(id) => RowRead(s, id)
    case WriteStage(ok) => StageWritten(s, ok)
    case AbortSave => Restored(s)
    case FinishSave => if s.phase.Stage? && s.phase.kinds == [] then s.(phase := NoSave) else s
  }

  function Run(s: State, steps: seq<Step>): State {
    if steps == [] then s else Next(Run(s, steps[..|steps| - 1]), steps[|steps| - 1])
  }

  /** Ids a save has detached and not yet written. */
  function InFlight(s: State): set<StatId> {
    match s.phase
    case NoSave => {}
    case Detaching(_, detached) => detached
    case Stage(_, _, _, unwritten, _) => unwritten
  }

  ghost predicate KindsFrom(ids: set<StatId>, kinds: seq<Kind>) {
    forall id :: id in ids ==> id.kind in kinds
  }

  ghost predicate Unsaved(s: State, id: StatId) {
    id in s.dirty || id in s.marking
  }

  /** A row read and not yet written is still current, or its id has been touched again. */
  ghost predicate RowsFresh(s: State) {
    s.phase.Stage? ==>
      && KindsFrom(s.phase.unwritten, s.phase.kinds)
      && s.phase.unwritten <= s.phase.detached
      && s.phase.toRead + s.phase.rows.Keys
         == (if s.phase.kinds == [] then {} else OfKind(s.phase.unwritten, s.phase.kinds[0]))
      && forall id :: id in s.phase.rows ==> s.phase.rows[id] == Cached(s, id) || Unsaved(s, id)
  }

  /** A cached row that differs from its table row is dirty, in flight, or about to be marked. */
  ghost predicate NothingForgotten(s: State) {
    forall id :: id in s.cache && (id !in s.db || s.db[id] != s.cache[id]) ==> Unsaved(s, id) || id in InFlight(s)
  }

  /** Only cached ids are ever marked, detached or written. */
  ghost predicate OnlyCached(s: State) {
    && (forall id :: id in s.db || Unsaved(s, id) ==> id in s.cache)
    && (!s.phase.NoSave? ==> forall id :: id in s.phase.detached ==> id in s.cache)
  }

  ghost predicate Invariant(s: State) {
    NothingForgotten(s) && RowsFresh(s) && OnlyCached(s)
  }

  lemma UpdateKeepsInvariant(s: State, id: StatId, delta: int)
    requires Invariant(s)
    ensures Invariant(CacheUpdated(s, id, delta))
  {
    var t := CacheUpdated(s, id, delta);
    assert id in t.marking;
    forall i ensures Unsaved(s, i) ==> Unsaved(t, i) {
    }
  }

  lemma MarkKeepsInvariant(s: State, id: StatId)
    requires Invariant(s)
    ensures Invariant(Marked(s, id))
  {
    var t := Marked(s, id);
    forall i ensures Unsaved(s, i) <==> Unsaved(t, i) {
    }
  }

  lemma DetachKeepsInvariant(s: State)
    requires Invariant(s)
    ensures Invariant(KindDetached(s))
  {
    var t := KindDetached(s);
    forall i ensures Unsaved(s, i) || i in InFlight(s) <==> Unsaved(t, i) || i in InFlight(t) {
    }
  }

  lemma ReadKeepsInvariant(s: State, id: StatId)
    requires Invariant(s)
    ensures Invariant(RowRead(s, id))
  {
    var t := RowRead(s, id);
    if s.phase.Stage? && id in s.phase.toRead {
      assert s.phase.kinds != [];
      assert id in s.phase.detached;
      assert t.phase.toRead + t.phase.rows.Keys == s.phase.toRead + s.phase.rows.Keys;
    }
    forall i ensures Unsaved(s, i) <==> Unsaved(t, i) {
    }
  }

  lemma WriteKeepsInvariant(s: State)
    requires Invariant(s)
    ensures Invariant(StageWritten(s, true))
  {
    var t := StageWritten(s, true);
    if t != s {
      var kinds := s.phase.kinds;
      assert s.phase.rows.Keys == OfKind(s.phase.unwritten, kinds[0]);
      forall i ensures Unsaved(s, i) <==> Unsaved(t, i) {
      }
      assert kinds == [kinds[0]] + kinds[1..];
      assert KindsFrom(t.phase.unwritten, t.phase.kinds);
    }
  }

  lemma RestoreKeepsInvariant(s: State)
    requires Invariant(s)
    ensures Invariant(Restored(s))
  {
    var t := Restored(s);
    forall i ensures Unsaved(s, i) || i in InFlight(s) ==> Unsaved(t, i) || i in InFlight(t) {
    }
  }

  lemma StepKeepsInvariant(s: State, step: Step)
    requires Invariant(s)
    ensures Invariant(Next(s, step))
  {
    match step
    case UpdateCache(id, delta) => UpdateKeepsInvariant(s, id, delta);
    case MarkDirty(id) => MarkKeepsInvariant(s, id);
    case DetachKind => DetachKeepsInvariant(s);
    case ReadRow(id) => ReadKeepsInvariant(s, id);
    case WriteStage(ok) =>
      WriteKeepsInvariant(s);
      RestoreKeepsInvariant(s);
    case AbortSave => RestoreKeepsInvariant(s);
    case BeginSave =>
    case FinishSave =>
  }

  function Sum(updates: seq<(StatId, int)>, id: StatId): int {
    if updates == [] then 0
    else
      var (i, d) := updates[|updates| - 1];
      Sum(updates[..|updates| - 1], id) + (if i == id then d else 0)
  }

  ghost predicate CacheIsSum(s: State) {
    forall id :: Cached(s, id) == Sum(s.updates, id)
  }

  lemma StepKeepsCacheSum(s: State, step: Step)
    requires CacheIsSum(s)
    ensures CacheIsSum(Next(s, step))
  {
    if step.UpdateCache? {
      var t := Next(s, step);
      assert t.updates[..|t.updates| - 1] == s.updates;
    }
  }

  /** For every interleaving of updates with saves that fail at any stage: no difference between cache
      and table is ever forgotten, and the cache is the sum of the updates. */
  lemma {:induction false} SavesForgetNothing(steps: seq<Step>)
    ensures Invariant(Run(EMPTY, steps)) && CacheIsSum(Run(EMPTY, steps))
  {
    if steps != [] {
      var prefix, last := steps[..|steps| - 1], steps[|steps| - 1];
      SavesForgetNothing(prefix);
      StepKeepsInvariant(Run(EMPTY, prefix), last);
      StepKeepsCacheSum(Run(EMPTY, prefix), last);
    }
  }

  /** Once no id is dirty, in flight or about to be marked, every table row is exactly the sum of its
      updates: failed and retried saves lost nothing and counted nothing twice. */
  lemma SettledTableIsExact(steps: seq<Step>, id: StatId)
    requires var s := Run(EMPTY, steps); s.phase.NoSave? && s.dirty == {} && s.marking == multiset{}
    ensures var s := Run(EMPTY, steps);
            (id in s.db <==> id in s.cache) && (id in s.db ==> s.db[id] == Sum(s.updates, id))
  {
    SavesForgetNothing(steps);
    var s := Run(EMPTY, steps);
    assert Cached(s, id) == Sum(s.updates, id);
  }

  /** The cached rows of one kind among the ids. */
  function RowsOf(cache: map<StatId, int>, ids: set<StatId>, kind: Kind): map<StatId, int> {
    map id | id in cache && id in ids && id.kind == kind :: cache[id]
  }

  /** How far the three tables of a save get: each is written whole, in this order, up to the first failure; a
      table without rows cannot fail. */
  function TablesWritten(cache: map<StatId, int>, db: map<StatId, int>, ids: set<StatId>, channels: bool, models: bool,
                         keys: bool): (r: (map<StatId, int>, bool))
  {
    var c, m, k := RowsOf(cache, ids, ChannelStats), RowsOf(cache, ids, ModelStats), RowsOf(cache, ids, ApiKeyStats);
    if !channels && c != map[] then (db, false)
    else if !models && m != map[] then (db + c, false)
    else if !keys && k != map[] then (db + c + m, false)
    else (db + c + m + k, true)
  }

  /** The caches and tables with no request running beside the save. */
  class StatsStore {
    var cache: map<StatId, int>
    var db: map<StatId, int>
    var dirty: set<StatId>

    ghost predicate Valid()
      reads this
    {
      && (forall id :: id in dirty || id in db ==> id in cache)
      && (forall id :: id in cache && id !in dirty ==> id in db && db[id] == cache[id])
    }

    constructor ()
      ensures Valid() && cache == map[]
    {
      cache, db, dirty := map[], map[], {};
    }

    method Update(id: StatId, delta: int)
      requires Valid()
      modifies this
      ensures Valid() && db == old(db) && dirty == old(dirty) + {id}
      ensures cache == old(cache)[id := (if id in old(cache) then old(cache)[id] else 0) + delta]
    {
      var row := if id in cache then cache[id] else 0;
      cache := cache[id := row + delta];
      dirty := dirty + {id};
    }

    /** Writes the cached rows of `ids` in one statement, which is skipped when there are none. */
    method WriteRows(ids: set<StatId>, outcome: bool) returns (ok: bool)
      modifies this`db
      ensures ok == (outcome || forall id :: id in ids ==> id !in cache)
      ensures db == if ok then old(db) + map id | id in ids && id in cache :: cache[id] else old(db)
    {
      var rows := ReadRows(ids);
      if |rows| > 0 {
        assert exists id :: id in rows;
        if !outcome {
          return false;
        }
        db := db + rows;
        return true;
      }
      assert rows == map[];
      assert forall id :: id in ids ==> id !in cache;
      return true;
    }

    method ReadRows(ids: set<StatId>) returns (rows: map<StatId, int>)
      ensures rows == map id | id in ids && id in cache :: cache[id]
      ensures forall id :: id in ids && id in cache ==> id in rows
    {
      rows := map[];
      var todo := ids;
      while todo != {}
        invariant todo <= ids
        invariant rows == map id | id in ids - todo && id in cache :: cache[id]
        decreases todo
      {
        var id :| id in todo;
        if id in cache {
          rows := rows[id := cache[id]];
        }
        todo := todo - {id};
      }
    }

    /** One save; `outcomes` are the results of its five stages: total and daily rows, the three tables,
        and the hourly ledgers. A failed save puts every detached id back; a successful one leaves table
        and cache equal. */
    method Save(outcomes: (bool, bool, bool, bool, bool)) returns (ok: bool)
      requires Valid()
      modifies this
      ensures Valid() && cache == old(cache)
      ensures var tables := TablesWritten(old(cache), old(db), old(dirty), outcomes.1, outcomes.2, outcomes.3);
              && ok == (outcomes.0 && tables.1 && outcomes.4)
              && db == if outcomes.0 then tables.0 else old(db)
      ensures ok ==> dirty == {} && db == cache
      ensures !ok ==> dirty == old(dirty)
      ensures forall id :: id in db ==> (id in old(db) && db[id] == old(db)[id]) || db[id] == cache[id]
      ensures outcomes == (true, true, true, true, true) ==> ok
    {
      var detached := dirty;
      dirty := {};
      ok := outcomes.0;
      if ok {
        ok := WriteTables(detached, outcomes.1, outcomes.2, outcomes.3);
      }
      ok := ok && outcomes.4;
      if !ok {
        dirty := dirty + detached;
      }
    }

    /** The three tables in turn, stopping at the first failure; only cached rows of `ids` are written. */
    method WriteTables(ids: set<StatId>, channels: bool, models: bool, keys: bool) returns (ok: bool)
      modifies this`db
      ensures old(db).Keys <= db.Keys
      ensures forall id :: id in db ==>
              (id in old(db) && db[id] == old(db)[id]) || (id in ids && id in cache && db[id] == cache[id])
      ensures ok ==> forall id :: id in ids && id in cache ==> id in db && db[id] == cache[id]
      ensures channels && models && keys ==> ok
      ensures (db, ok) == TablesWritten(cache, old(db), ids, channels, models, keys)
    {
      KindRows(cache, ids);
      ok := WriteRows(OfKind(ids, ChannelStats), channels);
      if ok {
        ok := WriteRows(OfKind(ids, ModelStats), models);
      }
      if ok {
        ok := WriteRows(OfKind(ids, ApiKeyStats), keys);
      }
    }
  }

  lemma KindRows(cache: map<StatId, int>, ids: set<StatId>)
    ensures forall kind ::
              && (map id | id in OfKind(ids, kind) && id in cache :: cache[id]) == RowsOf(cache, ids, kind)
              && ((forall id :: id in OfKind(ids, kind) ==> id !in cache) <==> RowsOf(cache, ids, kind) == map[])
  {
    forall kind
      ensures (map id | id in OfKind(ids, kind) && id in cache :: cache[id]) == RowsOf(cache, ids, kind)
      ensures (forall id :: id in OfKind(ids, kind) ==> id !in cache) <==> RowsOf(cache, ids, kind) == map[]
    {
      forall id | id in OfKind(ids, kind) && id in cache ensures RowsOf(cache, ids, kind) != map[] {
        assert id in RowsOf(cache, ids, kind);
      }
    }
  }

  // ----- day rollover -----

  /** One day's counter; days are numbered in calendar order. */
  datatype Day = Day(date: int, total: int)

  function DaySum(updates: seq<Day>, date: int): int {
    if updates == [] then 0
    else
      var u := updates[|updates| - 1];
      DaySum(updates[..|updates| - 1], date) + (if u.date == date then u.total else 0)
  }

  lemma DaySumAppend(updates: seq<Day>, u: Day, date: int)
    ensures DaySum(updates + [u], date) == DaySum(updates, date) + (if u.date == date then u.total else 0)
  {
    assert (updates + [u])[..|updates|] == updates;
  }

  /** The table after the days were stored one after another. */
  function WithDays(db: map<int, int>, days: seq<Day>): map<int, int> {
    if days == [] then db else WithDays(db, days[..|days| - 1])[days[|days| - 1].date := days[|days| - 1].total]
  }

  /** No update is lost: the current day is exact in memory, every earlier day that had updates is exact
      in its queued snapshot or in the table. */
  ghost predicate NoDayLost(today: Day, queue: seq<Day>, db: map<int, int>, updates: seq<Day>) {
    && today.total == DaySum(updates, today.date)
    && (forall u :: u in updates ==> u.date <= today.date)
    && (forall d :: d in queue ==> d.date < today.date && d.total == DaySum(updates, d.date))
    && (forall u :: u in updates && u.date < today.date ==> Kept(u.date, queue, db, updates))
  }

  ghost predicate Kept(date: int, queue: seq<Day>, db: map<int, int>, updates: seq<Day>) {
    (exists d :: d in queue && d.date == date) || (date in db && db[date] == DaySum(updates, date))
  }

  lemma SameDayKeeps(today: Day, queue: seq<Day>, db: map<int, int>, updates: seq<Day>, amount: int)
    requires NoDayLost(today, queue, db, updates)
    ensures NoDayLost(Day(today.date, today.total + amount), queue, db, updates + [Day(today.date, amount)])
  {
    var u := Day(today.date, amount);
    forall date
      ensures DaySum(updates + [u], date) == DaySum(updates, date) + (if date == today.date then amount else 0) {
      DaySumAppend(updates, u, date);
    }
    forall x | x in updates + [u] && x.date < today.date ensures Kept(x.date, queue, db, updates + [u]) {
      assert Kept(x.date, queue, db, updates);
    }
  }

  /** The finished day goes to the table, to the queue, or to both. */
  lemma NewDayKeeps(today: Day, queue: seq<Day>, db: map<int, int>, updates: seq<Day>, u: Day,
                    queue': seq<Day>, db': map<int, int>)
    requires NoDayLost(today, queue, db, updates) && u.date > today.date
    requires queue' == queue + [today] || queue' == queue
    requires db' == db[today.date := today.total] || db' == db
    requires queue' == queue + [today] || db' == db[today.date := today.total]
    ensures NoDayLost(u, queue', db', updates + [u])
  {
    forall date ensures DaySum(updates + [u], date) == DaySum(updates, date) + (if date == u.date then u.total else 0) {
      DaySumAppend(updates, u, date);
    }
    NoUpdates(updates, u.date);
    forall x | x in updates + [u] && x.date < u.date ensures Kept(x.date, queue', db', updates + [u]) {
      if x.date == today.date {
        assert queue' == queue + [today] ==> today in queue';
      } else {
        assert Kept(x.date, queue, db, updates);
        assert forall d :: d in queue ==> d in queue';
      }
    }
  }

  lemma StoredDayKeeps(today: Day, first: Day, rest: seq<Day>, db: map<int, int>, updates: seq<Day>)
    requires NoDayLost(today, [first] + rest, db, updates)
    ensures NoDayLost(today, rest, db[first.date := first.total], updates)
  {
    var stored := db[first.date := first.total];
    assert first in [first] + rest;
    forall d | d in rest ensures d.date < today.date && d.total == DaySum(updates, d.date) {
      assert d in [first] + rest;
    }
    forall u | u in updates && u.date < today.date ensures Kept(u.date, rest, stored, updates) {
      assert Kept(u.date, [first] + rest, db, updates);
    }
  }

  lemma StoreNext(today: Day, days: seq<Day>, i: nat, db: map<int, int>, was: map<int, int>, updates: seq<Day>)
    requires i < |days| && NoDayLost(today, days[i..], db, updates) && db == WithDays(was, days[..i])
    ensures var stored := db[days[i].date := days[i].total];
            NoDayLost(today, days[i + 1..], stored, updates) && stored == WithDays(was, days[..i + 1])
  {
    assert days[i..] == [days[i]] + days[i + 1..];
    assert days[..i + 1][..i] == days[..i];
    StoredDayKeeps(today, days[i], days[i + 1..], db, updates);
  }

  /** The current day in memory, finished days whose snapshot could not be stored, and the table. */
  class DailyStats {
    var today: Day
    var queue: seq<Day>
    var db: map<int, int>
    ghost var updates: seq<Day>

    ghost predicate Valid()
      reads this
    {
      NoDayLost(today, queue, db, updates)
    }

    constructor (date: int)
      ensures Valid() && today == Day(date, 0)
    {
      today, queue, db, updates := Day(date, 0), [], map[], [];
    }

    /** One request's update on day `date`. When the day changes the finished day is saved at once;
        `rowSaved` says whether its own row got stored, `ok` whether the whole save succeeded. */
    method Update(date: int, amount: int, rowSaved: bool, ok: bool)
      requires Valid() && date >= today.date
      requires ok ==> rowSaved
      modifies this
      ensures Valid() && updates == old(updates) + [Day(date, amount)]
      ensures today == Day(date, DaySum(updates, date))
      ensures var finished := old(today);
              && queue == (if date > finished.date && !ok then old(queue) + [finished] else old(queue))
              && db == if date > finished.date && rowSaved then old(db)[finished.date := finished.total] else old(db)
    {
      if today.date == date {
        SameDayKeeps(today, queue, db, updates, amount);
        today, updates := Day(date, today.total + amount), updates + [Day(date, amount)];
      } else {
        Rollover(Day(date, amount), rowSaved, ok);
      }
    }

    method Rollover(next: Day, rowSaved: bool, ok: bool)
      requires Valid() && next.date > today.date && (ok ==> rowSaved)
      modifies this
      ensures Valid() && updates == old(updates) + [next] && today == next
      ensures queue == (if !ok then old(queue) + [old(today)] else old(queue))
      ensures db == if rowSaved then old(db)[old(today).date := old(today).total] else old(db)
    {
      var nextQueue := if !ok then queue + [today] else queue;
      var nextDb := if rowSaved then db[today.date := today.total] else db;
      NewDayKeeps(today, queue, db, updates, next, nextQueue, nextDb);
      today, queue, db, updates := next, nextQueue, nextDb, updates + [next];
    }

    /** The regular save of the current day. */
    method SaveToday(ok: bool)
      requires Valid()
      modifies this`db
      ensures Valid()
      ensures db == if ok then old(db)[today.date := today.total] else old(db)
    {
      if ok {
        db := db[today.date := today.total];
      }
    }

    /** Stores days in order until one fails; `stored` is how many got through. */
    method StoreDays(days: seq<Day>, outcomes: nat -> bool) returns (stored: nat)
      requires NoDayLost(today, days, db, updates)
      modifies this`db
      ensures stored <= |days| && NoDayLost(today, days[stored..], db, updates)
      ensures db == WithDays(old(db), days[..stored])
      ensures stored < |days| ==> !outcomes(stored)
    {
      stored := 0;
      while stored < |days|
        invariant stored <= |days| && NoDayLost(today, days[stored..], db, updates)
        invariant db == WithDays(old(db), days[..stored])
      {
        if !outcomes(stored) {
          return;
        }
        StoreNext(today, days, stored, db, old(db), updates);
        db := db[days[stored].date := days[stored].total];
        stored := stored + 1;
      }
    }

    /** Stores the queued days; at the first failure the rest goes back in front of the days queued
        meanwhile (`arrivals`). */
    method FlushQueue(outcomes: nat -> bool, arrivals: seq<Day>) returns (ok: bool, stored: nat)
      requires Valid()
      requires forall d :: d in arrivals ==> d.date < today.date && d.total == DaySum(updates, d.date)
      modifies this`db, this`queue
      ensures Valid()
      ensures stored <= |old(queue)| && queue == old(queue)[stored..] + arrivals && (ok <==> stored == |old(queue)|)
      ensures db == WithDays(old(db), old(queue)[..stored])
      ensures (forall i: nat :: outcomes(i)) ==> ok
    {
      var pending := queue;
      queue := arrivals;
      stored := StoreDays(pending, outcomes);
      ok := stored == |pending|;
      ArrivalsKeep(today, pending[stored..], arrivals, db, updates);
      queue := pending[stored..] + queue;
    }
  }

  lemma ArrivalsKeep(today: Day, left: seq<Day>, arrivals: seq<Day>, db: map<int, int>, updates: seq<Day>)
    requires NoDayLost(today, left, db, updates)
    requires forall d :: d in arrivals ==> d.date < today.date && d.total == DaySum(updates, d.date)
    ensures NoDayLost(today, left + arrivals, db, updates)
  {
    forall u | u in updates && u.date < today.date ensures Kept(u.date, left + arrivals, db, updates) {
      assert Kept(u.date, left, db, updates);
      assert forall d :: d in left ==> d in left + arrivals;
    }
  }

  lemma {:induction false} NoUpdates(updates: seq<Day>, date: int)
    requires forall u :: u in updates ==> u.date < date
    ensures DaySum(updates, date) == 0
  {
    if updates != [] {
      assert updates[|updates| - 1] in updates;
      assert forall u :: u in updates[..|updates| - 1] ==> u in updates;
      NoUpdates(updates[..|updates| - 1], date);
    }
  }
}
