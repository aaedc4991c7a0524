/** Listing relay logs: rows still queued, newest first, followed by the table ordered by
    (time, id) descending, in pages or by cursor. The table is given as the sequence of its rows
    in that order. */
module RelayLogListing {
  import opened Selecting
  import opened RelayLogs
  import opened RelayLogQueue
  import opened LikeFilter
  import opened Wrappers

  /** relayLogBeforeCursor, and the WHERE clause of applyRelayLogCursor, for any subset of the two bounds. */
  predicate BeforeBounds(log: RelayLog, beforeTime: Option<int>, beforeId: Option<int>) {
    if beforeTime.None? && beforeId.None? then true
    else if beforeTime.Some? && beforeId.Some? then KeyLess(KeyOf(log), Cursor(beforeTime.value, beforeId.value))
    else if beforeTime.Some? then log.time < beforeTime.value
    else beforeId.None? || log.id < beforeId.value
  }

  function Before(beforeTime: Option<int>, beforeId: Option<int>): RelayLog -> bool {
    (log: RelayLog) => BeforeBounds(log, beforeTime, beforeId)
  }

  function Older(logs: seq<RelayLog>, beforeTime: Option<int>, beforeId: Option<int>): seq<RelayLog> {
    Select(logs, Before(beforeTime, beforeId))
  }

  function Reversed(logs: seq<RelayLog>): seq<RelayLog> {
    if logs == [] then [] else Reversed(logs[1..]) + [logs[0]]
  }

  function Matcher(f: Filter): RelayLog -> bool {
    (log: RelayLog) => MatchesFilter(log, f)
  }

  function SqlMatcher(f: Filter): RelayLog -> bool {
    (log: RelayLog) => SqlFilter(log, f)
  }

  function Matching(logs: seq<RelayLog>, f: Filter): seq<RelayLog> {
    Select(logs, Matcher(f))
  }

  function SqlMatching(rows: seq<RelayLog>, f: Filter): seq<RelayLog> {
    Select(rows, SqlMatcher(f))
  }

  /** The table selects what the in-memory filter would, so flushing a row changes no listing. */
  lemma SqlMatchingIsMatching(rows: seq<RelayLog>, f: Filter)
    requires forall row :: row in rows ==> SameLowering(row, f)
    ensures SqlMatching(rows, f) == Matching(rows, f)
  {
    forall row | row in rows ensures SqlMatcher(f)(row) == Matcher(f)(row) {
      FiltersAgree(row, f);
    }
    SelectAlike(rows, SqlMatcher(f), Matcher(f));
  }

  lemma {:induction false} ReversedElements(logs: seq<RelayLog>)
    ensures forall log :: log in Reversed(logs) <==> log in logs
  {
    if logs != [] {
      ReversedElements(logs[1..]);
      assert logs == [logs[0]] + logs[1..];
    }
  }

  lemma OlderSubset(logs: seq<RelayLog>, bt: Option<int>, bi: Option<int>)
    ensures forall log :: log in Older(logs, bt, bi) <==> log in logs && BeforeBounds(log, bt, bi)
  {
    SelectElements(logs, Before(bt, bi));
  }

  function Take<T>(s: seq<T>, n: nat): seq<T> {
    if n <= |s| then s[..n] else s
  }

  /** Every match of an unchanged store, in listing order. */
  function Listed(queued: seq<RelayLog>, rows: seq<RelayLog>, f: Filter): seq<RelayLog> {
    Matching(Reversed(queued), f) + SqlMatching(rows, f)
  }

  method CollectPending(queued: seq<RelayLog>, f: Filter) returns (result: seq<RelayLog>)
    ensures result == Matching(Reversed(queued), f)
  {
    result := [];
    var i := |queued|;
    while i > 0
      invariant 0 <= i <= |queued|
      invariant result == Matching(Reversed(queued[i..]), f)
    {
      i := i - 1;
      assert queued[i..][1..] == queued[i + 1..];
      SelectAppend(Reversed(queued[i + 1..]), queued[i], Matcher(f));
      if MatchesFilter(queued[i], f) {
        result := result + [queued[i]];
      }
    }
    assert queued[0..] == queued;
  }

  /** appendDedupedByID: table rows already seen in memory are skipped. */
  method AppendDedupedById(logs: seq<RelayLog>, cached: seq<RelayLog>, rows: seq<RelayLog>)
    returns (result: seq<RelayLog>)
    ensures result == logs + WithoutIds(rows, Ids(cached))
  {
    result := logs;
    var seen := Ids(cached);
    for i := 0 to |rows|
      invariant result == logs + WithoutIds(rows[..i], seen)
    {
      SelectNext(rows, i, NotIn(seen));
      if rows[i].id !in seen {
        result := result + [rows[i]];
      }
    }
    assert rows[..|rows|] == rows;
  }

  // ----- page mode -----

  function Slice<T>(s: seq<T>, offset: nat, count: nat): seq<T> {
    if offset <= |s| then Take(s[offset..], count) else []
  }

  function Clamped(value: int, low: int, high: int, fallback: int): int {
    if value < low || value > high then fallback else value
  }

  lemma SliceSplits<T>(a: seq<T>, b: seq<T>, offset: nat, size: nat)
    ensures var head := Slice(a, offset, size);
            |head| <= size
            && Slice(a + b, offset, size) == head + Slice(b, if offset > |a| then offset - |a| else 0, size - |head|)
  {
    var head := Slice(a, offset, size);
    if offset <= |a| {
      assert (a + b)[offset..] == a[offset..] + b;
      assert Take(a[offset..] + b, size) == head + Take(b, size - |head|);
      assert b[0..] == b;
    } else if offset <= |a| + |b| {
      assert (a + b)[offset..] == b[offset - |a|..];
    }
  }

  /** How many matches lie before a page; pages are numbered from 0 here. */
  function PageOffset(number: nat, size: nat): nat {
    number * size
  }

  /** What a page request answers for the matches held in memory and in the table: the slice of the first,
      filled up with table rows whose ids are not in memory. */
  function PageAnswer(cached: seq<RelayLog>, stored: seq<RelayLog>, offset: nat, size: nat): seq<RelayLog> {
    var head := Slice(cached, offset, size);
    head + WithoutIds(Slice(stored, if offset > |cached| then offset - |cached| else 0, size - |head|), Ids(cached))
  }

  /** Where the requested page begins, pages counting from 1. */
  function Requested(page: int, pageSize: int): nat {
    PageOffset((if page < 1 then 1 else page) - 1, Clamped(pageSize, 1, 100, 20))
  }

  /** What a page request answers, whatever page number and size it asks for. */
  function RequestAnswer(queued: seq<RelayLog>, rows: seq<RelayLog>, f: Filter, page: int,
                         pageSize: int): seq<RelayLog> {
    PageAnswer(Matching(Reversed(queued), f), SqlMatching(rows, f), Requested(page, pageSize),
               Clamped(pageSize, 1, 100, 20))
  }

  /** One page request. `counted` is the table as the count saw it, `rows` as the page did: two statements. With
      logging disabled the recent buffer takes the place of the queue and the table is empty. */
  method ListPage(queued: seq<RelayLog>, rows: seq<RelayLog>, counted: seq<RelayLog>, f: Filter, page: int,
                  pageSize: int,
                  withTotal: bool)
    returns (logs: seq<RelayLog>, total: int)
    ensures logs == RequestAnswer(queued, rows, f, page, pageSize)
    ensures total == if withTotal then |Listed(queued, counted, f)| else 0
    ensures Ids(queued) !! Ids(rows) ==>
              logs == Slice(Listed(queued, rows, f), Requested(page, pageSize), Clamped(pageSize, 1, 100, 20))
  {
    var number: int := if page < 1 then 1 else page;
    var size: int := Clamped(pageSize, 1, 100, 20);
    var cached := CollectPending(queued, f);
    var stored := SqlMatching(rows, f);
    var offset := PageOffset(number - 1, size);
    assert offset == Requested(page, pageSize);
    logs := CutPage(cached, stored, offset, size);
    total := if withTotal then |cached| + |SqlMatching(counted, f)| else 0;
    DisjointPage(queued, rows, f, offset, size);
  }

  lemma DisjointPage(queued: seq<RelayLog>, rows: seq<RelayLog>, f: Filter, offset: nat, size: nat)
    ensures Ids(queued) !! Ids(rows) ==>
              PageAnswer(Matching(Reversed(queued), f), SqlMatching(rows, f), offset, size)
              == Slice(Listed(queued, rows, f), offset, size)
  {
    if Ids(queued) !! Ids(rows) {
      MatchesDisjoint(queued, rows, f);
      PageOfOneList(Matching(Reversed(queued), f), SqlMatching(rows, f), offset, size);
    }
  }

  method CutPage(cached: seq<RelayLog>, stored: seq<RelayLog>, offset: nat, size: nat) returns (logs: seq<RelayLog>)
    ensures logs == PageAnswer(cached, stored, offset, size)
  {
    logs := [];
    if offset < |cached| {
      var cacheEnd := if offset + size > |cached| then |cached| else offset + size;
      logs := cached[offset..cacheEnd];
    }
    assert logs == Slice(cached, offset, size);
    var remaining := size - |logs|;
    if remaining > 0 {
      var dbOffset := if offset > |cached| then offset - |cached| else 0;
      logs := AppendDedupedById(logs, cached, Slice(stored, dbOffset, remaining));
    } else {
      assert logs + [] == logs;
    }
  }

  /** With queue and table disjoint a page is the slice of one list. */
  lemma PageOfOneList(cached: seq<RelayLog>, stored: seq<RelayLog>, offset: nat, size: nat)
    requires forall a, b :: a in cached && b in stored ==> a.id != b.id
    ensures PageAnswer(cached, stored, offset, size) == Slice(cached + stored, offset, size)
  {
    SliceSplits(cached, stored, offset, size);
    var from := if offset > |cached| then offset - |cached| else 0;
    NothingToDedupe(cached, Slice(stored, from, size - |Slice(cached, offset, size)|));
  }

  ghost predicate PageExact(cached: seq<RelayLog>, stored: seq<RelayLog>, offset: nat, size: nat) {
    PageAnswer(cached, stored, offset, size) == Slice(cached + WithoutIds(stored, Ids(cached)), offset, size)
  }

  /** Every page of every size is the slice of the distinct matches that a reader expects. */
  ghost predicate PagesExact(cached: seq<RelayLog>, stored: seq<RelayLog>) {
    forall number: nat, size: nat :: 1 <= size <= 100 ==> PageExact(cached, stored, PageOffset(number, size), size)
  }

  /** Rows also held in memory come after all others. */
  ghost predicate RepeatsLast(stored: seq<RelayLog>, ids: set<int>) {
    forall i, j :: 0 <= i < j < |stored| && stored[i].id in ids ==> stored[j].id in ids
  }

  /** Row `n` is the first one also held in memory, and a row that is not follows it. */
  ghost predicate RepeatedFrom(stored: seq<RelayLog>, ids: set<int>, n: nat) {
    && n < |stored| && stored[n].id in ids
    && (forall row :: row in stored[..n] ==> row.id !in ids)
    && exists row :: row in stored[n..] && row.id !in ids
  }

  lemma FirstRepeat(stored: seq<RelayLog>, ids: set<int>) returns (n: nat)
    ensures n <= |stored| && (forall row :: row in stored[..n] ==> row.id !in ids)
    ensures n < |stored| ==> stored[n].id in ids
    ensures !RepeatsLast(stored, ids) ==> RepeatedFrom(stored, ids, n)
    ensures RepeatsLast(stored, ids) <==> forall row :: row in stored[n..] ==> row.id in ids
  {
    n := 0;
    while n < |stored| && stored[n].id !in ids
      invariant n <= |stored| && forall row :: row in stored[..n] ==> row.id !in ids
    {
      assert stored[..n + 1] == stored[..n] + [stored[n]];
      n := n + 1;
    }
    var behind := stored[n..];
    if forall row :: row in behind ==> row.id in ids {
      forall i, j | 0 <= i < j < |stored| && stored[i].id in ids ensures stored[j].id in ids {
        assert forall k :: 0 <= k < n ==> stored[..n][k] == stored[k];
        assert stored[j] == behind[j - n];
      }
    } else {
      var k :| 0 <= k < |behind| && behind[k].id !in ids;
      assert stored[n + k] == behind[k];
    }
  }

  lemma FollowedRepeat(stored: seq<RelayLog>, ids: set<int>) returns (n: nat)
    requires !RepeatsLast(stored, ids)
    ensures RepeatedFrom(stored, ids, n)
  {
    n := FirstRepeat(stored, ids);
  }

  lemma WithoutRepeats(kept: seq<RelayLog>, repeats: seq<RelayLog>, ids: set<int>)
    requires forall row :: row in kept ==> row.id !in ids
    requires forall row :: row in repeats ==> row.id in ids
    ensures WithoutIds(kept + repeats, ids) == kept
  {
    SelectConcat(kept, repeats, NotIn(ids));
    WithoutIdsKeepsAll(kept, ids);
    WithoutIdsDropsAll(repeats, ids);
  }

  lemma SliceElements<T>(s: seq<T>, offset: nat, count: nat)
    ensures forall x :: x in Slice(s, offset, count) ==> x in s
  {
  }

  /** Cutting first and dropping the repeats then is cutting what is left without them. */
  lemma SliceWithoutRepeats(kept: seq<RelayLog>, repeats: seq<RelayLog>, ids: set<int>, from: nat, room: nat)
    requires forall row :: row in kept ==> row.id !in ids
    requires forall row :: row in repeats ==> row.id in ids
    ensures WithoutIds(Slice(kept + repeats, from, room), ids) == Slice(kept, from, room)
  {
    SliceSplits(kept, repeats, from, room);
    var mine := Slice(kept, from, room);
    var behind: nat := if from > |kept| then from - |kept| else 0;
    SliceElements(kept, from, room);
    SliceElements(repeats, behind, room - |mine|);
    WithoutRepeats(mine, Slice(repeats, behind, room - |mine|), ids);
  }

  lemma RepeatsLastGivesPage(cached: seq<RelayLog>, kept: seq<RelayLog>, repeats: seq<RelayLog>, offset: nat, size: nat)
    requires forall row :: row in kept ==> row.id !in Ids(cached)
    requires forall row :: row in repeats ==> row.id in Ids(cached)
    ensures PageExact(cached, kept + repeats, offset, size)
  {
    WithoutRepeats(kept, repeats, Ids(cached));
    SliceSplits(cached, kept, offset, size);
    SliceWithoutRepeats(kept, repeats, Ids(cached), if offset > |cached| then offset - |cached| else 0,
                        size - |Slice(cached, offset, size)|);
  }

  lemma RepeatCutsPage(cached: seq<RelayLog>, stored: seq<RelayLog>, n: nat)
    requires RepeatedFrom(stored, Ids(cached), n)
    ensures !PageExact(cached, stored, |cached| + n, 1)
  {
    MoreNewRows(stored, n, Ids(cached));
    NothingAnswered(cached, stored, n);
    assert |Slice(cached + WithoutIds(stored, Ids(cached)), |cached| + n, 1)| == 1;
  }

  lemma MoreNewRows(stored: seq<RelayLog>, n: nat, ids: set<int>)
    requires n <= |stored| && forall row :: row in stored[..n] ==> row.id !in ids
    requires exists row :: row in stored[n..] && row.id !in ids
    ensures |WithoutIds(stored, ids)| > n
  {
    assert stored == stored[..n] + stored[n..];
    SelectConcat(stored[..n], stored[n..], NotIn(ids));
    WithoutIdsKeepsAll(stored[..n], ids);
    WithoutIdsDropsAll(stored[n..], ids);
  }

  lemma NothingAnswered(cached: seq<RelayLog>, stored: seq<RelayLog>, n: nat)
    requires n < |stored| && stored[n].id in Ids(cached)
    ensures PageAnswer(cached, stored, |cached| + n, 1) == []
  {
    assert Slice(stored, n, 1) == [stored[n]];
    SelectOne(stored[n], NotIn(Ids(cached)));
  }

  /** Exactly when every page is right although a flushed batch is visible in both places: no row that is
      only in the table is listed behind a row that is also in memory. Otherwise some page is cut short. */
  lemma PagesExactExactlyWhen(cached: seq<RelayLog>, stored: seq<RelayLog>)
    ensures PagesExact(cached, stored) <==> RepeatsLast(stored, Ids(cached))
  {
    if RepeatsLast(stored, Ids(cached)) {
      RepeatsLastKeepsPages(cached, stored);
    } else {
      var number := CutShort(cached, stored);
      WrongPageIsSome(cached, stored, number);
    }
  }

  lemma RepeatsLastKeepsPages(cached: seq<RelayLog>, stored: seq<RelayLog>)
    requires RepeatsLast(stored, Ids(cached))
    ensures PagesExact(cached, stored)
  {
    forall number: nat, size: nat | 1 <= size <= 100
      ensures PageExact(cached, stored, PageOffset(number, size), size)
    {
      RepeatsLastIsExact(cached, stored, PageOffset(number, size), size);
    }
  }

  lemma CutShort(cached: seq<RelayLog>, stored: seq<RelayLog>) returns (number: nat)
    requires !RepeatsLast(stored, Ids(cached))
    ensures !PageExact(cached, stored, number, 1)
  {
    var n := FollowedRepeat(stored, Ids(cached));
    RepeatCutsPage(cached, stored, n);
    number := |cached| + n;
  }

  lemma WrongPageIsSome(cached: seq<RelayLog>, stored: seq<RelayLog>, number: nat)
    requires !PageExact(cached, stored, number, 1)
    ensures !PagesExact(cached, stored)
  {
    PageOfOne(number);
    assert !PageExact(cached, stored, PageOffset(number, 1), 1);
  }

  lemma PageOfOne(number: nat)
    ensures PageOffset(number, 1) == number
  {
  }

  lemma RepeatsLastIsExact(cached: seq<RelayLog>, stored: seq<RelayLog>, offset: nat, size: nat)
    requires RepeatsLast(stored, Ids(cached))
    ensures PageExact(cached, stored, offset, size)
  {
    var n := FirstRepeat(stored, Ids(cached));
    assert stored == stored[..n] + stored[n..];
    RepeatsLastGivesPage(cached, stored[..n], stored[n..], offset, size);
  }

  lemma NothingToDedupe(cached: seq<RelayLog>, rows: seq<RelayLog>)
    ensures WithoutIds(rows, Ids(cached)) == rows <==> forall a, b :: a in cached && b in rows ==> a.id != b.id
  {
    WithoutIdsKeepsAll(rows, Ids(cached));
    if forall a, b :: a in cached && b in rows ==> a.id != b.id {
      assert forall b :: b in rows ==> b.id !in Ids(cached);
    } else {
      var a, b :| a in cached && b in rows && a.id == b.id;
      assert b.id in Ids(cached);
    }
  }

  lemma MatchesDisjoint(queued: seq<RelayLog>, rows: seq<RelayLog>, f: Filter)
    requires Ids(queued) !! Ids(rows)
    ensures forall a, b :: a in Matching(Reversed(queued), f) && b in SqlMatching(rows, f) ==> a.id != b.id
  {
    SelectElements(Reversed(queued), Matcher(f));
    ReversedElements(queued);
    SelectElements(rows, SqlMatcher(f));
    forall a, b | a in Matching(Reversed(queued), f) && b in SqlMatching(rows, f) ensures a.id != b.id {
      assert a.id in Ids(queued) && b.id in Ids(rows);
    }
  }

  function Pages(all: seq<RelayLog>, size: nat, count: nat): seq<RelayLog> {
    if count == 0 then [] else Pages(all, size, count - 1) + Slice(all, (count - 1) * size, size)
  }

  /** The first `count` pages laid end to end are a prefix of the list: no match skipped or repeated. */
  lemma {:induction false} PagesTile(all: seq<RelayLog>, size: nat, count: nat)
    ensures Pages(all, size, count) == Take(all, count * size)
  {
    if count > 0 {
      PagesTile(all, size, count - 1);
      TakeMore(all, (count - 1) * size, size);
      assert count * size == (count - 1) * size + size;
    }
  }

  lemma TakeMore<T>(all: seq<T>, offset: nat, size: nat)
    ensures Take(all, offset) + Slice(all, offset, size) == Take(all, offset + size)
  {
    if offset <= |all| {
      assert all == all[..offset] + all[offset..];
    }
  }

  /** The rows of `logs` whose id is in `ids`. */
  function Repeats(logs: seq<RelayLog>, ids: set<int>): nat {
    WithoutIdsKeepsAll(logs, ids);
    |logs| - |WithoutIds(logs, ids)|
  }

  /** What a page request sees of the table: the rows it skips, the rows it reads, and those behind. */
  datatype View = View(before: seq<RelayLog>, read: seq<RelayLog>, behind: seq<RelayLog>)

  function ViewOf(stored: seq<RelayLog>, from: nat, room: nat): View {
    if from > |stored| then View(stored, [], [])
    else if from + room > |stored| then View(stored[..from], stored[from..], [])
    else View(stored[..from], stored[from..from + room], stored[from + room..])
  }

  /** The exact condition for one page: nothing skipped is repeated in memory, and no row read is, or
      nothing new lies behind; or rows were repeated before the page, and the page is rightly empty. */
  predicate PageRight(v: View, ids: set<int>, room: nat) {
    || room == 0
    || (Repeats(v.before, ids) == 0 && (Repeats(v.read, ids) == 0 || WithoutIds(v.behind, ids) == []))
    || (Repeats(v.before, ids) > 0 && WithoutIds(v.read, ids) == []
        && |WithoutIds(v.behind, ids)| <= Repeats(v.before, ids))
  }

  lemma ViewSplits(stored: seq<RelayLog>, from: nat, room: nat, ids: set<int>)
    ensures var v := ViewOf(stored, from, room);
            && stored == v.before + (v.read + v.behind) && Slice(stored, from, room) == v.read
            && WithoutIds(stored, ids)
                == WithoutIds(v.before, ids) + (WithoutIds(v.read, ids) + WithoutIds(v.behind, ids))
            && (|v.before| == from || (|v.before| <= from && v.read == [] && v.behind == []))
            && |v.read| <= room && (v.behind != [] ==> |v.read| == room)
  {
    var v := ViewOf(stored, from, room);
    if from <= |stored| {
      assert stored == stored[..from] + stored[from..];
      if from + room <= |stored| {
        assert stored[from..] == stored[from..from + room] + stored[from + room..];
        assert stored[from..][..room] == stored[from..from + room];
      }
    }
    SelectConcat(v.before, v.read + v.behind, NotIn(ids));
    SelectConcat(v.read, v.behind, NotIn(ids));
  }

  lemma {:induction false} DistinctWithoutIds(logs: seq<RelayLog>, ids: set<int>)
    requires DistinctIds(logs)
    ensures DistinctIds(WithoutIds(logs, ids))
    ensures forall log :: log in WithoutIds(logs, ids) ==> log in logs
  {
    if logs != [] {
      var rest := WithoutIds(logs[1..], ids);
      assert logs == [logs[0]] + logs[1..];
      DistinctWithoutIds(logs[1..], ids);
      forall j | 0 <= j < |rest| ensures logs[0].id != rest[j].id {
        assert rest[j] in rest;
        var i :| 0 <= i < |logs[1..]| && logs[1..][i] == rest[j];
        assert logs[i + 1] == rest[j];
      }
    }
  }

  /** `old` rows, then `got + more`: reading `got` where the slice starts `skew` rows late. */
  lemma SkewedSlice(old': seq<RelayLog>, got: seq<RelayLog>, more: seq<RelayLog>, skew: nat, room: nat)
    requires DistinctIds(old' + (got + more)) && |got| <= room && room > 0
    ensures got == Slice(old' + (got + more), |old'| + skew, room) <==>
            if skew == 0 then |got| == room || more == [] else got == [] && |more| <= skew
  {
    var all := old' + (got + more);
    var expected := Slice(all, |old'| + skew, room);
    if |got + more| <= skew {
      assert expected == [];
    } else {
      assert all[|old'| + skew..] == (got + more)[skew..];
      assert expected[0] == (got + more)[skew] == all[|old'| + skew];
      if skew == 0 {
        if more == [] {
          assert got + more == got;
        } else if |got| < room {
          assert |expected| > |got|;
        }
      } else if got != [] {
        assert got[0] == all[|old'|];
      }
    }
  }

  /** One page request over overlapping sources is right if and only if `PageRight`; the table's ids are unique. */
  lemma PageExactExactlyWhen(cached: seq<RelayLog>, stored: seq<RelayLog>, offset: nat, size: nat)
    requires DistinctIds(stored)
    ensures var room := size - |Slice(cached, offset, size)|;
            PageExact(cached, stored, offset, size) <==>
            PageRight(ViewOf(stored, if offset > |cached| then offset - |cached| else 0, room), Ids(cached), room)
  {
    var from: nat := if offset > |cached| then offset - |cached| else 0;
    var room: nat := size - |Slice(cached, offset, size)|;
    PageExactRead(cached, stored, offset, size, from, room);
    ReadExactlyWhen(stored, Ids(cached), from, room);
  }

  /** Reading first and dropping the repeats then is reading what is left without them. */
  predicate ReadExact(stored: seq<RelayLog>, ids: set<int>, from: nat, room: nat) {
    WithoutIds(Slice(stored, from, room), ids) == Slice(WithoutIds(stored, ids), from, room)
  }

  lemma PageExactRead(cached: seq<RelayLog>, stored: seq<RelayLog>, offset: nat, size: nat, from: nat, room: nat)
    requires from == (if offset > |cached| then offset - |cached| else 0)
             && room == size - |Slice(cached, offset, size)|
    ensures PageExact(cached, stored, offset, size) <==>
            ReadExact(stored, Ids(cached), from, room)
  {
    SliceSplits(cached, WithoutIds(stored, Ids(cached)), offset, size);
    SamePrefix(Slice(cached, offset, size), WithoutIds(Slice(stored, from, room), Ids(cached)),
               Slice(WithoutIds(stored, Ids(cached)), from, room));
  }

  lemma PageRightMeans(v: View, ids: set<int>, room: nat)
    requires room > 0 && |v.read| <= room && (v.behind != [] ==> |v.read| == room)
    ensures var got, more := WithoutIds(v.read, ids), WithoutIds(v.behind, ids);
            && |got| <= room
            && (PageRight(v, ids, room) <==>
                if Repeats(v.before, ids) == 0 then |got| == room || more == []
                    else got == [] && |more| <= Repeats(v.before, ids))
  {
    WithoutIdsKeepsAll(v.read, ids);
  }

  lemma ReadExactlyWhen(stored: seq<RelayLog>, ids: set<int>, from: nat, room: nat)
    requires DistinctIds(stored)
    ensures ReadExact(stored, ids, from, room) <==> PageRight(ViewOf(stored, from, room), ids, room)
  {
    ViewSplits(stored, from, room, ids);
    DistinctWithoutIds(stored, ids);
    ViewedExactlyWhen(ViewOf(stored, from, room), WithoutIds(stored, ids), ids, from, room);
  }

  lemma ViewedExactlyWhen(v: View, kept: seq<RelayLog>, ids: set<int>, from: nat, room: nat)
    requires DistinctIds(kept)
    requires kept == WithoutIds(v.before, ids) + (WithoutIds(v.read, ids) + WithoutIds(v.behind, ids))
    requires |v.read| <= room && (v.behind != [] ==> |v.read| == room)
    requires |v.before| == from || (|v.before| <= from && v.read == [] && v.behind == [])
    ensures WithoutIds(v.read, ids) == Slice(kept, from, room) <==> PageRight(v, ids, room)
  {
    WithoutIdsKeepsAll(v.before, ids);
    if room > 0 {
      PageRightMeans(v, ids, room);
      SkewedSlice(WithoutIds(v.before, ids), WithoutIds(v.read, ids), WithoutIds(v.behind, ids),
                  from - |WithoutIds(v.before, ids)|, room);
    } else {
      assert v.read == [];
    }
  }

  // ----- cursor mode -----

  datatype CursorPage = CursorPage(logs: seq<RelayLog>, hasMore: bool, next: Option<Cursor>)

  /** The first `limit` of the given matches, whether more follow, and where to go on. */
  function PageOf(matches: seq<RelayLog>, limit: nat): CursorPage
    requires limit >= 1
  {
    var logs := Take(matches, limit);
    if |matches| > limit then CursorPage(logs, true, Some(KeyOf(logs[limit - 1]))) else CursorPage(logs, false, None)
  }

  /** What relayLogListCursor gathers before cutting: up to limit + 1 entries. `mine` and `older` are the
      matches past the cursor in memory and in the table, `ids` the ids seen in memory. */
  function Gathered(mine: seq<RelayLog>, older: seq<RelayLog>, ids: set<int>, limit: nat): seq<RelayLog> {
    var head := Take(mine, limit + 1);
    if |head| < limit + 1 then head + WithoutIds(Take(older, limit + 1 - |head|), ids) else head
  }

  function CursorAnswer(cached: seq<RelayLog>, stored: seq<RelayLog>, limit: nat, bt: Option<int>,
                        bi: Option<int>): CursorPage
    requires limit >= 1
  {
    PageOf(Gathered(Older(cached, bt, bi), Older(stored, bt, bi), Ids(cached), limit), limit)
  }

  method FirstOlder(cached: seq<RelayLog>, count: nat, beforeTime: Option<int>, beforeId: Option<int>)
    returns (logs: seq<RelayLog>)
    requires count > 0
    ensures logs == Take(Older(cached, beforeTime, beforeId), count)
  {
    logs := [];
    var i := 0;
    while i < |cached| && |logs| < count
      invariant 0 <= i <= |cached| && |logs| <= count
      invariant logs == Older(cached[..i], beforeTime, beforeId)
    {
      SelectNext(cached, i, Before(beforeTime, beforeId));
      if BeforeBounds(cached[i], beforeTime, beforeId) {
        logs := logs + [cached[i]];
      }
      i := i + 1;
    }
    assert cached == cached[..i] + cached[i..];
    SelectConcat(cached[..i], cached[i..], Before(beforeTime, beforeId));
  }

  /** The limit of a cursor request; without one the page size stands in, as it was asked for. */
  function CursorLimit(requested: int, pageSize: int): nat {
    Clamped(if requested == 0 then pageSize else requested, 1, 100, 20)
  }

  /** One cursor request against the matches held in memory and in the table. */
  method ListCursor(cached: seq<RelayLog>, stored: seq<RelayLog>, requested: int, pageSize: int,
                    beforeTime: Option<int>, beforeId: Option<int>)
    returns (result: CursorPage)
    ensures 1 <= CursorLimit(requested, pageSize) <= 100
    ensures result == CursorAnswer(cached, stored, CursorLimit(requested, pageSize), beforeTime, beforeId)
  {
    var limit: int := if requested < 0 || requested > 100 then 20 else requested;
    if limit == 0 {
      limit := pageSize;
    }
    if limit < 1 {
      limit := 20;
    }
    result := ReadCursor(cached, stored, limit, beforeTime, beforeId);
  }

  method ReadCursor(cached: seq<RelayLog>, stored: seq<RelayLog>, requested: int,
                    beforeTime: Option<int>, beforeId: Option<int>)
    returns (result: CursorPage)
    ensures result == CursorAnswer(cached, stored, Clamped(requested, 1, 100, 20), beforeTime, beforeId)
  {
    var limit: int := Clamped(requested, 1, 100, 20);
    var logs := FirstOlder(cached, limit + 1, beforeTime, beforeId);
    if |logs| < limit + 1 {
      var remaining := limit + 1 - |logs|;
      logs := AppendDedupedById(logs, cached, Take(Older(stored, beforeTime, beforeId), remaining));
    }
    ghost var mine, older := Older(cached, beforeTime, beforeId), Older(stored, beforeTime, beforeId);
    assert logs == Gathered(mine, older, Ids(cached), limit);
    GatheredFits(mine, older, Ids(cached), limit);
    result := CutAt(logs, limit);
  }

  method CutAt(gathered: seq<RelayLog>, limit: nat) returns (result: CursorPage)
    requires limit >= 1 && |gathered| <= limit + 1
    ensures result == PageOf(gathered, limit)
  {
    var logs := gathered;
    var hasMore := |logs| > limit;
    if hasMore {
      logs := logs[..limit];
    }
    var next := if hasMore && |logs| > 0 then Some(KeyOf(logs[|logs| - 1])) else None;
    return CursorPage(logs, hasMore, next);
  }

  lemma GatheredFits(mine: seq<RelayLog>, older: seq<RelayLog>, ids: set<int>, limit: nat)
    ensures |Gathered(mine, older, ids, limit)| <= limit + 1
  {
    var head := Take(mine, limit + 1);
    if |head| < limit + 1 {
      WithoutIdsKeepsAll(Take(older, limit + 1 - |head|), ids);
    }
  }

  /** The answer a reader expects: the first `limit` distinct matches older than the cursor. */
  function ExpectedPage(cached: seq<RelayLog>, stored: seq<RelayLog>, limit: nat, bt: Option<int>,
                        bi: Option<int>): CursorPage
    requires limit >= 1
  {
    PageOf(Older(cached, bt, bi) + WithoutIds(Older(stored, bt, bi), Ids(cached)), limit)
  }

  lemma PageOfTake(matches: seq<RelayLog>, limit: nat)
    requires limit >= 1
    ensures PageOf(matches, limit) == PageOf(Take(matches, limit + 1), limit)
  {
  }

  lemma GatheredExact(mine: seq<RelayLog>, older: seq<RelayLog>, ids: set<int>, limit: nat, room: nat)
    requires limit >= 1 && room == limit + 1 - |Take(mine, limit + 1)|
    ensures
      PageOf(Gathered(mine, older, ids, limit), limit) == PageOf(mine + WithoutIds(older, ids), limit)
      <==> || room == 0 || |older| <= room
           || (forall row :: row in older[..room] ==> row.id !in ids)
           || (forall row :: row in older[room..] ==> row.id in ids)
  {
    if room == 0 {
      PageOfTake(mine + WithoutIds(older, ids), limit);
      assert Take(mine + WithoutIds(older, ids), limit + 1) == Take(mine, limit + 1);
      PageOfTake(mine, limit);
    } else if |older| > room {
      assert |mine| + room == limit + 1;
      GatheredBehind(mine, older[..room], older[room..], ids, limit);
      assert older == older[..room] + older[room..];
    } else {
      assert Take(older, room) == older;
    }
  }

  lemma GatheredBehind(mine: seq<RelayLog>, read: seq<RelayLog>, rest: seq<RelayLog>, ids: set<int>, limit: nat)
    requires limit >= 1 && |read| > 0 && |mine| + |read| == limit + 1
    ensures
      PageOf(Gathered(mine, read + rest, ids, limit), limit) == PageOf(mine + WithoutIds(read + rest, ids), limit)
      <==> (forall row :: row in read ==> row.id !in ids) || (forall row :: row in rest ==> row.id in ids)
  {
    var added, behind := WithoutIds(read, ids), WithoutIds(rest, ids);
    assert Gathered(mine, read + rest, ids, limit) == mine + added by {
      assert Take(read + rest, |read|) == read;
    }
    assert mine + WithoutIds(read + rest, ids) == mine + added + behind by {
      SelectConcat(read, rest, NotIn(ids));
    }
    assert |added| <= |read| && (|added| == |read| <==> forall row :: row in read ==> row.id !in ids) by {
      WithoutIdsKeepsAll(read, ids);
    }
    assert behind == [] <==> forall row :: row in rest ==> row.id in ids by {
      WithoutIdsDropsAll(rest, ids);
    }
    ShortRead(mine, added, behind, limit);
  }

  /** Having gathered `mine + added` while `behind` is still to come is enough only for a full page. */
  lemma ShortRead(mine: seq<RelayLog>, added: seq<RelayLog>, behind: seq<RelayLog>, limit: nat)
    requires limit >= 1 && |mine| + |added| <= limit + 1
    ensures PageOf(mine + added, limit) == PageOf(mine + added + behind, limit)
            <==> |mine| + |added| == limit + 1 || behind == []
  {
    var got := mine + added;
    if |got| == limit + 1 {
      assert Take(got + behind, limit) == Take(got, limit);
    } else if behind == [] {
      assert got + behind == got;
    } else if |got + behind| <= limit {
      assert PageOf(got, limit).logs == got && PageOf(got + behind, limit).logs == got + behind;
    }
  }

  /** Exactly when a cursor page is right although a flushed batch is visible in both places: the rows
      read contain no row seen in memory, or nothing new lies behind them. Otherwise the page is cut
      short and `hasMore` is false. */
  lemma CursorPageExact(cached: seq<RelayLog>, stored: seq<RelayLog>, limit: nat, bt: Option<int>, bi: Option<int>)
    requires limit >= 1
    ensures
      var older := Older(stored, bt, bi);
      var room := limit + 1 - |Take(Older(cached, bt, bi), limit + 1)|;
      CursorAnswer(cached, stored, limit, bt, bi) == ExpectedPage(cached, stored, limit, bt, bi)
      <==> || room == 0 || |older| <= room
           || (forall row :: row in older[..room] ==> row.id !in Ids(cached))
           || (forall row :: row in older[room..] ==> row.id in Ids(cached))
  {
    var mine := Older(cached, bt, bi);
    GatheredExact(mine, Older(stored, bt, bi), Ids(cached), limit, limit + 1 - |Take(mine, limit + 1)|);
  }

  /** One flushed row seen in both places is enough: the page ends the enumeration although `b` follows. */
  lemma FlushEndsEnumerationEarly(a: RelayLog, b: RelayLog)
    requires a.id != b.id
    ensures CursorAnswer([a], [a, b], 1, None, None) == CursorPage([a], false, None)
    ensures ExpectedPage([a], [a, b], 1, None, None) == CursorPage([a], true, Some(KeyOf(a)))
  {
    var rows := [a, b];
    AllOrNoneOlder(rows, None, None);
    AllOrNoneOlder([a], None, None);
    assert Take(rows, 1) == [a];
    SelectOne(a, NotIn(Ids([a])));
    SelectAppend([a], b, NotIn(Ids([a])));
    assert rows == [a] + [b] && [] + [b] == [b];
    assert PageOf([a] + [b], 1).logs == [a];
  }

  /** With queue and table disjoint every cursor page is exact. */
  lemma CursorPageOfOneList(cached: seq<RelayLog>, stored: seq<RelayLog>, limit: nat, bt: Option<int>, bi: Option<int>)
    requires limit >= 1
    requires forall a, b :: a in cached && b in stored ==> a.id != b.id
    ensures CursorAnswer(cached, stored, limit, bt, bi) == PageOf(Older(cached + stored, bt, bi), limit)
  {
    SelectConcat(cached, stored, Before(bt, bi));
    OlderSubset(stored, bt, bi);
    NothingToDedupe(cached, Older(stored, bt, bi));
    CursorPageExact(cached, stored, limit, bt, bi);
  }

  // ----- following the cursor -----

  function OlderThan(all: seq<RelayLog>, cursor: Option<Cursor>): seq<RelayLog> {
    match cursor
    case None => Older(all, None, None)
    case Some(c) => Older(all, Some(c.time), Some(c.id))
  }

  lemma {:induction false} OlderShrinks(all: seq<RelayLog>, bt: Option<int>, bi: Option<int>, c: Cursor,
                                        pivot: RelayLog)
    requires KeyOf(pivot) == c
    requires bt.Some? == bi.Some? && (bt.Some? ==> KeyLess(c, Cursor(bt.value, bi.value)))
    ensures |Older(all, Some(c.time), Some(c.id))| <= |Older(all, bt, bi)|
    ensures pivot in all ==> |Older(all, Some(c.time), Some(c.id))| < |Older(all, bt, bi)|
  {
    if all != [] {
      OlderShrinks(all[1..], bt, bi, c, pivot);
      assert all == [all[0]] + all[1..];
    }
  }

  lemma NextCursorAdvances(all: seq<RelayLog>, limit: nat, cursor: Option<Cursor>)
    requires limit >= 1
    ensures var page := PageOf(OlderThan(all, cursor), limit);
            page.hasMore ==> |OlderThan(all, page.next)| < |OlderThan(all, cursor)|
  {
    var matches := OlderThan(all, cursor);
    if |matches| > limit {
      var last := matches[limit - 1];
      assert last in matches;
      match cursor {
        case None =>
          OlderSubset(all, None, None);
          OlderShrinks(all, None, None, KeyOf(last), last);
        case Some(c) =>
          OlderSubset(all, Some(c.time), Some(c.id));
          OlderShrinks(all, Some(c.time), Some(c.id), KeyOf(last), last);
      }
    }
  }

  /** Following NextCursor to the end; it ends on every list. */
  function Enumerate(all: seq<RelayLog>, limit: nat, cursor: Option<Cursor>): seq<RelayLog>
    requires limit >= 1
    decreases |OlderThan(all, cursor)|
  {
    var page := PageOf(OlderThan(all, cursor), limit);
    NextCursorAdvances(all, limit, cursor);
    if page.hasMore then page.logs + Enumerate(all, limit, page.next) else page.logs
  }

  ghost predicate Descending(logs: seq<RelayLog>) {
    forall i, j :: 0 <= i < j < |logs| ==> KeyLess(KeyOf(logs[j]), KeyOf(logs[i]))
  }

  lemma AllOrNoneOlder(logs: seq<RelayLog>, bt: Option<int>, bi: Option<int>)
    ensures (forall log :: log in logs ==> BeforeBounds(log, bt, bi)) ==> Older(logs, bt, bi) == logs
    ensures (forall log :: log in logs ==> !BeforeBounds(log, bt, bi)) ==> Older(logs, bt, bi) == []
  {
    SelectKeepsAll(logs, Before(bt, bi));
    SelectDropsAll(logs, Before(bt, bi));
  }

  /** In a descending list the entries older than the i-th are the ones after it. */
  lemma OlderIsSuffix(all: seq<RelayLog>, i: nat)
    requires Descending(all) && i < |all|
    ensures OlderThan(all, Some(KeyOf(all[i]))) == all[i + 1..]
  {
    var c := KeyOf(all[i]);
    var head, tail := all[..i + 1], all[i + 1..];
    assert all == head + tail;
    SelectConcat(head, tail, Before(Some(c.time), Some(c.id)));
    forall log | log in tail ensures BeforeBounds(log, Some(c.time), Some(c.id)) {
      var j :| 0 <= j < |tail| && tail[j] == log;
      assert log == all[i + 1 + j];
    }
    forall log | log in head ensures !BeforeBounds(log, Some(c.time), Some(c.id)) {
      var j :| 0 <= j < |head| && head[j] == log;
      assert log == all[j];
    }
    AllOrNoneOlder(head, Some(c.time), Some(c.id));
    AllOrNoneOlder(tail, Some(c.time), Some(c.id));
  }

  lemma {:induction false} EnumerateSuffix(all: seq<RelayLog>, limit: nat, cursor: Option<Cursor>, from: nat)
    requires limit >= 1 && Descending(all) && from <= |all|
    requires OlderThan(all, cursor) == all[from..]
    ensures Enumerate(all, limit, cursor) == all[from..]
    decreases |all| - from
  {
    if from + limit < |all| {
      OlderIsSuffix(all, from + limit - 1);
      EnumerateSuffix(all, limit, Some(KeyOf(all[from + limit - 1])), from + limit);
      FirstPageThenRest(all, limit, cursor, from);
    }
  }

  lemma SuffixSplits(all: seq<RelayLog>, from: nat, n: nat)
    requires from + n <= |all|
    ensures all[from..] == all[from..][..n] + all[from + n..]
    ensures n > 0 ==> all[from..][n - 1] == all[from + n - 1]
  {
  }

  /** Reading one entry at a time yields a strictly descending sequence, whatever the list. */
  lemma {:induction false} SingleStepsDescend(all: seq<RelayLog>, cursor: Option<Cursor>)
    ensures Descending(Enumerate(all, 1, cursor))
    ensures forall log :: log in Enumerate(all, 1, cursor) ==> log in OlderThan(all, cursor)
    decreases |OlderThan(all, cursor)|
  {
    var matches := OlderThan(all, cursor);
    var page := PageOf(matches, 1);
    if page.hasMore {
      NextCursorAdvances(all, 1, cursor);
      SingleStepsDescend(all, page.next);
      var first, rest := matches[0], Enumerate(all, 1, page.next);
      assert first in matches;
      assert Enumerate(all, 1, cursor) == [first] + rest;
      OlderSubset(all, Some(first.time), Some(first.id));
      NextIsOlder(all, 1, cursor);
      DescendingCons(first, rest);
    }
  }

  lemma DescendingCons(first: RelayLog, rest: seq<RelayLog>)
    requires Descending(rest) && forall log :: log in rest ==> KeyLess(KeyOf(log), KeyOf(first))
    ensures Descending([first] + rest)
  {
  }

  // ----- one limit -----

  lemma {:induction false} EnumerateWithin(all: seq<RelayLog>, limit: nat, cursor: Option<Cursor>)
    requires limit >= 1
    ensures forall log :: log in Enumerate(all, limit, cursor) ==> log in OlderThan(all, cursor)
    decreases |OlderThan(all, cursor)|
  {
    var page := PageOf(OlderThan(all, cursor), limit);
    if page.hasMore {
      NextCursorAdvances(all, limit, cursor);
      EnumerateWithin(all, limit, page.next);
      NextIsOlder(all, limit, cursor);
    }
  }

  lemma NextIsOlder(all: seq<RelayLog>, limit: nat, cursor: Option<Cursor>)
    requires limit >= 1 && PageOf(OlderThan(all, cursor), limit).hasMore
    ensures forall log :: log in OlderThan(all, PageOf(OlderThan(all, cursor), limit).next) ==>
            log in OlderThan(all, cursor)
  {
    var last := OlderThan(all, cursor)[limit - 1];
    assert last in OlderThan(all, cursor);
    OlderSubset(all, Some(last.time), Some(last.id));
    match cursor {
      case None => OlderSubset(all, None, None);
      case Some(c) => OlderSubset(all, Some(c.time), Some(c.id));
    }
  }

  /** Exactly the rows from position n on are older than the row before it: a page may end there. */
  ghost predicate Boundary(all: seq<RelayLog>, n: nat)
    requires 0 < n <= |all|
  {
    forall i :: 0 <= i < |all| ==> (KeyLess(KeyOf(all[i]), KeyOf(all[n - 1])) <==> i >= n)
  }

  /** A filtered list that starts at the list's n-th row takes nothing before it. */
  lemma NothingBeforeFirst(all: seq<RelayLog>, bt: Option<int>, bi: Option<int>, n: nat)
    requires DistinctIds(all) && n < |all| && Older(all, bt, bi) != [] && Older(all, bt, bi)[0] == all[n]
    ensures Older(all[..n], bt, bi) == []
  {
    assert all == all[..n] + all[n..];
    SelectConcat(all[..n], all[n..], Before(bt, bi));
    FirstIsMember(all[..n], bt, bi);
    NotInPrefix(all, n);
  }

  lemma FirstIsMember(logs: seq<RelayLog>, bt: Option<int>, bi: Option<int>)
    ensures Older(logs, bt, bi) != [] ==> Older(logs, bt, bi)[0] in logs
  {
    OlderSubset(logs, bt, bi);
    if Older(logs, bt, bi) != [] {
      assert Older(logs, bt, bi)[0] in Older(logs, bt, bi);
    }
  }

  lemma NotInPrefix(all: seq<RelayLog>, n: nat)
    requires DistinctIds(all) && n < |all|
    ensures all[n] !in all[..n]
  {
    forall i | 0 <= i < n ensures all[..n][i] != all[n] {
      assert all[i].id != all[n].id;
    }
  }

  lemma OlderFrom(all: seq<RelayLog>, bt: Option<int>, bi: Option<int>, n: nat)
    requires n <= |all| && Older(all[..n], bt, bi) == [] && forall log :: log in all[n..] ==> BeforeBounds(log, bt, bi)
    ensures Older(all, bt, bi) == all[n..]
  {
    assert all == all[..n] + all[n..];
    SelectConcat(all[..n], all[n..], Before(bt, bi));
    AllOrNoneOlder(all[n..], bt, bi);
  }

  lemma BoundaryMeans(all: seq<RelayLog>, n: nat)
    requires DistinctIds(all) && 0 < n < |all|
    ensures Boundary(all, n) <==> OlderThan(all, Some(KeyOf(all[n - 1]))) == all[n..]
  {
    var c := KeyOf(all[n - 1]);
    var bt, bi := Some(c.time), Some(c.id);
    if Boundary(all, n) {
      assert forall log :: log in all[n..] ==> exists i :: n <= i < |all| && all[i] == log;
      assert forall log :: log in all[..n] ==> exists i :: 0 <= i < n && all[i] == log;
      AllOrNoneOlder(all[..n], bt, bi);
      OlderFrom(all, bt, bi, n);
    }
    if Older(all, bt, bi) == all[n..] {
      OlderSubset(all, bt, bi);
      forall i | 0 <= i < |all| ensures BeforeBounds(all[i], bt, bi) <==> i >= n {
        assert all[i] in all;
        assert i >= n ==> all[n..][i - n] == all[i];
        assert all[i] in all[n..] ==> exists j :: n <= j < |all| && all[j] == all[i];
      }
    }
  }

  /** From `cursor` on the enumeration yields exactly the rows from position n on. */
  ghost predicate YieldsRest(all: seq<RelayLog>, limit: nat, cursor: Option<Cursor>, n: nat)
    requires limit >= 1 && n <= |all|
  {
    Enumerate(all, limit, cursor) == all[n..]
  }

  /** An enumeration can only yield the rest of the list from a cursor that selects exactly that rest. */
  lemma RestForcesCursor(all: seq<RelayLog>, limit: nat, cursor: Option<Cursor>, n: nat)
    requires limit >= 1 && DistinctIds(all) && n < |all| && YieldsRest(all, limit, cursor, n)
    ensures OlderThan(all, cursor) == all[n..]
  {
    var (bt, bi) := match cursor case None => (None, None) case Some(c) => (Some(c.time), Some(c.id));
    EnumerateWithin(all, limit, cursor);
    OlderSubset(all, bt, bi);
    assert all[n..][0] == all[n];
    assert Enumerate(all, limit, cursor)[0] == OlderThan(all, cursor)[0];
    NothingBeforeFirst(all, bt, bi, n);
    OlderFrom(all, bt, bi, n);
  }

  /** Every page from position n on ends on a boundary. */
  ghost predicate EndsOnBoundaries(all: seq<RelayLog>, limit: nat, n: nat)
    requires limit >= 1
    decreases |all| - n
  {
    n + limit < |all| ==> Boundary(all, n + limit) && EndsOnBoundaries(all, limit, n + limit)
  }

  lemma OffsetStep(k: nat, limit: nat)
    ensures PageOffset(k + 1, limit) == PageOffset(k, limit) + limit
  {
  }

  lemma {:induction false} OffsetOrder(i: nat, j: nat, limit: nat)
    requires i <= j
    ensures PageOffset(i, limit) <= PageOffset(j, limit)
  {
    if i < j {
      OffsetOrder(i, j - 1, limit);
      OffsetStep(j - 1, limit);
    }
  }

  lemma OffsetsGrow(k: nat, limit: nat)
    requires limit >= 1
    ensures PageOffset(k + 1, limit) == PageOffset(k, limit) + limit
    ensures forall j: nat :: j > k ==> PageOffset(j, limit) >= PageOffset(k + 1, limit)
  {
    OffsetStep(k, limit);
    forall j: nat | j > k ensures PageOffset(j, limit) >= PageOffset(k + 1, limit) {
      OffsetOrder(k + 1, j, limit);
    }
  }

  lemma {:induction false} EnumerateFrom(all: seq<RelayLog>, limit: nat, cursor: Option<Cursor>, n: nat)
    requires limit >= 1 && DistinctIds(all) && n <= |all| && OlderThan(all, cursor) == all[n..]
    ensures YieldsRest(all, limit, cursor, n) <==> EndsOnBoundaries(all, limit, n)
    decreases |all| - n
  {
    if n + limit < |all| {
      var m := n + limit;
      var next := Some(KeyOf(all[m - 1]));
      FirstPageThenRest(all, limit, cursor, n);
      BoundaryMeans(all, m);
      if Boundary(all, m) {
        EnumerateFrom(all, limit, next, m);
      } else if YieldsRest(all, limit, next, m) {
        RestForcesCursor(all, limit, next, m);
      }
    }
  }

  lemma FirstPageThenRest(all: seq<RelayLog>, limit: nat, cursor: Option<Cursor>, n: nat)
    requires limit >= 1 && n + limit < |all| && OlderThan(all, cursor) == all[n..]
    ensures YieldsRest(all, limit, cursor, n) <==> YieldsRest(all, limit, Some(KeyOf(all[n + limit - 1])), n + limit)
  {
    var next := Some(KeyOf(all[n + limit - 1]));
    NextCursorAdvances(all, limit, cursor);
    SuffixSplits(all, n, limit);
    assert PageOf(all[n..], limit) == CursorPage(all[n..][..limit], true, next);
    SamePrefix(all[n..][..limit], Enumerate(all, limit, next), all[n + limit..]);
  }

  lemma SamePrefix(a: seq<RelayLog>, b: seq<RelayLog>, c: seq<RelayLog>)
    ensures a + b == a + c <==> b == c
  {
    if a + b == a + c {
      assert (a + b)[|a|..] == b && (a + c)[|a|..] == c;
    }
  }

  lemma {:induction false} EveryEndFrom(all: seq<RelayLog>, limit: nat, k: nat)
    requires limit >= 1
    ensures EndsOnBoundaries(all, limit, PageOffset(k, limit)) <==>
            forall j: nat :: j > k && 0 < PageOffset(j, limit) < |all| ==> Boundary(all, PageOffset(j, limit))
    decreases |all| - PageOffset(k, limit)
  {
    OffsetsGrow(k, limit);
    if PageOffset(k, limit) + limit < |all| {
      EveryEndFrom(all, limit, k + 1);
      assert k + 1 > k && 0 < PageOffset(k + 1, limit) < |all|;
    }
  }

  /** Following the cursor with one given limit yields every match exactly once if and only if every page
      ends on a boundary: exactly the rows behind it are older than its last row. Ids are unique. */
  lemma EnumerationExactlyWhen(all: seq<RelayLog>, limit: nat)
    requires limit >= 1 && DistinctIds(all)
    ensures Enumerate(all, limit, None) == all <==>
            forall k: nat :: k >= 1 && 0 < PageOffset(k, limit) < |all| ==> Boundary(all, PageOffset(k, limit))
  {
    AllOrNoneOlder(all, None, None);
    assert PageOffset(0, limit) == 0 && all[0..] == all;
    EnumerateFrom(all, limit, None, 0);
    EveryEndFrom(all, limit, 0);
  }

  // ----- a run that loses a row -----

  /** A log carries its request's start time and is queued when the request ends. When a request that
      started earlier ends later, the listing is not descending, and a reader taking one row at a time
      gets the newest entry and never the other. */
  lemma LateFinisherHidesRow(a: RelayLog, b: RelayLog, f: Filter)
    requires MatchesFilter(a, f) && MatchesFilter(b, f)
    requires a.id < b.id && b.time < a.time && ApproxBytes(a) + ApproxBytes(b) <= QUEUE_BYTES
    ensures var s := Run(EMPTY, [Enqueue(a), Enqueue(b)]);
            var all := Listed(s.pending, s.db, f);
            all == [b, a] && !Descending(all) && Enumerate(all, 1, None) == [b]
  {
    TwoQueued(a, b);
    TwoListed(a, b, f);
    var all := [b, a];
    assert !KeyLess(KeyOf(all[1]), KeyOf(all[0]));
    AllOrNoneOlder(all, None, None);
    AllOrNoneOlder(all, Some(b.time), Some(b.id));
    assert PageOf(all, 1) == CursorPage([b], true, Some(KeyOf(b)));
    assert Enumerate(all, 1, Some(KeyOf(b))) == [];
  }

  lemma TwoQueued(a: RelayLog, b: RelayLog)
    requires ApproxBytes(a) + ApproxBytes(b) <= QUEUE_BYTES
    ensures var s := Run(EMPTY, [Enqueue(a), Enqueue(b)]); s.pending == [a, b] && s.db == []
  {
    var steps := [Enqueue(a), Enqueue(b)];
    assert steps[..1] == [Enqueue(a)] && steps[..1][..0] == [];
    assert Run(EMPTY, steps[..1]) == Enqueued(EMPTY, a);
    assert Run(EMPTY, steps) == Enqueued(Enqueued(EMPTY, a), b);
  }

  lemma TwoListed(a: RelayLog, b: RelayLog, f: Filter)
    requires MatchesFilter(a, f) && MatchesFilter(b, f)
    ensures Listed([a, b], [], f) == [b, a]
  {
    assert [a, b][1..] == [b] && [b][1..] == [];
    assert Reversed([b]) == [b];
    assert Reversed([a, b]) == [b, a];
    SelectKeepsAll([b, a], Matcher(f));
  }

  ghost predicate CursorComplete(all: seq<RelayLog>) {
    forall limit: nat :: 1 <= limit <= 100 ==> Enumerate(all, limit, None) == all
  }

  /** Following the cursor from the start yields every match exactly once, for every page limit,
      if and only if the list is strictly descending in (time, id). */
  lemma CursorCompleteness(all: seq<RelayLog>)
    ensures CursorComplete(all) <==> Descending(all)
  {
    if Descending(all) {
      AllOrNoneOlder(all, None, None);
      assert all[0..] == all;
      forall limit: nat | 1 <= limit <= 100 ensures Enumerate(all, limit, None) == all {
        EnumerateSuffix(all, limit, None, 0);
      }
    }
    if CursorComplete(all) {
      assert Enumerate(all, 1, None) == all;
      SingleStepsDescend(all, None);
    }
  }
}
