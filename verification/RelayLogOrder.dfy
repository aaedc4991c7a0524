/** When the listing of a running queue is in order: the queue gives (time, id) order exactly as far as logs
    are queued in that order. */
module RelayLogOrder {
  import opened Selecting
  import opened RelayLogs
  import opened RelayLogQueue
  import opened LikeFilter
  import opened RelayLogListing
  import opened Wrappers

  ghost predicate Increasing(logs: seq<RelayLog>) {
    forall i, j :: 0 <= i < j < |logs| ==> KeyLess(KeyOf(logs[i]), KeyOf(logs[j]))
  }

  /** Every log of `a` is older than every log of `b`. */
  ghost predicate AllOlder(a: seq<RelayLog>, b: seq<RelayLog>) {
    forall x, y :: x in a && y in b ==> KeyLess(KeyOf(x), KeyOf(y))
  }

  lemma IncreasingConcat(a: seq<RelayLog>, b: seq<RelayLog>)
    ensures Increasing(a + b) <==> Increasing(a) && Increasing(b) && AllOlder(a, b)
  {
    var all := a + b;
    if Increasing(all) {
      forall i, j | 0 <= i < j < |b| ensures KeyLess(KeyOf(b[i]), KeyOf(b[j])) {
        assert all[|a| + i] == b[i] && all[|a| + j] == b[j];
      }
      forall i, j | 0 <= i < j < |a| ensures KeyLess(KeyOf(a[i]), KeyOf(a[j])) {
        assert all[i] == a[i] && all[j] == a[j];
      }
      forall x, y | x in a && y in b ensures KeyLess(KeyOf(x), KeyOf(y)) {
        var i :| 0 <= i < |a| && a[i] == x;
        var j :| 0 <= j < |b| && b[j] == y;
        assert all[i] == x && all[|a| + j] == y;
      }
    }
  }

  lemma {:induction false} SelectIncreases(logs: seq<RelayLog>, keep: RelayLog -> bool)
    requires Increasing(logs)
    ensures Increasing(Select(logs, keep))
  {
    if logs != [] {
      assert logs == [logs[0]] + logs[1..];
      IncreasingConcat([logs[0]], logs[1..]);
      SelectIncreases(logs[1..], keep);
      SelectElements(logs[1..], keep);
      IncreasingConcat([logs[0]], Select(logs[1..], keep));
    }
  }

  lemma {:induction false} ReversedDescends(logs: seq<RelayLog>)
    ensures Descending(Reversed(logs)) <==> Increasing(logs)
  {
    if logs != [] {
      assert logs == [logs[0]] + logs[1..];
      ReversedDescends(logs[1..]);
      IncreasingConcat([logs[0]], logs[1..]);
      DescendingConcat(Reversed(logs[1..]), [logs[0]]);
      ReversedElements(logs[1..]);
    }
  }

  lemma DescendingConcat(a: seq<RelayLog>, b: seq<RelayLog>)
    ensures Descending(a + b) <==> Descending(a) && Descending(b) && AllOlder(b, a)
  {
    var all := a + b;
    if Descending(all) {
      forall i, j | 0 <= i < j < |b| ensures KeyLess(KeyOf(b[j]), KeyOf(b[i])) {
        assert all[|a| + i] == b[i] && all[|a| + j] == b[j];
      }
      forall i, j | 0 <= i < j < |a| ensures KeyLess(KeyOf(a[j]), KeyOf(a[i])) {
        assert all[i] == a[i] && all[j] == a[j];
      }
      forall y, x | y in b && x in a ensures KeyLess(KeyOf(y), KeyOf(x)) {
        var i :| 0 <= i < |a| && a[i] == x;
        var j :| 0 <= j < |b| && b[j] == y;
        assert all[i] == x && all[|a| + j] == y;
      }
    }
  }

  lemma {:induction false} SelectDescends(logs: seq<RelayLog>, keep: RelayLog -> bool)
    requires Descending(logs)
    ensures Descending(Select(logs, keep))
  {
    if logs != [] {
      assert logs == [logs[0]] + logs[1..];
      DescendingConcat([logs[0]], logs[1..]);
      SelectDescends(logs[1..], keep);
      SelectElements(logs[1..], keep);
      DescendingConcat([logs[0]], Select(logs[1..], keep));
    }
  }

  // ----- one listing -----

  /** No filter at all. */
  const ALL := Filter(None, None, [], AnyStatus, "", DefaultScope, Prefix, (s: string) => s, (s: string) => s)

  lemma AllAreListed(pending: seq<RelayLog>, rows: seq<RelayLog>)
    ensures Listed(pending, rows, ALL) == Reversed(pending) + rows
  {
    SelectKeepsAll(Reversed(pending), Matcher(ALL));
    SelectKeepsAll(rows, SqlMatcher(ALL));
  }

  lemma ListedDescends(pending: seq<RelayLog>, rows: seq<RelayLog>, f: Filter)
    requires Descending(rows) && Increasing(pending) && AllOlder(rows, pending)
    ensures Descending(Listed(pending, rows, f))
  {
    ReversedDescends(pending);
    SelectDescends(Reversed(pending), Matcher(f));
    SelectDescends(rows, SqlMatcher(f));
    SelectElements(Reversed(pending), Matcher(f));
    SelectElements(rows, SqlMatcher(f));
    ReversedElements(pending);
    DescendingConcat(Matching(Reversed(pending), f), SqlMatching(rows, f));
  }

  /** With the table in its query order every listing is in order if and only if the queue is, and everything
      queued is newer than everything in the table. */
  lemma ListedDescendsExactlyWhen(pending: seq<RelayLog>, rows: seq<RelayLog>)
    requires Descending(rows)
    ensures (forall f :: Descending(Listed(pending, rows, f))) <==> Increasing(pending) && AllOlder(rows, pending)
  {
    if forall f :: Descending(Listed(pending, rows, f)) {
      assert Descending(Listed(pending, rows, ALL));
      AllAreListed(pending, rows);
      DescendingConcat(Reversed(pending), rows);
      ReversedDescends(pending);
      ReversedElements(pending);
    }
    if Increasing(pending) && AllOlder(rows, pending) {
      forall f ensures Descending(Listed(pending, rows, f)) {
        ListedDescends(pending, rows, f);
      }
    }
  }

  // ----- every run that enqueues in order -----

  /** Each log enqueued has a larger (time, id) than those enqueued before it. */
  predicate EnqueuesInOrder(steps: seq<Step>) {
    steps == [] ||
    var before, last := steps[..|steps| - 1], steps[|steps| - 1];
    EnqueuesInOrder(before)
    && (last.Enqueue? ==> forall x :: x in before && x.Enqueue? ==> KeyLess(KeyOf(x.log), KeyOf(last.log)))
  }

  /** What is in the table or still to be written, in that order. */
  function InStore(s: State): seq<RelayLog> {
    s.db + Unwritten(s)
  }

  /** No step looks at the history of accepted logs. */
  lemma AcceptedIsUnread(s: State, accepted: seq<RelayLog>, step: Step)
    ensures var t, u := Next(s, step), Next(s.(accepted := accepted), step);
            && InStore(u) == InStore(t)
            && (u.accepted == accepted || (step.Enqueue? && u.accepted == accepted + [step.log]))
  {
  }

  lemma StepStores(s: State, step: Step)
    requires Consistent(s) && !IsClear(step)
    ensures InStore(Next(s, step)) == InStore(s) || (step.Enqueue? && InStore(Next(s, step)) == InStore(s) + [step.log])
  {
    AcceptedIsUnread(s, InStore(s), step);
    StepKeepsFifo(s.(accepted := InStore(s)), step);
  }

  lemma ClearKeepsIncreasing(s: State, step: Step)
    requires Consistent(s) && IsClear(step) && Increasing(InStore(s))
    ensures Increasing(InStore(Next(s, step)))
    ensures forall log :: log in InStore(Next(s, step)) ==> log in InStore(s)
  {
    IncreasingConcat(s.db, Unwritten(s));
    if step.ClearRows? {
      SelectIncreases(s.db, NotIn(step.ids));
      SelectElements(s.db, NotIn(step.ids));
      IncreasingConcat(WithoutIds(s.db, step.ids), Unwritten(s));
    } else {
      IncreasingConcat(s.db, []);
    }
  }

  lemma EnqueueKeepsIncreasing(store: seq<RelayLog>, before: seq<Step>, log: RelayLog)
    requires Increasing(store) && forall x :: x in store ==> Enqueue(x) in before
    requires forall x :: x in before && x.Enqueue? ==> KeyLess(KeyOf(x.log), KeyOf(log))
    ensures Increasing(store + [log])
  {
    forall x, y | x in store && y in [log] ensures KeyLess(KeyOf(x), KeyOf(y)) {
      assert Enqueue(x) in before;
    }
    IncreasingConcat(store, [log]);
  }

  lemma StepKeepsIncreasing(s: State, before: seq<Step>, step: Step)
    requires Consistent(s) && Increasing(InStore(s)) && forall x :: x in InStore(s) ==> Enqueue(x) in before
    requires step.Enqueue? ==> forall x :: x in before && x.Enqueue? ==> KeyLess(KeyOf(x.log), KeyOf(step.log))
    ensures Increasing(InStore(Next(s, step)))
    ensures forall x :: x in InStore(Next(s, step)) ==> x in InStore(s) || step == Enqueue(x)
  {
    if IsClear(step) {
      ClearKeepsIncreasing(s, step);
    } else {
      StepStores(s, step);
      if step.Enqueue? {
        EnqueueKeepsIncreasing(InStore(s), before, step.log);
      }
    }
  }

  /** Clears, failed writes and refused logs included, table and queue together stay in (time, id) order. */
  lemma {:induction false} StoreIncreases(steps: seq<Step>)
    requires EnqueuesInOrder(steps)
    ensures var s := Run(EMPTY, steps);
            Increasing(InStore(s)) && forall log :: log in InStore(s) ==> Enqueue(log) in steps
  {
    if steps != [] {
      var before, last := steps[..|steps| - 1], steps[|steps| - 1];
      StoreIncreases(before);
      ExactlyOnce(before);
      StepKeepsIncreasing(Run(EMPTY, before), before, last);
      assert last in steps && forall x :: x in before ==> x in steps;
    }
  }

  lemma SameRowsOlder(rows: seq<RelayLog>, db: seq<RelayLog>, pending: seq<RelayLog>)
    requires multiset(rows) == multiset(db) && AllOlder(db, pending)
    ensures AllOlder(rows, pending)
  {
    forall x | x in rows ensures x in db {
      assert x in multiset(rows);
    }
  }

  /** In every reachable state without a written batch still queued, clears included, every listing is in
      order, so that following the cursor shows every match exactly once for every page limit, as long as
      logs are queued in (time, id) order. `rows` is the table in its query order. */
  lemma InOrderRunsListAll(steps: seq<Step>, rows: seq<RelayLog>, f: Filter)
    requires EnqueuesInOrder(steps) && !Run(EMPTY, steps).phase.Written?
    requires Descending(rows) && multiset(rows) == multiset(Run(EMPTY, steps).db)
    ensures var all := Listed(Run(EMPTY, steps).pending, rows, f);
            Descending(all) && CursorComplete(all)
  {
    var s := Run(EMPTY, steps);
    StoreIncreases(steps);
    IncreasingConcat(s.db, s.pending);
    SameRowsOlder(rows, s.db, s.pending);
    ListedDescends(s.pending, rows, f);
    CursorCompleteness(Listed(s.pending, rows, f));
  }
}
