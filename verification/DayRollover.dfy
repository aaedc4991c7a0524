/** The daily statistics row under the regular save: the save reads today's counters first and writes them
    later, while requests go on adding and the day may change in between. */
module DayRollover {
  import opened StatsSave
  import opened Wrappers

  /** `snapshot` is what a regular save in progress has read; `finished` are days a request has replaced in
      memory and not yet saved; `queue` the days whose save failed, `flushing` those a regular save took out
      of the queue to store them again. `updates` is history. */
  datatype DayState = DayState(
    today: Day, finished: seq<Day>, queue: seq<Day>, flushing: seq<Day>, db: map<int, int>, snapshot: Option<Day>,
    updates: seq<Day>)

  /** How the save of a finished day went: its row stored, or a failure before or after that. */
  datatype Outcome = Stored | FailedBefore | FailedAfter

  datatype DayStep =
    | AddUpdate(date: int, amount: int)
    | TakeSnapshot
    | WriteSnapshot(ok: bool)
    | SaveFinished(i: nat, outcome: Outcome)  // one of the finished days, in whatever order their savers get there
    | TakeQueue                               // flushPendingDailyOverrides detaches the whole queue
    | StoreOne(ok: bool)                      // and stores it day by day; at a failure the rest goes back in front

  function Opened(date: int): DayState {
    DayState(Day(date, 0), [], [], [], map[], None, [])
  }

  function DayUpdated(s: DayState, date: int, amount: int): DayState {
    if date < s.today.date then s
    else if date == s.today.date then
      s.(today := Day(date, s.today.total + amount), updates := s.updates + [Day(date, amount)])
    else
      s.(today := Day(date, amount), finished := s.finished + [s.today], updates := s.updates + [Day(date, amount)])
  }

  function FinishedSaved(s: DayState, i: nat, outcome: Outcome): DayState {
    if i >= |s.finished| then s
    else
      var d := s.finished[i];
      s.(finished := s.finished[..i] + s.finished[i + 1..],
         db := if outcome.FailedBefore? then s.db else s.db[d.date := d.total],
         queue := if outcome.Stored? then s.queue else s.queue + [d])
  }

  function SnapshotWritten(s: DayState, ok: bool): DayState {
    if s.snapshot.None? then s
    else s.(snapshot := None, db := if ok then s.db[s.snapshot.value.date := s.snapshot.value.total] else s.db)
  }

  function QueueTaken(s: DayState): DayState {
    if s.flushing != [] then s else s.(flushing := s.queue, queue := [])
  }

  function OneStored(s: DayState, ok: bool): DayState {
    if s.flushing == [] then s
    else if ok then s.(flushing := s.flushing[1..], db := s.db[s.flushing[0].date := s.flushing[0].total])
    else s.(flushing := [], queue := s.flushing + s.queue)
  }

  function NextDay(s: DayState, step: DayStep): DayState {
    match step
    case AddUpdate(date, amount) => DayUpdated(s, date, amount)
    case TakeSnapshot => if s.snapshot.Some? then s else s.(snapshot := Some(s.today))
    case WriteSnapshot(ok) => SnapshotWritten(s, ok)
    case SaveFinished(i, outcome) => FinishedSaved(s, i, outcome)
    case TakeQueue => QueueTaken(s)
    case StoreOne(ok) => OneStored(s, ok)
  }

  function RunDays(s: DayState, steps: seq<DayStep>): DayState {
    if steps == [] then s else NextDay(RunDays(s, steps[..|steps| - 1]), steps[|steps| - 1])
  }

  /** One save at a time: no finished or queued day is stored between a snapshot and its write. */
  predicate OneSaveAtATime(s: DayState, steps: seq<DayStep>) {
    steps == [] ||
    (OneSaveAtATime(s, steps[..|steps| - 1])
     && (steps[|steps| - 1].SaveFinished? || steps[|steps| - 1].StoreOne? ==>
         RunDays(s, steps[..|steps| - 1]).snapshot.None?))
  }

  predicate Holds(days: seq<Day>, date: int) {
    exists d :: d in days && d.date == date
  }

  /** The day is still to be stored. */
  predicate Waits(s: DayState, date: int) {
    Holds(s.finished, date) || Holds(s.flushing, date) || Holds(s.queue, date)
  }

  predicate InTable(s: DayState, date: int) {
    date in s.db && s.db[date] == DaySum(s.updates, date)
  }

  ghost predicate Exact(days: seq<Day>, today: Day, updates: seq<Day>) {
    forall d :: d in days ==> d.date < today.date && d.total == DaySum(updates, d.date)
  }

  /** Every earlier day with updates is still to be stored, or exact in the table. */
  ghost predicate EarlierKept(s: DayState) {
    forall u :: u in s.updates && u.date < s.today.date ==> Waits(s, u.date) || InTable(s, u.date)
  }

  ghost predicate DaysKept(s: DayState) {
    && s.today.total == DaySum(s.updates, s.today.date)
    && (forall u :: u in s.updates ==> u.date <= s.today.date)
    && Exact(s.finished, s.today, s.updates)
    && Exact(s.flushing, s.today, s.updates)
    && Exact(s.queue, s.today, s.updates)
    && (s.snapshot.Some? ==> s.snapshot.value.date <= s.today.date)
    && EarlierKept(s)
  }

  /** Writing the snapshot now loses nothing: its day is still today, or will be stored again, or has not
      changed since the snapshot was taken. */
  predicate Harmless(s: DayState) {
    s.snapshot.Some? ==>
      var d := s.snapshot.value;
      d.date >= s.today.date || Waits(s, d.date) || !Holds(s.updates, d.date) || d.total == DaySum(s.updates, d.date)
  }

  /** Every snapshot written in the run was harmless then. */
  predicate HarmlessWrites(s: DayState, steps: seq<DayStep>) {
    steps == [] ||
    (HarmlessWrites(s, steps[..|steps| - 1])
     && (steps[|steps| - 1] == WriteSnapshot(true) ==> Harmless(RunDays(s, steps[..|steps| - 1]))))
  }

  lemma SumsAfter(updates: seq<Day>, u: Day)
    ensures forall date ::
            DaySum(updates + [u], date) == DaySum(updates, date) + (if date == u.date then u.total else 0)
  {
    forall date ensures DaySum(updates + [u], date) == DaySum(updates, date) + (if date == u.date then u.total else 0) {
      DaySumAppend(updates, u, date);
    }
  }

  lemma SameDayUpdateKeeps(s: DayState, amount: int)
    requires DaysKept(s)
    ensures DaysKept(DayUpdated(s, s.today.date, amount))
  {
    var t := DayUpdated(s, s.today.date, amount);
    SumsAfter(s.updates, Day(s.today.date, amount));
    forall u | u in t.updates && u.date < s.today.date ensures Waits(t, u.date) || InTable(t, u.date) {
      assert Waits(s, u.date) || InTable(s, u.date);
    }
  }

  lemma HoldsConcat(a: seq<Day>, b: seq<Day>, date: int)
    ensures Holds(a + b, date) <==> Holds(a, date) || Holds(b, date)
  {
    assert forall d :: d in a + b <==> d in a || d in b;
  }

  lemma HoldsOne(d: Day, date: int)
    ensures Holds([d], date) <==> d.date == date
  {
    assert d in [d];
  }

  lemma NewDayUpdateKeeps(s: DayState, date: int, amount: int)
    requires DaysKept(s) && date > s.today.date
    ensures DaysKept(DayUpdated(s, date, amount))
  {
    var t := DayUpdated(s, date, amount);
    SumsAfter(s.updates, Day(date, amount));
    NoUpdates(s.updates, date);
    forall u | u in t.updates && u.date < date ensures Waits(t, u.date) || InTable(t, u.date) {
      HoldsConcat(s.finished, [s.today], u.date);
      HoldsOne(s.today, u.date);
      if u.date < s.today.date {
        assert Waits(s, u.date) || InTable(s, u.date);
      }
    }
  }

  lemma FailedWriteKeeps(s: DayState)
    requires DaysKept(s)
    ensures DaysKept(SnapshotWritten(s, false))
  {
    var t := SnapshotWritten(s, false);
    forall u | u in t.updates && u.date < s.today.date ensures Waits(t, u.date) || InTable(t, u.date) {
      assert Waits(s, u.date) || InTable(s, u.date);
    }
  }

  /** Writing a snapshot loses no day if and only if it is harmless: it does lose one when the day is over,
      its finished row has been stored, and requests counted since the snapshot are only in that row. */
  lemma SnapshotWriteKeepsExactlyWhen(s: DayState)
    requires DaysKept(s)
    ensures DaysKept(SnapshotWritten(s, true)) <==> Harmless(s)
  {
    if s.snapshot.Some? {
      var t, d := SnapshotWritten(s, true), s.snapshot.value;
      if Harmless(s) {
        forall u | u in s.updates && u.date < s.today.date ensures Waits(t, u.date) || InTable(t, u.date) {
          assert Waits(s, u.date) || InTable(s, u.date);
        }
      } else {
        var u :| u in s.updates && u.date == d.date;
        assert u in t.updates && !Waits(t, u.date) && !InTable(t, u.date);
      }
    }
  }

  /** A day leaves `from` for the table or the queue, or stays; the other days stay where they are. */
  lemma MoveKeeps(s: DayState, t: DayState)
    requires DaysKept(s) && t.today == s.today && t.updates == s.updates && t.snapshot == s.snapshot
    requires Exact(t.finished, s.today, s.updates) && Exact(t.flushing, s.today, s.updates)
             && Exact(t.queue, s.today, s.updates)
    requires forall date :: Waits(s, date) ==> Waits(t, date) || InTable(t, date)
    requires forall date :: InTable(s, date) ==> InTable(t, date)
    ensures DaysKept(t)
  {
    forall u | u in t.updates && u.date < t.today.date ensures Waits(t, u.date) || InTable(t, u.date) {
      assert Waits(s, u.date) || InTable(s, u.date);
    }
  }

  lemma FinishedSaveKeeps(s: DayState, i: nat, outcome: Outcome)
    requires DaysKept(s)
    ensures DaysKept(FinishedSaved(s, i, outcome))
  {
    if i < |s.finished| {
      var t, d := FinishedSaved(s, i, outcome), s.finished[i];
      assert d in s.finished;
      assert s.finished == s.finished[..i] + ([d] + s.finished[i + 1..]);
      forall date | Waits(s, date) ensures Waits(t, date) || InTable(t, date) {
        HoldsConcat(s.finished[..i], [d] + s.finished[i + 1..], date);
        HoldsConcat([d], s.finished[i + 1..], date);
        HoldsConcat(s.finished[..i], s.finished[i + 1..], date);
        HoldsOne(d, date);
        HoldsConcat(s.queue, [d], date);
      }
      MoveKeeps(s, t);
    }
  }

  lemma QueueTakeKeeps(s: DayState)
    requires DaysKept(s)
    ensures DaysKept(QueueTaken(s))
  {
    MoveKeeps(s, QueueTaken(s));
  }

  lemma OneStoreKeeps(s: DayState, ok: bool)
    requires DaysKept(s)
    ensures DaysKept(OneStored(s, ok))
  {
    if s.flushing != [] {
      var t, d := OneStored(s, ok), s.flushing[0];
      assert d in s.flushing && s.flushing == [d] + s.flushing[1..];
      forall date | Waits(s, date) ensures Waits(t, date) || InTable(t, date) {
        HoldsConcat([d], s.flushing[1..], date);
        HoldsOne(d, date);
        HoldsConcat(s.flushing, s.queue, date);
      }
      MoveKeeps(s, t);
    }
  }

  lemma DayStepKeeps(s: DayState, step: DayStep)
    requires DaysKept(s)
    ensures DaysKept(NextDay(s, step)) <==> (step == WriteSnapshot(true) ==> Harmless(s))
  {
    match step
    case AddUpdate(date, amount) =>
      if date == s.today.date {
        SameDayUpdateKeeps(s, amount);
      } else if date > s.today.date {
        NewDayUpdateKeeps(s, date, amount);
      }
    case TakeSnapshot => MoveOnKeeps(s);
    case WriteSnapshot(ok) =>
      if ok {
        SnapshotWriteKeepsExactlyWhen(s);
      } else {
        FailedWriteKeeps(s);
      }
    case SaveFinished(i, outcome) => FinishedSaveKeeps(s, i, outcome);
    case TakeQueue => QueueTakeKeeps(s);
    case StoreOne(ok) => OneStoreKeeps(s, ok);
  }

  lemma MoveOnKeeps(s: DayState)
    requires DaysKept(s)
    ensures DaysKept(s.(snapshot := Some(s.today)))
  {
    var t := s.(snapshot := Some(s.today));
    forall u | u in t.updates && u.date < t.today.date ensures Waits(t, u.date) || InTable(t, u.date) {
      assert Waits(s, u.date) || InTable(s, u.date);
    }
  }

  /** At every moment of the run. */
  ghost predicate AlwaysKept(s: DayState, steps: seq<DayStep>) {
    forall n :: 0 <= n <= |steps| ==> DaysKept(RunDays(s, steps[..n]))
  }

  lemma AlwaysKeptSplit(s: DayState, steps: seq<DayStep>)
    requires steps != []
    ensures AlwaysKept(s, steps) <==> AlwaysKept(s, steps[..|steps| - 1]) && DaysKept(RunDays(s, steps))
  {
    var before := steps[..|steps| - 1];
    assert steps[..|steps|] == steps;
    assert forall n :: 0 <= n <= |before| ==> before[..n] == steps[..n];
    if AlwaysKept(s, before) && DaysKept(RunDays(s, steps)) {
      forall n | 0 <= n <= |steps| ensures DaysKept(RunDays(s, steps[..n])) {
        if n < |steps| {
          assert DaysKept(RunDays(s, before[..n]));
        }
      }
    }
    if AlwaysKept(s, steps) {
      forall n | 0 <= n <= |before| ensures DaysKept(RunDays(s, before[..n])) {
        assert DaysKept(RunDays(s, steps[..n]));
      }
      assert DaysKept(RunDays(s, steps[..|steps|]));
    }
  }

  /** However saves and updates overlap: no day is ever lost if and only if every snapshot written is harmless. */
  lemma {:induction false} DaysKeptExactlyWhen(date: int, steps: seq<DayStep>)
    ensures AlwaysKept(Opened(date), steps) <==> HarmlessWrites(Opened(date), steps)
  {
    if steps != [] {
      var before := steps[..|steps| - 1];
      DaysKeptExactlyWhen(date, before);
      AlwaysKeptSplit(Opened(date), steps);
      if AlwaysKept(Opened(date), before) {
        assert before[..|before|] == before;
        DayStepKeeps(RunDays(Opened(date), before), steps[|steps| - 1]);
      }
    }
  }

  /** A day replaced since the snapshot was taken still waits for its own save. */
  predicate SnapshotWaits(s: DayState) {
    s.snapshot.Some? && s.snapshot.value.date != s.today.date ==> Holds(s.finished, s.snapshot.value.date)
  }

  lemma StepKeepsWaiting(s: DayState, step: DayStep)
    requires SnapshotWaits(s) && (step.SaveFinished? || step.StoreOne? ==> s.snapshot.None?)
    ensures SnapshotWaits(NextDay(s, step))
  {
    if s.snapshot.Some? {
      HoldsConcat(s.finished, [s.today], s.snapshot.value.date);
      HoldsOne(s.today, s.snapshot.value.date);
    }
  }

  lemma {:induction false} OneSaveIsHarmless(date: int, steps: seq<DayStep>)
    requires OneSaveAtATime(Opened(date), steps)
    ensures HarmlessWrites(Opened(date), steps) && SnapshotWaits(RunDays(Opened(date), steps))
  {
    if steps != [] {
      OneSaveIsHarmless(date, steps[..|steps| - 1]);
      StepKeepsWaiting(RunDays(Opened(date), steps[..|steps| - 1]), steps[|steps| - 1]);
    }
  }

  /** For every run of updates, day changes and saves one at a time, however stale a snapshot is when it is
      written: no day with updates is lost. */
  lemma NoDayForgotten(date: int, steps: seq<DayStep>)
    requires OneSaveAtATime(Opened(date), steps)
    ensures DaysKept(RunDays(Opened(date), steps))
  {
    OneSaveIsHarmless(date, steps);
    DaysKeptExactlyWhen(date, steps);
    assert steps[..|steps|] == steps;
  }

  /** Once no save is in progress or due, every earlier day is exact in queue or table. */
  lemma SettledDays(date: int, steps: seq<DayStep>)
    requires OneSaveAtATime(Opened(date), steps)
    requires var s := RunDays(Opened(date), steps); s.snapshot.None? && s.finished == [] && s.flushing == []
    ensures var s := RunDays(Opened(date), steps); NoDayLost(s.today, s.queue, s.db, s.updates)
  {
    NoDayForgotten(date, steps);
    var s := RunDays(Opened(date), steps);
    forall u | u in s.updates && u.date < s.today.date ensures Kept(u.date, s.queue, s.db, s.updates) {
      assert Waits(s, u.date) || InTable(s, u.date);
    }
  }

  lemma RunDaysMore(s: DayState, steps: seq<DayStep>, step: DayStep)
    ensures RunDays(s, steps + [step]) == NextDay(RunDays(s, steps), step)
  {
    assert (steps + [step])[..|steps|] == steps;
  }

  /** Two saves at once do lose an update: a regular save read 5, two more were added, the day changed and
      its request stored 7, and then the regular save wrote its 5 over it. */
  lemma OverlappingSavesLoseUpdate()
    ensures var s := RunDays(Opened(1),
              [AddUpdate(1, 5)] + [TakeSnapshot] + [AddUpdate(1, 2)] + [AddUpdate(2, 1)] + [SaveFinished(0, Stored)]
                  + [WriteSnapshot(true)]);
            && s.snapshot.None? && s.finished == [] && s.flushing == [] && s.queue == [] && 1 in s.db && s.db[1] == 5
            && DaySum(s.updates, 1) == 7
  {
    var s0 := Opened(1);
    assert [AddUpdate(1, 5)][..0] == [];
    assert RunDays(s0, [AddUpdate(1, 5)]) == NextDay(s0, AddUpdate(1, 5));
    RunDaysMore(s0, [AddUpdate(1, 5)], TakeSnapshot);
    RunDaysMore(s0, [AddUpdate(1, 5)] + [TakeSnapshot], AddUpdate(1, 2));
    RunDaysMore(s0, [AddUpdate(1, 5)] + [TakeSnapshot] + [AddUpdate(1, 2)], AddUpdate(2, 1));
    RunDaysMore(s0, [AddUpdate(1, 5)] + [TakeSnapshot] + [AddUpdate(1, 2)] + [AddUpdate(2, 1)],
                SaveFinished(0, Stored));
    RunDaysMore(s0, [AddUpdate(1, 5)] + [TakeSnapshot] + [AddUpdate(1, 2)] + [AddUpdate(2, 1)]
        + [SaveFinished(0, Stored)], WriteSnapshot(true));
    DaySumAppend([], Day(1, 5), 1);
    DaySumAppend([] + [Day(1, 5)], Day(1, 2), 1);
    DaySumAppend([] + [Day(1, 5)] + [Day(1, 2)], Day(2, 1), 1);
  }
}
