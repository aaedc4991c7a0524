/** The write-behind queue of relay logs: request goroutines enqueue, one flusher at a time
    copies a prefix, writes it and removes it, and a clear empties queue and table. */
module RelayLogQueue {
  import opened Selecting
  import opened RelayLogs

  const BATCH_SIZE := 200
  const QUEUE_SIZE := 5000
  const QUEUE_BYTES := 64 * 1024 * 1024
  const MAX_BATCHES := 25

  /** What the holder of the flush lock is doing. */
  datatype Phase =
    | Idle
    | Copied(batch: seq<RelayLog>)   // prefix copied, insert not yet issued
    | Written(batch: seq<RelayLog>)  // insert committed, prefix still queued
    | Clearing                       // RelayLogClear is deleting rows

  /** `accepted` and `discarded` are history: every log ever admitted, and those a clear removed. */
  datatype State = State(
    pending: seq<RelayLog>,
    pendingBytes: int,
    droppedTotal: nat,
    flushSignal: bool,
    phase: Phase,
    db: seq<RelayLog>,
    accepted: seq<RelayLog>,
    discarded: multiset<RelayLog>)

  const EMPTY := State([], 0, 0, false, Idle, [], [], multiset{})

  /** One critical section. A step whose lock is taken does not happen. */
  datatype Step =
    | Enqueue(log: RelayLog)
    | CopyBatch(batchSize: int)
    | WriteBatch(ok: bool)
    | RemoveBatch
    | ClearBegin
    | ClearRows(ids: set<int>)
    | ClearEnd

  predicate Full(pending: seq<RelayLog>, pendingBytes: int, log: RelayLog) {
    |pending| >= QUEUE_SIZE || pendingBytes + ApproxBytes(log) > QUEUE_BYTES
  }

  /** The test by which the flusher recognises its batch at the head of the queue. */
  predicate AtHead(pending: seq<RelayLog>, batch: seq<RelayLog>) {
    && 0 < |batch| <= |pending|
    && pending[0].id == batch[0].id
    && pending[|batch| - 1].id == batch[|batch| - 1].id
  }

  function AfterFlush(pending: seq<RelayLog>, batch: seq<RelayLog>): seq<RelayLog> {
    if AtHead(pending, batch) then pending[|batch|..] else WithoutIds(pending, Ids(batch))
  }

  function BytesAfterFlush(pending: seq<RelayLog>, bytes: int, batch: seq<RelayLog>): int {
    var rest := AfterFlush(pending, batch);
    var left := if AtHead(pending, batch) then bytes - TotalBytes(batch) else TotalBytes(rest);
    if left < 0 || rest == [] then 0 else left
  }

  function EffectiveBatch(batchSize: int, queued: nat): nat {
    var wanted := if batchSize <= 0 then BATCH_SIZE else batchSize;
    if wanted > queued then queued else wanted
  }

  function Enqueued(s: State, log: RelayLog): State {
    if Full(s.pending, s.pendingBytes, log) then
      s.(droppedTotal := s.droppedTotal + 1)
    else
      s.(pending := s.pending + [log],
         pendingBytes := s.pendingBytes + ApproxBytes(log),
         flushSignal := s.flushSignal || |s.pending| + 1 >= BATCH_SIZE,
         accepted := s.accepted + [log])
  }

  function BatchCopied(s: State, batchSize: int): State {
    if s.phase != Idle || s.pending == [] then s
    else s.(phase := Copied(s.pending[..EffectiveBatch(batchSize, |s.pending|)]))
  }

  function BatchWritten(s: State, ok: bool): State {
    if !s.phase.Copied? then s
    else if ok then s.(phase := Written(s.phase.batch), db := s.db + s.phase.batch)
    else s.(phase := Idle)
  }

  function BatchRemoved(s: State): State {
    if !s.phase.Written? then s
    else
      s.(phase := Idle,
         pending := AfterFlush(s.pending, s.phase.batch),
         pendingBytes := BytesAfterFlush(s.pending, s.pendingBytes, s.phase.batch))
  }

  function ClearBegun(s: State): State {
    if s.phase != Idle then s
    else
      s.(phase := Clearing, pending := [], pendingBytes := 0,
         discarded := s.discarded + multiset(s.pending))
  }

  function RowsCleared(s: State, ids: set<int>): State {
    if s.phase != Clearing then s
    else
      s.(db := WithoutIds(s.db, ids),
         discarded := s.discarded + (multiset(s.db) - multiset(WithoutIds(s.db, ids))))
  }

  function Next(s: State, step: Step): State {
    match step
    case Enqueue(log) => Enqueued(s, log)
    case CopyBatch(batchSize) => BatchCopied(s, batchSize)
    case WriteBatch(ok) => BatchWritten(s, ok)
    case RemoveBatch => BatchRemoved(s)
    case ClearBegin => ClearBegun(s)
    case ClearRows(ids) => RowsCleared(s, ids)
    case ClearEnd => if s.phase != Clearing then s else s.(phase := Idle)
  }

  function Run(s: State, steps: seq<Step>): State {
    if steps == [] then s else Next(Run(s, steps[..|steps| - 1]), steps[|steps| - 1])
  }

  /** Queued logs that are not yet in the table. */
  function Unwritten(s: State): seq<RelayLog> {
    if s.phase.Written? && |s.phase.batch| <= |s.pending| then s.pending[|s.phase.batch|..] else s.pending
  }

  /** What every step keeps: exact accounting, the bounds, and the flusher's batch at the queue's head. */
  ghost predicate Consistent(s: State) {
    && s.pendingBytes == TotalBytes(s.pending)
    && |s.pending| <= QUEUE_SIZE
    && s.pendingBytes <= QUEUE_BYTES
    && (s.phase.Copied? || s.phase.Written? ==> s.phase.batch != [] && s.phase.batch <= s.pending)
  }

  /** Under the flush lock the batch is still the head of the queue, so the fast case always applies. */
  lemma HeadApplies(pending: seq<RelayLog>, batch: seq<RelayLog>)
    requires batch != [] && batch <= pending
    ensures AtHead(pending, batch)
    ensures pending == batch + AfterFlush(pending, batch)
    ensures BytesAfterFlush(pending, TotalBytes(pending), batch) == TotalBytes(AfterFlush(pending, batch))
  {
    var rest := pending[|batch|..];
    assert pending == batch + rest;
    TotalBytesConcat(batch, rest);
  }

  /** The slow filter by id agrees with the fast drop exactly when no later entry repeats an id of the batch. */
  lemma FastDropIsSlowFilter(batch: seq<RelayLog>, rest: seq<RelayLog>)
    ensures WithoutIds(batch + rest, Ids(batch)) == rest <==> Ids(batch) !! Ids(rest)
    ensures DistinctIds(batch + rest) ==> Ids(batch) !! Ids(rest)
  {
    SelectConcat(batch, rest, NotIn(Ids(batch)));
    WithoutIdsDropsAll(batch, Ids(batch));
    assert WithoutIds(batch + rest, Ids(batch)) == WithoutIds(rest, Ids(batch));
    WithoutIdsKeepsAll(rest, Ids(batch));
    if Ids(batch) !! Ids(rest) {
      forall log | log in rest ensures log.id !in Ids(batch) {
        assert log.id in Ids(rest);
      }
    }
    if DistinctIds(batch + rest) {
      DistinctIdsSplit(batch, rest);
    }
  }

  lemma DistinctIdsSplit(a: seq<RelayLog>, b: seq<RelayLog>)
    requires DistinctIds(a + b)
    ensures Ids(a) !! Ids(b)
  {
    forall x, y | x in a && y in b ensures x.id != y.id {
      var i :| 0 <= i < |a| && a[i] == x;
      var j :| 0 <= j < |b| && b[j] == y;
      assert (a + b)[i] == x && (a + b)[|a| + j] == y;
    }
  }

  lemma EnqueueKeepsConsistent(s: State, log: RelayLog)
    requires Consistent(s)
    ensures Consistent(Enqueued(s, log))
  {
    TotalBytesConcat(s.pending, [log]);
    assert TotalBytes([log]) == ApproxBytes(log);
  }

  lemma RemoveKeepsConsistent(s: State)
    requires Consistent(s)
    ensures Consistent(BatchRemoved(s))
  {
    if s.phase.Written? {
      HeadApplies(s.pending, s.phase.batch);
      TotalBytesConcat(s.phase.batch, AfterFlush(s.pending, s.phase.batch));
    }
  }

  lemma StepKeepsConsistent(s: State, step: Step)
    requires Consistent(s)
    ensures Consistent(Next(s, step))
  {
    match step
    case Enqueue(log) => EnqueueKeepsConsistent(s, log);
    case RemoveBatch => RemoveKeepsConsistent(s);
    case CopyBatch(_) =>
    case WriteBatch(_) =>
    case ClearBegin =>
    case ClearRows(_) =>
    case ClearEnd =>
  }

  predicate IsClear(step: Step) {
    step.ClearBegin? || step.ClearRows? || step.ClearEnd?
  }

  /** Without a clear a step preserves order: accepted == written ++ unwritten. */
  lemma StepKeepsFifo(s: State, step: Step)
    requires Consistent(s) && !IsClear(step)
    requires s.accepted == s.db + Unwritten(s)
    ensures var t := Next(s, step); t.accepted == t.db + Unwritten(t)
  {
    var t := Next(s, step);
    match step
    case Enqueue(log) =>
      if !Full(s.pending, s.pendingBytes, log) {
        EnqueueAddsOne(s, log);
        assert s.db + (Unwritten(s) + [log]) == (s.db + Unwritten(s)) + [log];
      }
    case WriteBatch(ok) =>
      if s.phase.Copied? && ok {
        var b := s.phase.batch;
        assert s.pending == b + s.pending[|b|..];
        assert s.db + (b + s.pending[|b|..]) == (s.db + b) + s.pending[|b|..];
      }
    case RemoveBatch =>
      if s.phase.Written? {
        HeadApplies(s.pending, s.phase.batch);
      }
    case CopyBatch(_) =>
  }

  ghost predicate Conserved(s: State) {
    multiset(s.accepted) == multiset(s.db) + multiset(Unwritten(s)) + s.discarded
  }

  lemma EnqueueConserves(s: State, log: RelayLog)
    requires Consistent(s) && Conserved(s)
    ensures Conserved(Enqueued(s, log))
  {
    if !Full(s.pending, s.pendingBytes, log) {
      EnqueueAddsOne(s, log);
      BagAppend(Unwritten(s), log);
      BagAppend(s.accepted, log);
    }
  }

  lemma EnqueueAddsOne(s: State, log: RelayLog)
    requires Consistent(s) && !Full(s.pending, s.pendingBytes, log)
    ensures Unwritten(Enqueued(s, log)) == Unwritten(s) + [log]
  {
  }

  lemma BagAppend(logs: seq<RelayLog>, log: RelayLog)
    ensures multiset(logs + [log]) == multiset(logs) + multiset{log}
  {
  }

  lemma WriteConserves(s: State, ok: bool)
    requires Consistent(s) && Conserved(s)
    ensures Conserved(BatchWritten(s, ok))
  {
    if s.phase.Copied? && ok {
      var b := s.phase.batch;
      var rest := s.pending[|b|..];
      assert s.pending == b + rest;
      assert multiset(s.pending) == multiset(b) + multiset(rest);
    }
  }

  lemma RemoveConserves(s: State)
    requires Consistent(s) && Conserved(s)
    ensures Conserved(BatchRemoved(s))
  {
    if s.phase.Written? {
      HeadApplies(s.pending, s.phase.batch);
    }
  }

  lemma ClearRowsConserves(s: State, ids: set<int>)
    requires Conserved(s)
    ensures Conserved(RowsCleared(s, ids))
  {
    SelectBag(s.db, NotIn(ids));
  }

  lemma CopyConserves(s: State, batchSize: int)
    requires Conserved(s)
    ensures Conserved(BatchCopied(s, batchSize))
  {
    if s.phase.Idle? && s.pending != [] {
      assert Unwritten(BatchCopied(s, batchSize)) == s.pending == Unwritten(s);
    }
  }

  lemma ClearBeginConserves(s: State)
    requires Conserved(s)
    ensures Conserved(ClearBegun(s))
  {
    if s.phase.Idle? {
      assert Unwritten(s) == s.pending && Unwritten(ClearBegun(s)) == [];
    }
  }

  lemma ClearEndConserves(s: State)
    requires Conserved(s)
    ensures Conserved(Next(s, ClearEnd))
  {
    if s.phase.Clearing? {
      assert Unwritten(Next(s, ClearEnd)) == s.pending == Unwritten(s);
    }
  }

  /** Every step conserves logs: each accepted one is written, waiting or cleared, never two of these. */
  lemma StepConserves(s: State, step: Step)
    requires Consistent(s) && Conserved(s)
    ensures Conserved(Next(s, step))
  {
    match step
    case Enqueue(log) => EnqueueConserves(s, log);
    case CopyBatch(batchSize) => CopyConserves(s, batchSize);
    case WriteBatch(ok) => WriteConserves(s, ok);
    case RemoveBatch => RemoveConserves(s);
    case ClearBegin => ClearBeginConserves(s);
    case ClearRows(ids) => ClearRowsConserves(s, ids);
    case ClearEnd => ClearEndConserves(s);
  }

  /** Over every interleaving from an empty queue: the byte counter is exact, both bounds hold,
      nothing is lost or duplicated, and without a clear the table holds the accepted logs in
      enqueue order with exactly the unwritten ones missing at the end. */
  lemma {:induction false} ExactlyOnce(steps: seq<Step>)
    ensures var s := Run(EMPTY, steps);
            && Consistent(s)
            && Conserved(s)
            && ((forall step :: step in steps ==> !IsClear(step)) ==> s.accepted == s.db + Unwritten(s))
  {
    if steps != [] {
      var prefix, last := steps[..|steps| - 1], steps[|steps| - 1];
      ExactlyOnce(prefix);
      var s := Run(EMPTY, prefix);
      StepKeepsConsistent(s, last);
      StepConserves(s, last);
      if forall step :: step in steps ==> !IsClear(step) {
        assert last in steps;
        assert forall step :: step in prefix ==> step in steps;
        StepKeepsFifo(s, last);
      }
    }
  }

  /** A clear never falls between a flush's copy and its remove: while a batch is copied or written
      only enqueues and the flusher's own next step change anything. */
  lemma ClearWaitsForFlush(s: State, step: Step)
    requires s.phase.Copied? || s.phase.Written?
    ensures IsClear(step) || step.CopyBatch? ==> Next(s, step) == s
    ensures Next(s, step).phase != s.phase ==>
              (s.phase.Copied? && step.WriteBatch?) || (s.phase.Written? && step.RemoveBatch?)
  {
  }

  /** Between flushes no id is both queued and stored, provided ids are unique; with a written batch
      still queued every id of that batch is in both places. */
  lemma QueueAndTableOverlap(steps: seq<Step>)
    requires forall step :: step in steps ==> !IsClear(step)
    requires DistinctIds(Run(EMPTY, steps).accepted)
    ensures var s := Run(EMPTY, steps);
            Ids(s.db) * Ids(s.pending) == if s.phase.Written? then Ids(s.phase.batch) else {}
  {
    ExactlyOnce(steps);
    var s := Run(EMPTY, steps);
    var rest := Unwritten(s);
    forall a, b | a in s.db && b in rest ensures a.id != b.id {
      var i :| 0 <= i < |s.db| && s.db[i] == a;
      var j :| 0 <= j < |rest| && rest[j] == b;
      assert s.accepted[i] == a && s.accepted[|s.db| + j] == b;
    }
    if s.phase.Written? {
      WrittenBatchIsStored(steps);
      assert s.pending == s.phase.batch + rest;
    }
  }

  ghost predicate WrittenIsStored(s: State) {
    s.phase.Written? ==> |s.phase.batch| <= |s.db| && s.db[|s.db| - |s.phase.batch|..] == s.phase.batch
  }

  lemma {:induction false} WrittenBatchIsStored(steps: seq<Step>)
    ensures WrittenIsStored(Run(EMPTY, steps))
  {
    if steps != [] {
      WrittenBatchIsStored(steps[..|steps| - 1]);
      StepKeepsStored(Run(EMPTY, steps[..|steps| - 1]), steps[|steps| - 1]);
    }
  }

  lemma StepKeepsStored(s: State, step: Step)
    requires WrittenIsStored(s)
    ensures WrittenIsStored(Next(s, step))
  {
    if step.WriteBatch? && s.phase.Copied? {
      assert (s.db + s.phase.batch)[|s.db|..] == s.phase.batch;
    }
  }

  /** The process-wide queue. The two locks are held exactly for the duration of each method, except
      that the flush lock spans CopyPrefix .. Remove, which `phase` records. */
  class Writer {
    var pending: seq<RelayLog>
    var pendingBytes: int
    var droppedTotal: nat
    var flushSignal: bool
    var phase: Phase
    var db: seq<RelayLog>
    ghost var accepted: seq<RelayLog>
    ghost var discarded: multiset<RelayLog>

    ghost function Model(): State
      reads this
    {
      State(pending, pendingBytes, droppedTotal, flushSignal, phase, db, accepted, discarded)
    }

    constructor ()
      ensures Model() == EMPTY
      ensures pending == [] && pendingBytes == 0 && droppedTotal == 0 && !flushSignal && phase == Idle && db == []
    {
      pending, pendingBytes, droppedTotal, flushSignal, phase, db := [], 0, 0, false, Idle, [];
      accepted, discarded := [], multiset{};
    }

    method Admit(log: RelayLog) returns (ok: bool)
      modifies this
      ensures Model() == Enqueued(old(Model()), log)
      ensures ok <==> |old(pending)| < 5000 && old(pendingBytes) + ApproxBytes(log) <= 67_108_864
      ensures pending == if ok then old(pending) + [log] else old(pending)
      ensures droppedTotal == old(droppedTotal) + if ok then 0 else 1
      ensures flushSignal <==> old(flushSignal) || (ok && |pending| >= 200)
    {
      var size := ApproxBytes(log);
      if |pending| >= QUEUE_SIZE || pendingBytes + size > QUEUE_BYTES {
        droppedTotal := droppedTotal + 1;
        return false;
      }
      pending := pending + [log];
      pendingBytes := pendingBytes + size;
      accepted := accepted + [log];
      if |pending| >= BATCH_SIZE {
        flushSignal := true;
      }
      return true;
    }

    method CopyPrefix(batchSize: int)
      requires phase == Idle
      modifies this
      ensures Model() == BatchCopied(old(Model()), batchSize)
    {
      if |pending| == 0 {
        return;
      }
      var size := if batchSize <= 0 then BATCH_SIZE else batchSize;
      if size > |pending| {
        size := |pending|;
      }
      phase := Copied(pending[..size]);
    }

    /** The insert is one transaction: `ok` is its outcome. */
    method Insert(ok: bool)
      requires phase.Copied?
      modifies this
      ensures Model() == BatchWritten(old(Model()), ok)
    {
      if ok {
        db := db + phase.batch;
        phase := Written(phase.batch);
      } else {
        phase := Idle;
      }
    }

    method Remove()
      requires phase.Written?
      modifies this
      ensures Model() == BatchRemoved(old(Model()))
    {
      pending, pendingBytes := DropBatch(phase.batch);
      if pendingBytes < 0 {
        pendingBytes := 0;
      }
      if |pending| == 0 {
        pendingBytes := 0;
      }
      phase := Idle;
    }

    /** The prefix drop when the batch is at the head, else the filter by id. */
    method DropBatch(batch: seq<RelayLog>) returns (rest: seq<RelayLog>, bytes: int)
      ensures rest == AfterFlush(pending, batch)
      ensures bytes == if AtHead(pending, batch) then pendingBytes - TotalBytes(batch) else TotalBytes(rest)
    {
      if |batch| > 0 && |pending| >= |batch| && pending[0].id == batch[0].id
          && pending[|batch| - 1].id == batch[|batch| - 1].id {
        return pending[|batch|..], pendingBytes - TotalBytes(batch);
      }
      rest, bytes := KeepUnflushed(pending, Ids(batch));
    }

    /** One whole flush with no other goroutine running. */
    method FlushPendingBatch(batchSize: int, outcome: bool) returns (ok: bool)
      requires Consistent(Model()) && phase == Idle
      modifies this
      ensures Consistent(Model()) && phase == Idle
      ensures accepted == old(accepted) && flushSignal == old(flushSignal)
      ensures ok == (outcome || old(pending) == [])
      ensures var n := if ok then EffectiveBatch(batchSize, |old(pending)|) else 0;
              db == old(db) + old(pending)[..n] && pending == old(pending)[n..]
    {
      ghost var idle := Model();
      CopyPrefix(batchSize);
      StepKeepsConsistent(idle, Step.CopyBatch(batchSize));
      if phase == Idle {
        return true;
      }
      ghost var copied := Model();
      Insert(outcome);
      StepKeepsConsistent(copied, Step.WriteBatch(outcome));
      if !outcome {
        return false;
      }
      ghost var written := Model();
      Remove();
      StepKeepsConsistent(written, Step.RemoveBatch);
      HeadApplies(written.pending, written.phase.batch);
      return true;
    }

    /** Drains at most `maxBatches` batches with no other goroutine running; `outcomes(i)` is the
        result of the i-th insert, a cancelled context included. */
    method DrainPending(maxBatches: int, outcomes: nat -> bool) returns (ok: bool)
      requires Consistent(Model()) && phase == Idle
      modifies this
      ensures Consistent(Model()) && phase == Idle
      ensures db + pending == old(db + pending) && accepted == old(accepted)
      ensures ok ==> var most := 200 * if maxBatches <= 0 then 1 else maxBatches;
                     |pending| == if |old(pending)| <= most then 0 else |old(pending)| - most
      ensures ok && pending != [] ==> flushSignal
      ensures (forall i: nat :: outcomes(i)) ==> ok
    {
      var limit := if maxBatches <= 0 then 1 else maxBatches;
      var i := 0;
      while i < limit
        invariant 0 <= i <= limit
        invariant Consistent(Model()) && phase == Idle
        invariant db + pending == old(db + pending) && accepted == old(accepted)
        invariant |pending| == if |old(pending)| <= BATCH_SIZE * i then 0 else |old(pending)| - BATCH_SIZE * i
      {
        if |pending| == 0 {
          return true;
        }
        var flushed := FlushPendingBatch(BATCH_SIZE, outcomes(i));
        if !flushed {
          return false;
        }
        i := i + 1;
      }
      if |pending| > 0 {
        flushSignal := true;
      }
      return true;
    }

    /** The flush on shutdown, with no other goroutine running: batch after batch until the queue is empty
        or an insert fails. */
    method FlushPending(outcomes: nat -> bool) returns (ok: bool)
      requires Consistent(Model()) && phase == Idle
      modifies this
      ensures Consistent(Model()) && phase == Idle
      ensures db + pending == old(db + pending) && accepted == old(accepted)
      ensures ok ==> pending == []
      ensures (forall i: nat :: outcomes(i)) ==> ok
    {
      ghost var all := db + pending;
      var i := 0;
      while true
        invariant Consistent(Model()) && phase == Idle && i >= 0
        invariant db + pending == all && accepted == old(accepted)
        decreases |pending|
      {
        if |pending| == 0 {
          return true;
        }
        ghost var was := db + pending;
        var flushed := FlushPendingBatch(BATCH_SIZE, outcomes(i));
        assert db + pending == was;
        if !flushed {
          return false;
        }
        i := i + 1;
      }
    }

    /** One drain of the background writer is enough for a full queue: 25 * 200 == 5000. */
    method DrainOnce(outcomes: nat -> bool) returns (ok: bool)
      requires Consistent(Model()) && phase == Idle
      modifies this
      ensures ok ==> pending == [] && db == old(db + pending)
      ensures (forall i: nat :: outcomes(i)) ==> ok
    {
      ok := DrainPending(MAX_BATCHES, outcomes);
      assert ok ==> db == db + pending;
    }

    method BeginClear()
      requires phase == Idle
      modifies this
      ensures Model() == ClearBegun(old(Model()))
    {
      discarded := discarded + multiset(pending);
      pending, pendingBytes := [], 0;
      phase := Clearing;
    }
  }

  /** The slow removal: keeps, in order, the entries whose id was not flushed and recounts their bytes. */
  method KeepUnflushed(pending: seq<RelayLog>, flushed: set<int>) returns (kept: seq<RelayLog>, keptBytes: int)
    ensures kept == WithoutIds(pending, flushed)
    ensures keptBytes == TotalBytes(kept)
  {
    kept, keptBytes := [], 0;
    for i := 0 to |pending|
      invariant kept == WithoutIds(pending[..i], flushed)
      invariant keptBytes == TotalBytes(kept)
    {
      SelectNext(pending, i, NotIn(flushed));
      TotalBytesConcat(kept, [pending[i]]);
      assert TotalBytes([pending[i]]) == ApproxBytes(pending[i]);
      if pending[i].id !in flushed {
        kept := kept + [pending[i]];
        keptBytes := keptBytes + ApproxBytes(pending[i]);
      }
    }
    assert pending[..|pending|] == pending;
  }
}
