/** The bounds of the queue in numbers: what a log is charged, which logs are admitted, how much a flush takes,
    and what a clear removes. */
module RelayLogBounds {
  import opened Selecting
  import opened RelayLogs
  import opened RelayLogQueue

  // ----- what a log is charged -----

  /** A log without texts and attempts is charged 256 bytes. */
  lemma BareLog(log: RelayLog)
    requires log.requestModelName == log.requestApiKeyName == log.channelName == log.actualModelName == ""
    requires log.requestContent == log.responseContent == log.error == "" && log.attempts == []
    ensures ApproxBytes(log) == 256
  {
  }

  /** Every byte of every text counts once, wherever it stands. */
  lemma TextsCount(log: RelayLog, text: string)
    ensures ApproxBytes(log.(requestModelName := log.requestModelName + text)) == ApproxBytes(log) + |text|
    ensures ApproxBytes(log.(requestApiKeyName := log.requestApiKeyName + text)) == ApproxBytes(log) + |text|
    ensures ApproxBytes(log.(channelName := log.channelName + text)) == ApproxBytes(log) + |text|
    ensures ApproxBytes(log.(actualModelName := log.actualModelName + text)) == ApproxBytes(log) + |text|
    ensures ApproxBytes(log.(requestContent := log.requestContent + text)) == ApproxBytes(log) + |text|
    ensures ApproxBytes(log.(responseContent := log.responseContent + text)) == ApproxBytes(log) + |text|
    ensures ApproxBytes(log.(error := log.error + text)) == ApproxBytes(log) + |text|
  {
  }

  /** An attempt is charged 96 bytes and its three texts. */
  lemma AttemptsCount(log: RelayLog, a: ChannelAttempt)
    ensures ApproxBytes(log.(attempts := [a] + log.attempts))
            == ApproxBytes(log) + 96 + |a.channelName| + |a.modelName| + |a.msg|
  {
    assert ([a] + log.attempts)[1..] == log.attempts;
  }

  // ----- which logs are admitted -----

  /** In every reachable state a log joins the queue if and only if fewer than 5000 are queued and it fits beside
      them into 64 MiB; otherwise it is counted as dropped and nothing else changes. */
  lemma AdmittedExactlyWhen(steps: seq<Step>, log: RelayLog)
    ensures var s := Run(EMPTY, steps);
            var t := Next(s, Enqueue(log));
            if |s.pending| < 5000 && TotalBytes(s.pending) + ApproxBytes(log) <= 64 * 1024 * 1024 then
              && t.pending == s.pending + [log] && t.accepted == s.accepted + [log]
              && t.droppedTotal == s.droppedTotal && (t.flushSignal <==> s.flushSignal || |t.pending| >= 200)
            else t == s.(droppedTotal := s.droppedTotal + 1)
  {
    ExactlyOnce(steps);
  }

  // ----- how much a flush takes -----

  /** A flush that finds logs and no other holder of the lock takes the first 200 of them, or as many as it was
      told to, or all there are. */
  lemma BatchTaken(s: State, batchSize: int)
    requires s.phase == Idle && s.pending != []
    ensures var wanted: nat := if batchSize > 0 then batchSize else 200;
            Next(s, CopyBatch(batchSize))
            == s.(phase := Copied(if wanted < |s.pending| then s.pending[..wanted] else s.pending))
  {
    assert s.pending[..|s.pending|] == s.pending;
  }

  /** A failed insert gives the batch up and leaves queue and table alone; a good one appends it to the table. */
  lemma BatchInserted(s: State, batch: seq<RelayLog>)
    requires s.phase == Copied(batch)
    ensures Next(s, WriteBatch(false)) == s.(phase := Idle)
    ensures Next(s, WriteBatch(true)) == s.(phase := Written(batch), db := s.db + batch)
  {
  }

  // ----- what a clear removes -----

  /** Clearing rows removes exactly the rows with one of the ids, and keeps the others. */
  lemma ClearRemovesIds(s: State, ids: set<int>, row: RelayLog)
    requires s.phase == Clearing
    ensures row in Next(s, ClearRows(ids)).db <==> row in s.db && row.id !in ids
  {
    SelectElements(s.db, NotIn(ids));
  }
}
