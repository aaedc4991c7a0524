/** The relay-log row and the size estimate charged against the write queue.
    Text is a sequence of bytes, one `char` each, as Go's `len` counts it. */
module RelayLogs {
  import opened Selecting

  datatype AttemptStatus = AttemptSuccess | AttemptFailed | AttemptSkipped | AttemptCapacity | AttemptRateLimit

  datatype ChannelAttempt = ChannelAttempt(
    channelId: int, channelName: string, modelName: string, status: AttemptStatus, msg: string)

  datatype RelayLog = RelayLog(
    id: int, time: int,
    requestModelName: string, requestApiKeyName: string,
    channelId: int, channelName: string, actualModelName: string,
    inputTokens: int, outputTokens: int, useTime: int, cost: real,
    requestContent: string, responseContent: string, error: string,
    success: bool, attempts: seq<ChannelAttempt>)

  /** The order of the table: by time, then by id. */
  datatype Cursor = Cursor(time: int, id: int)

  function KeyOf(log: RelayLog): Cursor {
    Cursor(log.time, log.id)
  }

  predicate KeyLess(a: Cursor, b: Cursor) {
    a.time < b.time || (a.time == b.time && a.id < b.id)
  }

  function AttemptBytes(attempts: seq<ChannelAttempt>): nat {
    if attempts == [] then 0
    else
      96 + |attempts[0].channelName| + |attempts[0].modelName| + |attempts[0].msg| + AttemptBytes(attempts[1..])
  }

  function ApproxBytes(log: RelayLog): nat {
    256 + |log.requestModelName| + |log.requestApiKeyName| + |log.channelName| + |log.actualModelName|
    + |log.requestContent| + |log.responseContent| + |log.error| + AttemptBytes(log.attempts)
  }

  function TotalBytes(logs: seq<RelayLog>): nat {
    if logs == [] then 0 else ApproxBytes(logs[0]) + TotalBytes(logs[1..])
  }

  lemma {:induction false} TotalBytesConcat(a: seq<RelayLog>, b: seq<RelayLog>)
    ensures TotalBytes(a + b) == TotalBytes(a) + TotalBytes(b)
  {
    if a == [] {
      assert a + b == b;
    } else {
      assert (a + b)[1..] == a[1..] + b;
      TotalBytesConcat(a[1..], b);
    }
  }

  function Ids(logs: seq<RelayLog>): set<int> {
    set log | log in logs :: log.id
  }

  ghost predicate DistinctIds(logs: seq<RelayLog>) {
    forall i, j :: 0 <= i < j < |logs| ==> logs[i].id != logs[j].id
  }

  function NotIn(ids: set<int>): RelayLog -> bool {
    (log: RelayLog) => log.id !in ids
  }

  /** The rows of `logs`, in order, whose id is not in `ids`. */
  function WithoutIds(logs: seq<RelayLog>, ids: set<int>): seq<RelayLog> {
    Select(logs, NotIn(ids))
  }

  /** Selecting by id changes nothing exactly when no listed id occurs. */
  lemma WithoutIdsKeepsAll(logs: seq<RelayLog>, ids: set<int>)
    ensures |WithoutIds(logs, ids)| <= |logs|
    ensures |WithoutIds(logs, ids)| == |logs| <==> WithoutIds(logs, ids) == logs
    ensures WithoutIds(logs, ids) == logs <==> forall log :: log in logs ==> log.id !in ids
  {
    SelectKeepsAll(logs, NotIn(ids));
    assert forall log :: NotIn(ids)(log) <==> log.id !in ids;
  }

  /** Selecting by id drops everything exactly when every row is listed. */
  lemma WithoutIdsDropsAll(logs: seq<RelayLog>, ids: set<int>)
    ensures WithoutIds(logs, ids) == [] <==> forall log :: log in logs ==> log.id in ids
  {
    SelectDropsAll(logs, NotIn(ids));
    assert forall log :: NotIn(ids)(log) <==> log.id !in ids;
  }
}
