/** Names, dates and times of the ledger's rows. */
module LedgerRows {
  import opened HourlyLedger
  import opened Wrappers

  /** The last name that is not empty among the entries of the key. */
  function LastName<K(==)>(entries: seq<Entry<K>>, k: K): string {
    if entries == [] then ""
    else
      var e := entries[|entries| - 1];
      if e.key == k && e.row.name != "" then e.row.name else LastName(entries[..|entries| - 1], k)
  }

  /** A row exists exactly for keys with an entry; it has the date of the first one, at position `first`, and the
      last name given. */
  lemma {:induction false} RowOfEntries<K>(entries: seq<Entry<K>>, k: K) returns (first: int)
    ensures -1 <= first < |entries|
    ensures forall j :: 0 <= j < |entries| && (first < 0 || j < first) ==> entries[j].key != k
    ensures var rows := RecordAll(map[], entries);
            if first < 0 then k !in rows && LastName(entries, k) == ""
            else entries[first].key == k && k in rows
                 && rows[k].date == entries[first].row.date && rows[k].name == LastName(entries, k)
  {
    first := -1;
    if entries != [] {
      var before, e := entries[..|entries| - 1], entries[|entries| - 1];
      first := RowOfEntries(before, k);
      assert forall j :: 0 <= j < |before| ==> before[j] == entries[j];
      if first < 0 && e.key == k {
        first := |before|;
      }
    }
  }

  /** A flushed row gives its name and date to the stored one, a newer time too, and adds its counters; rows not
      flushed stay. */
  lemma FlushedRow<K>(db: map<K, Row>, snapshot: map<K, Row>, k: K)
    ensures var after := Merge(db, snapshot, Upserted);
            && (k in after <==> k in db || k in snapshot)
            && (k in db && k !in snapshot ==> after[k] == db[k])
            && (k !in db && k in snapshot ==> after[k] == snapshot[k])
            && (k in db && k in snapshot ==>
                  && after[k].name == snapshot[k].name && after[k].date == snapshot[k].date
                  && after[k].lastRequestAt
                      == (if snapshot[k].lastRequestAt > db[k].lastRequestAt then snapshot[k].lastRequestAt
                                               else db[k].lastRequestAt)
                  && forall c :: Count(after[k].metrics, c) == Count(db[k].metrics, c) + Count(snapshot[k].metrics, c))
  {
  }

  /** A row put back after a failed flush gives its name if it has one; the date stays that of the cached row. */
  lemma RestoredRow<K>(cache: map<K, Row>, snapshot: map<K, Row>, k: K)
    ensures var after := Merge(cache, snapshot, Recorded);
            && (k in after <==> k in cache || k in snapshot)
            && (k in cache && k !in snapshot ==> after[k] == cache[k])
            && (k !in cache && k in snapshot ==> after[k] == snapshot[k])
            && (k in cache && k in snapshot ==>
                  && after[k].date == cache[k].date
                  && (snapshot[k].name != "" ==> after[k].name == snapshot[k].name)
                  && (snapshot[k].name == "" ==> after[k].name == cache[k].name)
                  && after[k].lastRequestAt
                      == (if snapshot[k].lastRequestAt > cache[k].lastRequestAt then snapshot[k].lastRequestAt
                                               else cache[k].lastRequestAt)
                  && forall c ::
                      Count(after[k].metrics, c) == Count(cache[k].metrics, c) + Count(snapshot[k].metrics, c))
  {
  }

  /** A ledger starts with nothing stored and no flush under way, so that the first event is recorded. */
  lemma FirstEvent<K>(e: Entry<K>)
    ensures var s := Next(Empty(), Record([e]));
            && s.cache == map[e.key := e.row] && s.db == map[] && s.history == [e] && !s.flushing
            && Next(s, Detach) == s.(snapshot := s.cache, cache := map[], flushing := true)
            && Next(Next(s, Detach), Settle(true)).db == map[e.key := e.row]
            && Next(Next(s, Detach), Settle(false)).cache == map[e.key := e.row]
  {
    assert [e][..0] == [];
    assert RecordAll(map[], [e]) == RecordOne(map[], e);
    assert [] + [e] == [e];
  }

  /** The seven counters, by name. */
  lemma CountersAre(m: Metrics)
    ensures Count(m, InputToken) == m.inputToken as real && Count(m, OutputToken) == m.outputToken as real
    ensures Count(m, InputCost) == m.inputCost && Count(m, OutputCost) == m.outputCost
    ensures Count(m, WaitTime) == m.waitTime as real
    ensures Count(m, RequestSuccess) == m.requestSuccess as real && Count(m, RequestFailed) == m.requestFailed as real
  {
  }
}
