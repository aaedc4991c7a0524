/** What page and cursor requests answer, in the numbers of the request and the fields of the rows. */
module RelayLogRequests {
  import opened Selecting
  import opened RelayLogs
  import opened LikeFilter
  import opened RelayLogListing
  import opened Wrappers

  /** The elements at positions from `from` up to, not including, `to`, as far as there are any. */
  function Cut<T>(s: seq<T>, from: nat, to: nat): seq<T>
    requires from <= to
  {
    if from >= |s| then [] else if to >= |s| then s[from..] else s[from..to]
  }

  // ----- pages -----

  lemma SliceMeans<T>(s: seq<T>, offset: nat, count: nat)
    ensures Slice(s, offset, count) == Cut(s, offset, offset + count)
  {
  }

  lemma AnswerIsCut(queued: seq<RelayLog>, rows: seq<RelayLog>, f: Filter, page: int, pageSize: int, before: nat,
                    size: nat)
    requires Ids(queued) !! Ids(rows) && before == Requested(page, pageSize) && size == Clamped(pageSize, 1, 100, 20)
    ensures RequestAnswer(queued, rows, f, page, pageSize) == Cut(Listed(queued, rows, f), before, before + size)
  {
    DisjointPage(queued, rows, f, before, size);
    SliceMeans(Listed(queued, rows, f), before, size);
  }

  lemma RequestedIs(page: int, pageSize: int, size: nat)
    requires size == if 1 <= pageSize <= 100 then pageSize else 20
    ensures Clamped(pageSize, 1, 100, 20) == size
    ensures Requested(page, pageSize) == if page <= 1 then 0 else (page - 1) * size
  {
  }

  /** Page p of a size that is allowed begins behind p - 1 full pages; pages below 1 are page 1, and an
      illegal size is 20. */
  lemma PageBegins(queued: seq<RelayLog>, rows: seq<RelayLog>, f: Filter, page: int, pageSize: int)
    requires Ids(queued) !! Ids(rows)
    ensures var size: nat := if 1 <= pageSize <= 100 then pageSize else 20;
            var before: nat := if page <= 1 then 0 else (page - 1) * size;
            RequestAnswer(queued, rows, f, page, pageSize) == Cut(Listed(queued, rows, f), before, before + size)
  {
    var size: nat := if 1 <= pageSize <= 100 then pageSize else 20;
    RequestedIs(page, pageSize, size);
    AnswerIsCut(queued, rows, f, page, pageSize, Requested(page, pageSize), size);
  }

  /** The answers to the requests for pages 1 to n, laid end to end. */
  function Laid(answer: nat -> seq<RelayLog>, n: nat): seq<RelayLog> {
    if n == 0 then [] else Laid(answer, n - 1) + answer(n)
  }

  function Times(n: nat, size: nat): nat {
    if n == 0 then 0 else Times(n - 1, size) + size
  }

  lemma {:induction false} TimesMeans(n: nat, size: nat)
    ensures Times(n, size) == n * size
  {
    if n > 0 {
      TimesMeans(n - 1, size);
    }
  }

  lemma NextPage(queued: seq<RelayLog>, rows: seq<RelayLog>, f: Filter, pageSize: nat, n: nat)
    requires Ids(queued) !! Ids(rows) && 1 <= pageSize <= 100
    ensures RequestAnswer(queued, rows, f, n + 1, pageSize)
            == Cut(Listed(queued, rows, f), Times(n, pageSize), Times(n, pageSize) + pageSize)
  {
    RequestedTimes(n, pageSize);
    AnswerIsCut(queued, rows, f, n + 1, pageSize, Times(n, pageSize), pageSize);
  }

  lemma RequestedTimes(n: nat, pageSize: nat)
    requires 1 <= pageSize <= 100
    ensures Requested(n + 1, pageSize) == Times(n, pageSize) && Clamped(pageSize, 1, 100, 20) == pageSize
  {
    TimesMeans(n, pageSize);
    RequestedIs(n + 1, pageSize, pageSize);
  }

  lemma {:induction false} LaidIsCut(answer: nat -> seq<RelayLog>, all: seq<RelayLog>, size: nat, n: nat)
    requires forall i: nat :: answer(i + 1) == Cut(all, Times(i, size), Times(i, size) + size)
    ensures Laid(answer, n) == Cut(all, 0, Times(n, size))
  {
    if n > 0 {
      LaidIsCut(answer, all, size, n - 1);
      assert answer(n - 1 + 1) == Cut(all, Times(n - 1, size), Times(n - 1, size) + size);
      Continued(all, Times(n - 1, size), Times(n, size));
    }
  }

  /** The answers to pages 1 to n are the first n times pageSize rows: nothing is skipped, nothing repeated. */
  lemma PagesReadOn(queued: seq<RelayLog>, rows: seq<RelayLog>, f: Filter, pageSize: nat, n: nat)
    requires Ids(queued) !! Ids(rows) && 1 <= pageSize <= 100
    ensures Laid((page: nat) => RequestAnswer(queued, rows, f, page, pageSize), n)
            == Cut(Listed(queued, rows, f), 0, n * pageSize)
  {
    var answer := (page: nat) => RequestAnswer(queued, rows, f, page, pageSize);
    forall i: nat
      ensures answer(i + 1) == Cut(Listed(queued, rows, f), Times(i, pageSize), Times(i, pageSize) + pageSize)
    {
      NextPage(queued, rows, f, pageSize, i);
    }
    LaidIsCut(answer, Listed(queued, rows, f), pageSize, n);
    TimesMeans(n, pageSize);
  }

  lemma Continued<T>(all: seq<T>, a: nat, b: nat)
    requires a <= b
    ensures Cut(all, 0, a) + Cut(all, a, b) == Cut(all, 0, b)
  {
  }

  // ----- cursors -----

  /** What either bound of a cursor, or both, admits. */
  lemma OlderMeans(logs: seq<RelayLog>, log: RelayLog, time: int, id: int)
    ensures log in Older(logs, None, None) <==> log in logs
    ensures log in Older(logs, Some(time), None) <==> log in logs && log.time < time
    ensures log in Older(logs, None, Some(id)) <==> log in logs && log.id < id
    ensures log in Older(logs, Some(time), Some(id)) <==>
            log in logs && log.time <= time && (log.time == time ==> log.id < id)
  {
    OlderSubset(logs, None, None);
    OlderSubset(logs, Some(time), None);
    OlderSubset(logs, None, Some(id));
    OlderSubset(logs, Some(time), Some(id));
  }

  /** Over disjoint sources a cursor request answers the first rows admitted, as many as its limit says, or the
      page size if it names no limit, or 20 if that is illegal, and names time and id of the last one to go on
      from if and only if there are more. */
  lemma CursorRequest(cached: seq<RelayLog>, stored: seq<RelayLog>, requested: int, pageSize: int,
                      bt: Option<int>, bi: Option<int>)
    requires forall a, b :: a in cached && b in stored ==> a.id != b.id
    ensures 1 <= CursorLimit(requested, pageSize) <= 100
    ensures var limit: nat := if 1 <= requested <= 100 then requested
                              else if requested == 0 && 1 <= pageSize <= 100 then pageSize else 20;
            Answers(CursorAnswer(cached, stored, CursorLimit(requested, pageSize), bt, bi),
                    Older(cached, bt, bi) + Older(stored, bt, bi), limit)
  {
    CursorAnswered(cached, stored, CursorLimit(requested, pageSize), bt, bi);
  }

  /** The page holds the first `limit` rows admitted and says whether and where to go on. */
  predicate Answers(page: CursorPage, admitted: seq<RelayLog>, limit: nat)
    requires limit >= 1
  {
    && page.logs == Cut(admitted, 0, limit)
    && page.hasMore == (|admitted| > limit)
    && (page.next.Some? <==> |admitted| > limit)
    && (|admitted| > limit ==> page.next == Some(Cursor(admitted[limit - 1].time, admitted[limit - 1].id)))
  }

  lemma CursorAnswered(cached: seq<RelayLog>, stored: seq<RelayLog>, limit: nat, bt: Option<int>, bi: Option<int>)
    requires limit >= 1 && forall a, b :: a in cached && b in stored ==> a.id != b.id
    ensures Answers(CursorAnswer(cached, stored, limit, bt, bi), Older(cached, bt, bi) + Older(stored, bt, bi), limit)
  {
    CursorPageOfOneList(cached, stored, limit, bt, bi);
    SelectConcat(cached, stored, Before(bt, bi));
    PageOfMeans(Older(cached, bt, bi) + Older(stored, bt, bi), limit);
  }

  lemma PageOfMeans(admitted: seq<RelayLog>, limit: nat)
    requires limit >= 1
    ensures Answers(PageOf(admitted, limit), admitted, limit)
  {
  }

  // ----- filters -----

  /** The conditions on time, channel and status, bounds included. */
  predicate Selected(log: RelayLog, f: Filter) {
    && (f.startTime.Some? ==> f.startTime.value <= log.time)
    && (f.endTime.Some? ==> log.time <= f.endTime.value)
    && (f.channelIds == [] || log.channelId in f.channelIds)
    && (f.status == OnlySuccess ==> log.success)
    && (f.status == OnlyError ==> !log.success)
  }

  /** Without a keyword the listing holds exactly the selected rows of queue and table. */
  lemma ListedWithoutKeyword(queued: seq<RelayLog>, rows: seq<RelayLog>, f: Filter, log: RelayLog)
    requires f.lower(f.keyword) == ""
    ensures log in Listed(queued, rows, f) <==> (log in queued || log in rows) && Selected(log, f)
  {
    SelectElements(Reversed(queued), Matcher(f));
    SelectElements(rows, SqlMatcher(f));
    ReversedElements(queued);
  }

  /** The text has the keyword where the mode looks for it. */
  ghost predicate Hit(text: string, keyword: string, mode: KeywordMode) {
    match mode
    case Exact => text == keyword
    case Prefix => |keyword| <= |text| && text[..|keyword|] == keyword
    case ContainsMode => exists i :: StandsAt(text, keyword, i)
  }

  predicate StandsAt(text: string, keyword: string, i: int) {
    0 <= i <= |text| - |keyword| && forall j :: 0 <= j < |keyword| ==> text[i + j] == keyword[j]
  }

  lemma HitMeans(text: string, keyword: string, mode: KeywordMode)
    ensures MatchField(text, keyword, mode) <==> Hit(text, keyword, mode)
  {
    if mode == ContainsMode {
      ContainsAt(text, keyword);
      if Contains(text, keyword) {
        var i :| 0 <= i <= |text| && keyword <= text[i..];
        assert StandsAt(text, keyword, i);
      }
      if i :| StandsAt(text, keyword, i) {
        assert keyword <= text[i..];
      }
    }
  }

  /** With a keyword a queued row is listed if it is selected and the keyword hits one of its four names, or,
      looking for it anywhere, its error, or, in content scope too, its request or response content. */
  lemma QueuedByKeyword(queued: seq<RelayLog>, f: Filter, log: RelayLog)
    requires f.lower(f.keyword) != ""
    ensures var k := f.lower(f.keyword);
            var anywhere, content := f.mode == ContainsMode, f.mode == ContainsMode && f.scope == ContentScope;
            log in Matching(Reversed(queued), f) <==>
              && log in queued && Selected(log, f)
              && (|| Hit(f.lower(log.requestModelName), k, f.mode) || Hit(f.lower(log.actualModelName), k, f.mode)
                  || Hit(f.lower(log.requestApiKeyName), k, f.mode) || Hit(f.lower(log.channelName), k, f.mode)
                  || (anywhere && Hit(f.lower(log.error), k, f.mode))
                  || (content && Hit(f.lower(log.requestContent), k, f.mode))
                  || (content && Hit(f.lower(log.responseContent), k, f.mode)))
  {
    SelectElements(Reversed(queued), Matcher(f));
    ReversedElements(queued);
    SearchedAre(log, f.scope, f.mode);
    forall field ensures MatchField(f.lower(field), f.lower(f.keyword), f.mode)
                         <==> Hit(f.lower(field), f.lower(f.keyword), f.mode) {
      HitMeans(f.lower(field), f.lower(f.keyword), f.mode);
    }
  }

  /** The table lists a row by the same fields, as the database lower-cases them. */
  lemma StoredByKeyword(rows: seq<RelayLog>, f: Filter, log: RelayLog)
    requires f.lower(f.keyword) != ""
    ensures var k := f.lower(f.keyword);
            var anywhere, content := f.mode == ContainsMode, f.mode == ContainsMode && f.scope == ContentScope;
            log in SqlMatching(rows, f) <==>
              && log in rows && Selected(log, f)
              && (|| Hit(f.sqlLower(log.requestModelName), k, f.mode) || Hit(f.sqlLower(log.actualModelName), k, f.mode)
                  || Hit(f.sqlLower(log.requestApiKeyName), k, f.mode) || Hit(f.sqlLower(log.channelName), k, f.mode)
                  || (anywhere && Hit(f.sqlLower(log.error), k, f.mode))
                  || (content && Hit(f.sqlLower(log.requestContent), k, f.mode))
                  || (content && Hit(f.sqlLower(log.responseContent), k, f.mode)))
  {
    SelectElements(rows, SqlMatcher(f));
    var k := f.lower(f.keyword);
    forall field ensures HitsLike(f.sqlLower(field), k, f.mode) {
      HitMeans(f.sqlLower(field), k, f.mode);
      PrefixPatternIsHasPrefix(f.sqlLower(field), k);
      ContainsPatternIsContains(f.sqlLower(field), k);
    }
  }

  ghost predicate HitsLike(text: string, k: string, mode: KeywordMode) {
    match mode
    case Exact => true
    case Prefix => Hit(text, k, mode) <==> Like(text, EscapeLikeKeyword(k) + "%")
    case ContainsMode => Hit(text, k, mode) <==> Like(text, "%" + EscapeLikeKeyword(k) + "%")
  }
}
