/** Keyword filtering of relay logs: the in-memory matcher against the escaped SQL LIKE filter. */
module LikeFilter {
  import opened RelayLogs
  import opened Text
  import opened Wrappers

  /** strings.ReplaceAll for a one-byte pattern. */
  function ReplaceAll(s: string, from: char, to: string): string {
    if s == "" then "" else (if s[0] == from then to else [s[0]]) + ReplaceAll(s[1..], from, to)
  }

  function EscapeLikeKeyword(s: string): string {
    ReplaceAll(ReplaceAll(ReplaceAll(s, '#', "##"), '%', "#%"), '_', "#_")
  }

  predicate IsSpecial(c: char) {
    c == '#' || c == '%' || c == '_'
  }

  /** The one-pass form: every special byte gets an escape byte in front. */
  function EscapeEach(s: string): string {
    if s == "" then "" else (if IsSpecial(s[0]) then ['#', s[0]] else [s[0]]) + EscapeEach(s[1..])
  }

  lemma {:induction false} ReplaceAllConcat(a: string, b: string, from: char, to: string)
    ensures ReplaceAll(a + b, from, to) == ReplaceAll(a, from, to) + ReplaceAll(b, from, to)
  {
    if a == "" {
      assert a + b == b;
    } else {
      assert (a + b)[1..] == a[1..] + b;
      ReplaceAllConcat(a[1..], b, from, to);
    }
  }

  lemma ReplaceOne(c: char, from: char, to: string)
    ensures ReplaceAll([c], from, to) == if c == from then to else [c]
  {
  }

  /** The three sequential replacements escape each byte of the first byte exactly once. */
  lemma EscapeHead(c: char)
    ensures EscapeLikeKeyword([c]) == if IsSpecial(c) then ['#', c] else [c]
  {
    ReplaceOne(c, '#', "##");
    ReplaceOne(c, '%', "#%");
    ReplaceOne(c, '_', "#_");
    ReplaceOne('#', '%', "#%");
    ReplaceOne('#', '_', "#_");
    assert "##" == "#" + "#" && "#%" == "#" + "%";
    ReplaceAllConcat("#", "#", '%', "#%");
    ReplaceAllConcat("#", "#", '_', "#_");
    ReplaceAllConcat("#", "%", '_', "#_");
    ReplaceOne('%', '_', "#_");
  }

  /** Three whole-string replacements in sequence act as one per-byte map. */
  lemma {:induction false} EscapeIsPerByte(s: string)
    ensures EscapeLikeKeyword(s) == EscapeEach(s)
  {
    if s != "" {
      var head, tail := [s[0]], s[1..];
      assert s == head + tail;
      ReplaceAllConcat(head, tail, '#', "##");
      var h1, t1 := ReplaceAll(head, '#', "##"), ReplaceAll(tail, '#', "##");
      ReplaceAllConcat(h1, t1, '%', "#%");
      ReplaceAllConcat(ReplaceAll(h1, '%', "#%"), ReplaceAll(t1, '%', "#%"), '_', "#_");
      EscapeHead(s[0]);
      EscapeIsPerByte(tail);
    }
  }

  /** `text LIKE pattern ESCAPE '#'` (section 8.5 of SQL-92): `%` is any run of characters, `_` any one
      character, and `#` makes the special character after it literal; a stray `#` matches nothing. */
  predicate Like(text: string, pattern: string)
    decreases |pattern|, |text|
  {
    if pattern == "" then text == ""
    else if pattern[0] == '%' then
      Like(text, pattern[1..]) || (text != "" && Like(text[1..], pattern))
    else if pattern[0] == '#' then
      |pattern| >= 2 && IsSpecial(pattern[1]) && text != "" && text[0] == pattern[1] && Like(text[1..], pattern[2..])
    else
      text != "" && (pattern[0] == '_' || text[0] == pattern[0]) && Like(text[1..], pattern[1..])
  }

  predicate Contains(text: string, part: string) {
    part <= text || (text != "" && Contains(text[1..], part))
  }

  /** `Contains` means what strings.Contains promises. */
  lemma {:induction false} ContainsAt(text: string, part: string)
    ensures Contains(text, part) <==> exists i :: 0 <= i <= |text| && part <= text[i..]
  {
    assert text[0..] == text;
    if text != "" {
      ContainsAt(text[1..], part);
      if i :| 0 <= i <= |text[1..]| && part <= text[1..][i..] {
        assert text[1..][i..] == text[i + 1..];
      }
      if i :| 0 <= i <= |text| && part <= text[i..] {
        if i > 0 {
          assert text[i..] == text[1..][i - 1..];
        }
      }
    }
  }

  lemma {:induction false} AnythingMatchesPercent(text: string)
    ensures Like(text, "%")
  {
    assert "%"[1..] == "";
    if text != "" {
      AnythingMatchesPercent(text[1..]);
    }
  }

  /** An escaped keyword followed by `rest` consumes exactly the keyword. */
  lemma {:induction false} EscapedIsLiteral(text: string, keyword: string, rest: string)
    ensures Like(text, EscapeEach(keyword) + rest) <==>
            keyword <= text && Like(text[|keyword|..], rest)
    decreases |keyword|
  {
    if keyword == "" {
      assert EscapeEach(keyword) + rest == rest;
      assert text[0..] == text;
    } else {
      var c, tail := keyword[0], keyword[1..];
      var head := if IsSpecial(c) then ['#', c] else [c];
      var pattern := EscapeEach(keyword) + rest;
      assert pattern == head + (EscapeEach(tail) + rest);
      LiteralHead(text, c, EscapeEach(tail) + rest);
      if text != "" && text[0] == c {
        EscapedIsLiteral(text[1..], tail, rest);
        PrefixStep(text, keyword);
      }
    }
  }

  /** An escaped character in front of a pattern matches exactly that character. */
  lemma LiteralHead(text: string, c: char, pattern: string)
    ensures Like(text, (if IsSpecial(c) then ['#', c] else [c]) + pattern)
            <==> text != "" && text[0] == c && Like(text[1..], pattern)
  {
    var head := if IsSpecial(c) then ['#', c] else [c];
    assert (head + pattern)[|head|..] == pattern;
  }

  lemma PrefixStep(text: string, keyword: string)
    requires text != "" && keyword != "" && text[0] == keyword[0]
    ensures keyword <= text <==> keyword[1..] <= text[1..]
    ensures keyword <= text ==> text[1..][|keyword[1..]|..] == text[|keyword|..]
  {
    assert text == [text[0]] + text[1..] && keyword == [text[0]] + keyword[1..];
  }

  /** Prefix mode: `escape(k) + "%"` matches exactly the texts that start with k. */
  lemma PrefixPatternIsHasPrefix(text: string, keyword: string)
    ensures Like(text, EscapeLikeKeyword(keyword) + "%") <==> keyword <= text
  {
    EscapeIsPerByte(keyword);
    EscapedIsLiteral(text, keyword, "%");
    if keyword <= text {
      AnythingMatchesPercent(text[|keyword|..]);
    }
  }

  /** Contains mode: `"%" + escape(k) + "%"` matches exactly the texts that contain k. */
  lemma {:induction false} ContainsPatternIsContains(text: string, keyword: string)
    ensures Like(text, "%" + EscapeLikeKeyword(keyword) + "%") <==> Contains(text, keyword)
    decreases |text|
  {
    var pattern := "%" + EscapeLikeKeyword(keyword) + "%";
    assert pattern[0] == '%';
    assert pattern[1..] == EscapeLikeKeyword(keyword) + "%";
    PrefixPatternIsHasPrefix(text, keyword);
    if text != "" {
      ContainsPatternIsContains(text[1..], keyword);
    }
  }

  // ----- the two row filters -----

  datatype StatusFilter = AnyStatus | OnlySuccess | OnlyError
  datatype KeywordScope = DefaultScope | ContentScope
  datatype KeywordMode = Prefix | Exact | ContainsMode

  /** A filter after RelayLogListWithFilter trimmed the keyword and resolved the mode. `lower` is strings.ToLower,
      `sqlLower` the database's LOWER; they may differ outside ASCII. */
  datatype Filter = Filter(
    startTime: Option<int>, endTime: Option<int>, channelIds: seq<int>, status: StatusFilter,
    keyword: string, scope: KeywordScope, mode: KeywordMode,
    lower: string -> string, sqlLower: string -> string)

  function NameFields(log: RelayLog): seq<string> {
    [log.requestModelName, log.actualModelName, log.requestApiKeyName, log.channelName]
  }

  /** The matcher over queued rows: a loop over the fields, stopping at the first match. */
  method LogMatchesKeyword(log: RelayLog, keyword: string, scope: KeywordScope, mode: KeywordMode,
                           toLower: string -> string)
    returns (found: bool)
    ensures found == MemoryKeyword(log, keyword, scope, mode, toLower)
  {
    var fields := NameFields(log);
    if mode == ContainsMode {
      fields := fields + [log.error];
      if scope == ContentScope {
        fields := fields + [log.requestContent, log.responseContent];
      }
    }
    assert fields == SearchedFields(log, scope, mode);
    for i := 0 to |fields|
      invariant forall j :: 0 <= j < i ==> !MatchField(toLower(fields[j]), keyword, mode)
    {
      var lower := toLower(fields[i]);
      var hit := match mode
        case Exact => lower == keyword
        case ContainsMode => Contains(lower, keyword)
        case Prefix => keyword <= lower;
      if hit {
        assert fields[i] in SearchedFields(log, scope, mode) && MatchField(toLower(fields[i]), keyword, mode);
        return true;
      }
    }
    return false;
  }

  predicate MatchField(lower: string, keyword: string, mode: KeywordMode) {
    match mode
    case Exact => lower == keyword
    case ContainsMode => Contains(lower, keyword)
    case Prefix => keyword <= lower
  }

  function SearchedFields(log: RelayLog, scope: KeywordScope, mode: KeywordMode): seq<string> {
    NameFields(log)
    + (if mode == ContainsMode then [log.error] else [])
    + (if mode == ContainsMode && scope == ContentScope then [log.requestContent, log.responseContent] else [])
  }

  predicate MemoryKeyword(log: RelayLog, keyword: string, scope: KeywordScope, mode: KeywordMode,
                          toLower: string -> string) {
    exists field :: field in SearchedFields(log, scope, mode) && MatchField(toLower(field), keyword, mode)
  }

  /** relayLogMatchesFilter: the filter on rows still in memory. */
  predicate MatchesFilter(log: RelayLog, f: Filter) {
    && !(f.startTime.Some? && log.time < f.startTime.value)
    && !(f.endTime.Some? && log.time > f.endTime.value)
    && (|f.channelIds| > 0 ==> log.channelId in f.channelIds)
    && !(f.status == OnlySuccess && !log.success)
    && !(f.status == OnlyError && log.success)
    && (f.lower(f.keyword) != "" ==> MemoryKeyword(log, f.lower(f.keyword), f.scope, f.mode, f.lower))
  }

  /** The WHERE clause of applyRelayLogDBFilters, column by column. */
  predicate SqlFilter(log: RelayLog, f: Filter) {
    var keyword := f.lower(f.keyword);
    && (f.startTime.Some? ==> log.time >= f.startTime.value)
    && (f.endTime.Some? ==> log.time <= f.endTime.value)
    && (f.channelIds != [] ==> log.channelId in f.channelIds)
    && (f.status == OnlySuccess ==> log.success == true)
    && (f.status == OnlyError ==> log.success == false)
    && (keyword == "" ||
        match f.mode
        case Exact =>
          || f.sqlLower(log.requestModelName) == keyword || f.sqlLower(log.actualModelName) == keyword
          || f.sqlLower(log.requestApiKeyName) == keyword || f.sqlLower(log.channelName) == keyword
        case ContainsMode =>
          var like := "%" + EscapeLikeKeyword(keyword) + "%";
          || Like(f.sqlLower(log.requestModelName), like) || Like(f.sqlLower(log.actualModelName), like)
          || Like(f.sqlLower(log.requestApiKeyName), like) || Like(f.sqlLower(log.channelName), like)
          || (f.scope == ContentScope
              && (Like(f.sqlLower(log.requestContent), like) || Like(f.sqlLower(log.responseContent), like)))
          || Like(f.sqlLower(log.error), like)
        case Prefix =>
          var like := EscapeLikeKeyword(keyword) + "%";
          || Like(f.sqlLower(log.requestModelName), like) || Like(f.sqlLower(log.actualModelName), like)
          || Like(f.sqlLower(log.requestApiKeyName), like) || Like(f.sqlLower(log.channelName), like))
  }

  lemma SearchedAre(log: RelayLog, scope: KeywordScope, mode: KeywordMode)
    ensures forall field :: field in SearchedFields(log, scope, mode) <==>
              || field == log.requestModelName || field == log.actualModelName
              || field == log.requestApiKeyName || field == log.channelName
              || (mode == ContainsMode && field == log.error)
              || (mode == ContainsMode && scope == ContentScope
                  && (field == log.requestContent || field == log.responseContent))
  {
    var names := NameFields(log);
    assert names[0] in names && names[1] in names && names[2] in names && names[3] in names;
  }

  /** Both lower-casings agree on the fields the filter looks at. */
  predicate SameLowering(log: RelayLog, f: Filter) {
    forall field :: field in SearchedFields(log, f.scope, f.mode) ==> f.sqlLower(field) == f.lower(field)
  }

  /** A row is listed from the queue exactly when it would be listed from the table, wherever the
      database lower-cases the searched fields as Go does. */
  lemma FiltersAgree(log: RelayLog, f: Filter)
    requires SameLowering(log, f)
    ensures MatchesFilter(log, f) <==> SqlFilter(log, f)
  {
    if f.mode == Exact {
      SearchedAre(log, f.scope, f.mode);
    } else {
      var pattern := PatternOf(f.lower(f.keyword), f.mode);
      forall field | field in SearchedFields(log, f.scope, f.mode)
        ensures Like(f.sqlLower(field), pattern) <==> MatchField(f.lower(field), f.lower(f.keyword), f.mode)
      {
        PatternMatches(f.lower(field), f.lower(f.keyword), f.mode);
      }
      SearchedAre(log, f.scope, f.mode);
    }
  }

  function PatternOf(keyword: string, mode: KeywordMode): string {
    if mode == ContainsMode then "%" + EscapeLikeKeyword(keyword) + "%" else EscapeLikeKeyword(keyword) + "%"
  }

  lemma PatternMatches(text: string, keyword: string, mode: KeywordMode)
    requires mode != Exact
    ensures Like(text, PatternOf(keyword, mode)) <==> MatchField(text, keyword, mode)
  {
    PrefixPatternIsHasPrefix(text, keyword);
    ContainsPatternIsContains(text, keyword);
  }

  // ----- where the two lower-casings differ; a `char` is a code point here -----

  /** What both sides have in common: Go's folding sees through the database's, and is stable. */
  ghost predicate Compatible(fold: char -> char, sqlFold: char -> char) {
    forall c :: fold(sqlFold(c)) == fold(c) == fold(fold(c))
  }

  lemma MatchItself(text: string, mode: KeywordMode)
    ensures MatchField(text, text, mode)
  {
  }

  lemma ContainsParts(before: string, part: string, after: string)
    ensures Contains(before + part + after, part)
  {
    var text := before + part + after;
    assert text[|before|..] == part + after;
    ContainsAt(text, part);
  }

  lemma ContainsSplits(text: string, part: string) returns (i: nat)
    requires Contains(text, part)
    ensures i + |part| <= |text| && text == text[..i] + part + text[i + |part|..]
  {
    ContainsAt(text, part);
    i :| 0 <= i <= |text| && part <= text[i..];
    assert text[i..][..|part|] == part;
    assert text == text[..i] + text[i..][..|part|] + text[i..][|part|..];
  }

  lemma MatchTransitive(a: string, b: string, c: string, mode: KeywordMode)
    requires MatchField(a, b, mode) && MatchField(b, c, mode)
    ensures MatchField(a, c, mode)
  {
    if mode == ContainsMode {
      var i := ContainsSplits(a, b);
      var j := ContainsSplits(b, c);
      assert a == (a[..i] + b[..j]) + c + (b[j + |c|..] + a[i + |b|..]);
      ContainsParts(a[..i] + b[..j], c, b[j + |c|..] + a[i + |b|..]);
    }
  }

  lemma FoldedConcat(fold: char -> char, a: string, b: string, c: string)
    ensures Folded(fold, a + b + c) == Folded(fold, a) + Folded(fold, b) + Folded(fold, c)
  {
  }

  lemma FoldedMatches(fold: char -> char, text: string, keyword: string, mode: KeywordMode)
    requires MatchField(text, keyword, mode)
    ensures MatchField(Folded(fold, text), Folded(fold, keyword), mode)
  {
    if mode == ContainsMode {
      var i := ContainsSplits(text, keyword);
      FoldedConcat(fold, text[..i], keyword, text[i + |keyword|..]);
      ContainsParts(Folded(fold, text[..i]), Folded(fold, keyword), Folded(fold, text[i + |keyword|..]));
    }
  }

  /** What the table matches the queue matches too: flushing a row never makes it appear in a listing. */
  lemma TableMatchesNoMore(log: RelayLog, raw: string, scope: KeywordScope, mode: KeywordMode,
                           fold: char -> char, sqlFold: char -> char)
    requires Compatible(fold, sqlFold)
    requires MemoryKeyword(log, Folded(fold, raw), scope, mode, (s: string) => Folded(sqlFold, s))
    ensures MemoryKeyword(log, Folded(fold, raw), scope, mode, (s: string) => Folded(fold, s))
  {
    var field :| field in SearchedFields(log, scope, mode)
        && MatchField(Folded(sqlFold, field), Folded(fold, raw), mode);
    FoldedMatches(fold, Folded(sqlFold, field), Folded(fold, raw), mode);
    assert Folded(fold, Folded(sqlFold, field)) == Folded(fold, field);
    assert Folded(fold, Folded(fold, raw)) == Folded(fold, raw);
  }

  /** Every text the queue compares with is found in one the table compares with. */
  predicate TableSeesAll(log: RelayLog, scope: KeywordScope, mode: KeywordMode, fold: char -> char,
                         sqlFold: char -> char) {
    forall field :: field in SearchedFields(log, scope, mode) && field != "" ==>
      exists other :: other in SearchedFields(log, scope, mode)
          && MatchField(Folded(sqlFold, other), Folded(fold, field), mode)
  }

  ghost predicate AgreeOnKeyword(log: RelayLog, raw: string, scope: KeywordScope, mode: KeywordMode,
                                 fold: char -> char, sqlFold: char -> char) {
    Folded(fold, raw) == "" ||
    (MemoryKeyword(log, Folded(fold, raw), scope, mode, (s: string) => Folded(fold, s))
     <==> MemoryKeyword(log, Folded(fold, raw), scope, mode, (s: string) => Folded(sqlFold, s)))
  }

  /** A row answers every keyword alike from queue and table if and only if each lower-cased field is found, in
      the sense of the mode, in a field as the database lower-cases it. */
  lemma AgreeExactlyWhen(log: RelayLog, scope: KeywordScope, mode: KeywordMode, fold: char -> char,
                         sqlFold: char -> char)
    requires Compatible(fold, sqlFold)
    ensures (forall raw :: AgreeOnKeyword(log, raw, scope, mode, fold, sqlFold))
            <==> TableSeesAll(log, scope, mode, fold, sqlFold)
  {
    var lower, sqlLower := (s: string) => Folded(fold, s), (s: string) => Folded(sqlFold, s);
    if TableSeesAll(log, scope, mode, fold, sqlFold) {
      forall raw ensures AgreeOnKeyword(log, raw, scope, mode, fold, sqlFold) {
        var k := Folded(fold, raw);
        if MemoryKeyword(log, k, scope, mode, sqlLower) {
          TableMatchesNoMore(log, raw, scope, mode, fold, sqlFold);
        }
        if k != "" && MemoryKeyword(log, k, scope, mode, lower) {
          TableMatchesToo(log, k, scope, mode, fold, sqlFold);
        }
      }
    } else {
      var field :| field in SearchedFields(log, scope, mode) && field != "" && forall other ::
        other in SearchedFields(log, scope, mode) ==> !MatchField(Folded(sqlFold, other), Folded(fold, field), mode);
      MatchItself(Folded(fold, field), mode);
      assert MatchField(lower(field), Folded(fold, field), mode);
      assert !AgreeOnKeyword(log, field, scope, mode, fold, sqlFold);
    }
  }

  lemma TableMatchesToo(log: RelayLog, k: string, scope: KeywordScope, mode: KeywordMode,
                        fold: char -> char, sqlFold: char -> char)
    requires TableSeesAll(log, scope, mode, fold, sqlFold) && k != ""
    requires MemoryKeyword(log, k, scope, mode, (s: string) => Folded(fold, s))
    ensures MemoryKeyword(log, k, scope, mode, (s: string) => Folded(sqlFold, s))
  {
    var field :| field in SearchedFields(log, scope, mode) && MatchField(Folded(fold, field), k, mode);
    NonEmptyMatch(fold, field, k, mode);
    var other :| other in SearchedFields(log, scope, mode)
        && MatchField(Folded(sqlFold, other), Folded(fold, field), mode);
    MatchTransitive(Folded(sqlFold, other), Folded(fold, field), k, mode);
  }

  lemma NonEmptyMatch(fold: char -> char, field: string, k: string, mode: KeywordMode)
    requires k != "" && MatchField(Folded(fold, field), k, mode)
    ensures field != ""
  {
  }

  function AccentFold(c: char): char {
    if c == '\U{C9}' then '\U{E9}' else LowerChar(c)
  }

  /** SQLite's LOWER folds ASCII only: a row whose channel is named with a capital E acute is found under
      that name while it is queued, in every mode, and not once it is in the table. */
  lemma AccentedRowVanishes(log: RelayLog, f: Filter)
    requires log.channelName == "\U{C9}" && log.requestModelName == log.actualModelName == log.requestApiKeyName == ""
    requires log.error == log.requestContent == log.responseContent == ""
    requires f.startTime.None? && f.endTime.None? && f.channelIds == [] && f.status == AnyStatus
    requires f.keyword == "\U{C9}"
    requires forall s :: f.lower(s) == Folded(AccentFold, s) && f.sqlLower(s) == Folded(LowerChar, s)
    ensures MatchesFilter(log, f) && !SqlFilter(log, f)
  {
    var keyword := f.lower(f.keyword);
    FoldedOne(AccentFold, '\U{C9}');
    FoldedOne(LowerChar, '\U{C9}');
    MatchItself(keyword, f.mode);
    SearchedAre(log, f.scope, f.mode);
    NoMatch('\U{C9}', '\U{E9}', f.mode);
    if f.mode != Exact {
      PatternMatches(f.sqlLower("\U{C9}"), keyword, f.mode);
      PatternMatches(f.sqlLower(""), keyword, f.mode);
    }
  }

  lemma FoldedOne(fold: char -> char, c: char)
    ensures Folded(fold, [c]) == [fold(c)] && Folded(fold, "") == ""
  {
  }

  lemma NoMatch(c: char, d: char, mode: KeywordMode)
    requires c != d
    ensures !MatchField([c], [d], mode) && !MatchField("", [d], mode)
  {
    assert [c][1..] == "" && !Contains("", [d]);
    assert !([d] <= [c]) by {
      assert [c][0] != [d][0];
    }
    assert !Contains([c], [d]);
  }
}
