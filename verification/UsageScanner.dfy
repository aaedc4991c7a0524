/** The streaming scanner that cuts the object after `"usage":` out of a byte stream. One `char` is one byte. */
module UsageScanner {
  import opened Wrappers

  const PATTERN := "\"usage\":"
  const MAX_COLLECT := 64 * 1024

  /** `captured` is the buffer handed to the JSON decoder when an object closed. */
  datatype State = State(
    matchIdx: nat, waitForObject: bool, collecting: bool, braceDepth: int, inString: bool, escape: bool,
    buf: string, done: bool, captured: Option<string>)

  const START := State(0, false, false, 0, false, false, "", false, None)

  function Collect(s: State, b: char): State {
    if |s.buf| >= MAX_COLLECT then s.(collecting := false, done := true)
    else
      var t := s.(buf := s.buf + [b]);
      if s.inString then
        if s.escape then t.(escape := false)
        else if b == '\\' then t.(escape := true)
        else if b == '"' then t.(inString := false)
        else t
      else if b == '"' then t.(inString := true)
      else if b == '{' then t.(braceDepth := s.braceDepth + 1)
      else if b == '}' then
        if s.braceDepth - 1 == 0 then t.(braceDepth := 0, captured := Some(t.buf), done := true, collecting := false)
        else t.(braceDepth := s.braceDepth - 1)
      else t
  }

  function Wait(s: State, b: char): State {
    if b == '{' then
      s.(collecting := true, braceDepth := 1, buf := "{", inString := false, escape := false, waitForObject := false)
    else if IsBlank(b) then s
    else s.(waitForObject := false)
  }

  predicate IsBlank(b: char) {
    b == ' ' || b == '\t' || b == '\n' || b == '\r'
  }

  function Search(s: State, b: char): State {
    if s.matchIdx < |PATTERN| && b == PATTERN[s.matchIdx] then
      if s.matchIdx + 1 == |PATTERN| then s.(waitForObject := true, matchIdx := 0)
      else s.(matchIdx := s.matchIdx + 1)
    else if b == PATTERN[0] then s.(matchIdx := 1)
    else s.(matchIdx := 0)
  }

  function Step(s: State, b: char): State {
    if s.done then s else if s.collecting then Collect(s, b) else if s.waitForObject then Wait(s, b) else Search(s, b)
  }

  function FeedAll(s: State, bytes: string): State {
    if bytes == "" then s else Step(FeedAll(s, bytes[..|bytes| - 1]), bytes[|bytes| - 1])
  }

  class Scanner {
    var matchIdx: nat
    var waitForObject: bool
    var collecting: bool
    var braceDepth: int
    var inString: bool
    var escape: bool
    var buf: string
    var done: bool
    var captured: Option<string>

    ghost function Model(): State
      reads this
    {
      State(matchIdx, waitForObject, collecting, braceDepth, inString, escape, buf, done, captured)
    }

    constructor ()
      ensures Model() == START
    {
      matchIdx, waitForObject, collecting, braceDepth := 0, false, false, 0;
      inString, escape, buf, done, captured := false, false, "", false, None;
    }

    /** One byte of the collecting state. */
    method CollectByte(b: char)
      requires !done && collecting
      modifies this
      ensures Model() == Collect(old(Model()), b) && matchIdx == old(matchIdx)
    {
      if |buf| >= MAX_COLLECT {
        collecting, done := false, true;
        return;
      }
      buf := buf + [b];
      if inString {
        if escape {
          escape := false;
        } else if b == '\\' {
          escape := true;
        } else if b == '"' {
          inString := false;
        }
        return;
      }
      if b == '"' {
        inString := true;
      } else if b == '{' {
        braceDepth := braceDepth + 1;
      } else if b == '}' {
        braceDepth := braceDepth - 1;
        if braceDepth == 0 {
          captured, done, collecting := Some(buf), true, false;
        }
      }
    }

    /** One byte outside an object: behind a key, or still looking for one. */
    method SearchByte(b: char)
      requires !done && !collecting && matchIdx < |PATTERN|
      modifies this
      ensures Model() == Step(old(Model()), b) && matchIdx < |PATTERN|
    {
      if waitForObject {
        if b == '{' {
          collecting, braceDepth, buf, inString, escape := true, 1, "{", false, false;
          waitForObject := false;
        } else if !IsBlank(b) {
          waitForObject := false;
        }
      } else if b == PATTERN[matchIdx] {
        matchIdx := matchIdx + 1;
        if matchIdx == |PATTERN| {
          waitForObject, matchIdx := true, 0;
        }
      } else {
        matchIdx := if b == PATTERN[0] then 1 else 0;
      }
    }

    method Feed(p: string)
      requires matchIdx < |PATTERN|
      modifies this
      ensures Model() == FeedAll(old(Model()), p) && matchIdx < |PATTERN|
    {
      for i := 0 to |p|
        invariant Model() == FeedAll(old(Model()), p[..i]) && matchIdx < |PATTERN|
      {
        if done {
          RestIgnored(old(Model()), p, i);
          return;
        }
        FeedNext(old(Model()), p, i);
        if collecting {
          CollectByte(p[i]);
        } else {
          SearchByte(p[i]);
        }
      }
      assert p[..|p|] == p;
    }
  }

  lemma FeedNext(s: State, p: string, i: nat)
    requires i < |p|
    ensures FeedAll(s, p[..i + 1]) == Step(FeedAll(s, p[..i]), p[i])
  {
    assert p[..i + 1][..i] == p[..i];
  }

  lemma RestIgnored(s: State, p: string, i: nat)
    requires i <= |p| && FeedAll(s, p[..i]).done
    ensures FeedAll(s, p) == FeedAll(s, p[..i])
  {
    assert p == p[..i] + p[i..];
    FeedConcat(s, p[..i], p[i..]);
    DoneStays(FeedAll(s, p[..i]), p[i..]);
  }

  // ----- chunking -----

  lemma {:induction false} FeedConcat(s: State, a: string, b: string)
    ensures FeedAll(s, a + b) == FeedAll(FeedAll(s, a), b)
  {
    if b == "" {
      assert a + b == a;
    } else {
      assert (a + b)[..|a + b| - 1] == a + b[..|b| - 1];
      FeedConcat(s, a, b[..|b| - 1]);
    }
  }

  lemma {:induction false} DoneStays(s: State, bytes: string)
    requires s.done
    ensures FeedAll(s, bytes) == s
  {
    if bytes != "" {
      DoneStays(s, bytes[..|bytes| - 1]);
    }
  }

  function FeedChunks(s: State, chunks: seq<string>): State
    decreases |chunks|
  {
    if chunks == [] then s else FeedChunks(FeedAll(s, chunks[0]), chunks[1..])
  }

  function Joined(chunks: seq<string>): string {
    if chunks == [] then "" else chunks[0] + Joined(chunks[1..])
  }

  /** The result does not depend on how the stream is cut into Feed calls. */
  lemma {:induction false} ChunkingIsIrrelevant(s: State, chunks: seq<string>)
    ensures FeedChunks(s, chunks) == FeedAll(s, Joined(chunks))
    decreases |chunks|
  {
    if chunks != [] {
      ChunkingIsIrrelevant(FeedAll(s, chunks[0]), chunks[1..]);
      FeedConcat(s, chunks[0], Joined(chunks[1..]));
    }
  }

  // ----- finding the key -----

  /** The text ends with the first `n` bytes of the pattern. */
  predicate Ends(t: string, n: nat)
    requires n <= |PATTERN|
  {
    n == 0 || (t != "" && t[|t| - 1] == PATTERN[n - 1] && Ends(t[..|t| - 1], n - 1))
  }

  lemma {:induction false} EndsMeans(t: string, n: nat)
    requires n <= |PATTERN|
    ensures Ends(t, n) <==> n <= |t| && t[|t| - n..] == PATTERN[..n]
  {
    if n > 0 && t != "" {
      var p := t[..|t| - 1];
      EndsMeans(p, n - 1);
      assert PATTERN[..n] == PATTERN[..n - 1] + [PATTERN[n - 1]];
      if n <= |t| {
        assert t[|t| - n..] == p[|p| - (n - 1)..] + [t[|t| - 1]];
      }
    }
  }

  /** `"usage":` ends here. */
  predicate Occurs(t: string) {
    Ends(t, 8)
  }

  /** How many copies of `"usage` stand back to back at the end of the text. */
  function Blocks(t: string): nat
    decreases |t|
  {
    if Ends(t, 6) then
      EndsMeans(t, 6);
      1 + Blocks(t[..|t| - 6])
    else 0
  }

  function BlocksBefore(t: string): nat
    requires Occurs(t)
  {
    EndsMeans(t, 8);
    Blocks(t[..|t| - 8])
  }

  /** An occurrence the scanner sees: an even number of `"usage` stands directly before it. */
  predicate Seen(t: string) {
    Occurs(t) && BlocksBefore(t) % 2 == 0
  }

  /** Whole copies of `"usage` at the end, and the bytes of the next one. */
  function Track(t: string): (nat, nat) {
    if t == "" then (0, 0) else Advance(Track(t[..|t| - 1]), t[|t| - 1])
  }

  function Advance(at: (nat, nat), b: char): (nat, nat) {
    var (c, j) := at;
    if j < 6 && b == PATTERN[j] then if j == 5 then (c + 1, 0) else (c, j + 1)
    else if b == '"' then (0, 1)
    else (0, 0)
  }

  lemma {:induction false} TrackFits(t: string)
    ensures var (c, j) := Track(t);
            && j <= 5 && j <= |t| && Ends(t, j) && Blocks(t[..|t| - j]) == c
            && forall i :: 1 <= i <= 5 && Ends(t, i) ==> i == j
  {
    if t == "" {
      assert t[..0] == "";
    } else {
      var p, b := t[..|t| - 1], t[|t| - 1];
      TrackFits(p);
      var (c, j) := Track(p);
      if b == PATTERN[j] {
        assert t[..|t| - (j + 1)] == p[..|p| - j];
        if j == 5 {
          assert t[..|t| - 0] == t;
          assert Ends(t, 6);
        }
      } else {
        assert t[..|t| - 0] == t && t[..|t| - 1] == p;
        assert Ends(t, 6) <==> b == PATTERN[5] && Ends(p, 5);
        if b == '"' {
          assert j > 0 && Ends(p, j);
          assert !Ends(p, 6);
        }
      }
    }
  }

  /** The match index the scanner has after a text it has seen no key in. */
  function MatchIndex(at: (nat, nat)): nat {
    var (c, j) := at;
    if c % 2 == 0 then j else if j == 0 then 6 else if j == 1 then 7 else 0
  }

  lemma SeenByTrack(p: string, b: char)
    ensures Seen(p + [b]) <==> b == ':' && MatchIndex(Track(p)) == 7
  {
    var t := p + [b];
    assert t[..|t| - 1] == p;
    TrackFits(p);
    var (c, j) := Track(p);
    assert Ends(p, 1) <==> p != "" && p[|p| - 1] == '"' && Ends(p[..|p| - 1], 0);
    assert Ends(p, 1) <==> j == 1;
    assert Ends(t, 8) <==> b == ':' && Ends(p, 7);
    if Ends(p, 1) {
      var q := p[..|p| - 1];
      assert Ends(p, 7) <==> Ends(q, 6);
      assert Blocks(q) == c;
      if Ends(q, 6) {
        EndsMeans(q, 6);
        if b == ':' {
          EndsMeans(t, 8);
          assert q[..|q| - 6] == t[..|t| - 8];
        }
      }
    }
  }

  /** Until a key is seen the scanner only tracks its match index; the first key seen makes it wait. */
  lemma {:induction false} SearchState(t: string)
    requires forall n :: 0 <= n < |t| ==> !Seen(t[..n])
    ensures FeedAll(START, t)
            == if Seen(t) then START.(waitForObject := true) else START.(matchIdx := MatchIndex(Track(t)))
  {
    if t != "" {
      var p, b := t[..|t| - 1], t[|t| - 1];
      forall n | 0 <= n < |p| ensures !Seen(p[..n]) {
        assert p[..n] == t[..n];
      }
      SearchState(p);
      assert !Seen(t[..|t| - 1]);
      assert t == p + [b];
      SearchOne(p, b);
    }
  }

  lemma SearchOne(p: string, b: char)
    requires FeedAll(START, p) == START.(matchIdx := MatchIndex(Track(p)))
    ensures var t := p + [b];
            FeedAll(START, t)
            == if Seen(t) then START.(waitForObject := true) else START.(matchIdx := MatchIndex(Track(t)))
  {
    FeedOne(START, p, b);
    SeenByTrack(p, b);
    TrackFits(p);
    assert (p + [b])[..|p|] == p;
    SearchEffect(Track(p), b);
  }

  /** The scanner's match index follows the track. */
  lemma SearchEffect(at: (nat, nat), b: char)
    requires at.1 <= 5
    ensures Step(START.(matchIdx := MatchIndex(at)), b)
            == if b == ':' && MatchIndex(at) == 7 then START.(waitForObject := true)
               else START.(matchIdx := MatchIndex(Advance(at, b)))
  {
  }

  /** The first `"usage":` of the input is found if and only if an even number of `"usage` stands directly
      before it; a matcher with full backtracking would always find it. */
  lemma FirstKeyFoundExactlyWhen(t: string)
    requires Occurs(t) && forall n :: 0 <= n < |t| ==> !Occurs(t[..n])
    ensures FeedAll(START, t).waitForObject <==> BlocksBefore(t) % 2 == 0
  {
    SearchState(t);
  }

  /** Without `"usage"u` anywhere in the input the first key is always found. */
  lemma FirstKeyFoundWithoutRepeat(t: string)
    requires Occurs(t) && forall n :: 0 <= n < |t| ==> !Occurs(t[..n])
    requires forall n :: 0 <= n < |t| && Ends(t[..n], 7) ==> t[n] != 'u'
    ensures FeedAll(START, t) == START.(waitForObject := true)
  {
    KeyBegins(t);
    assert Blocks(t[..|t| - 8]) == 0;
    SearchState(t);
  }

  /** A key's quote and `u`, and a copy of `"usage` before them that would make the quote its seventh byte. */
  lemma KeyBegins(t: string)
    requires Occurs(t)
    ensures |t| >= 8 && t[|t| - 7] == 'u' && (Ends(t[..|t| - 7], 7) <==> Ends(t[..|t| - 8], 6))
  {
    EndsMeans(t, 8);
    var tail, n := t[|t| - 8..], |t| - 7;
    assert t[n - 1] == tail[0] && t[n] == tail[1];
    assert t[..n][..|t[..n]| - 1] == t[..|t| - 8];
  }

  /** `"usage"usage":` is missed: the backtrack after the second quote forgets that it may start a key. */
  lemma RepeatedKeyIsMissed()
    ensures var t := "\"usage" + PATTERN; Occurs(t) && !FeedAll(START, t).waitForObject
  {
    var t := "\"usage" + PATTERN;
    EndsMeans(t, 8);
    assert t[|t| - 8..] == PATTERN[..8];
    assert t[..|t| - 8] == PATTERN[..6];
    EndsMeans(PATTERN[..6], 6);
    assert PATTERN[..6][|PATTERN[..6]| - 6..] == PATTERN[..6];
    assert PATTERN[..6][..0] == "";
    assert Blocks(PATTERN[..6]) == 1;
    assert forall i :: 0 <= i < |t| - 1 ==> t[i] != ':';
    forall n | 0 <= n < |t| ensures !Occurs(t[..n]) {
      assert n > 0 ==> t[..n][|t[..n]| - 1] == t[n - 1];
    }
    FirstKeyFoundExactlyWhen(t);
  }

  // ----- cutting the object -----

  /** The text ends in an odd number of backslashes. */
  predicate OddBackslashes(t: string) {
    t != "" && t[|t| - 1] == '\\' && !OddBackslashes(t[..|t| - 1])
  }

  /** Inside a JSON string after `t`: a quote opens one, and closes it unless an odd number of
      backslashes precedes it (section 7 of RFC 8259). */
  predicate InString(t: string) {
    if t == "" then false
    else
      var p, b := t[..|t| - 1], t[|t| - 1];
      if b != '"' then InString(p) else !InString(p) || OddBackslashes(p)
  }

  /** Open braces outside strings. */
  function Depth(t: string): int {
    if t == "" then 0
    else
      var p, b := t[..|t| - 1], t[|t| - 1];
      Depth(p) + (if InString(p) then 0 else if b == '{' then 1 else if b == '}' then -1 else 0)
  }

  /** No nonempty prefix is balanced. */
  ghost predicate Open(x: string) {
    x == "" || (Depth(x) > 0 && Open(x[..|x| - 1]))
  }

  lemma {:induction false} OpenMeans(x: string)
    ensures Open(x) <==> forall n :: 1 <= n <= |x| ==> Depth(x[..n]) > 0
  {
    assert x[..|x|] == x;
    if x != "" {
      var p := x[..|x| - 1];
      OpenMeans(p);
      assert forall n :: 1 <= n <= |p| ==> p[..n] == x[..n];
    }
  }

  function CollectingAt(buf: string, depth: int, inside: bool, escaped: bool): State {
    START.(collecting := true, braceDepth := depth, inString := inside, escape := escaped, buf := buf)
  }

  function Collecting(x: string): State {
    CollectingAt(x, Depth(x), InString(x), Escaped(x))
  }

  lemma Appended(p: string, b: char)
    ensures Depth(p + [b]) == Depth(p) + (if InString(p) then 0 else if b == '{' then 1 else if b == '}' then -1 else 0)
    ensures InString(p + [b]) == if b != '"' then InString(p) else !InString(p) || OddBackslashes(p)
    ensures OddBackslashes(p + [b]) == (b == '\\' && !OddBackslashes(p))
  {
    assert (p + [b])[..|p|] == p;
  }

  lemma CollectStep(p: string, b: char)
    requires |p| < MAX_COLLECT && Depth(p) > 0
    ensures var x := p + [b];
            Step(Collecting(p), b)
            == if Depth(x) == 0 then Collecting(x).(collecting := false, done := true, captured := Some(x))
                else Collecting(x)
  {
    var x := p + [b];
    var escaped, escaped' := Escaped(p), Escaped(x);
    var d, d', inside, inside' := Depth(p), Depth(x), InString(p), InString(x);
    assert d' == d + (if inside then 0 else if b == '{' then 1 else if b == '}' then -1 else 0)
        && inside' == (if b != '"' then inside else !inside || escaped) by {
      Appended(p, b);
    }
    assert escaped' == (inside' && b == '\\' && !escaped) by {
      Appended(p, b);
    }
    CollectByteEffect(p, b, d, inside, escaped, d', inside', escaped');
  }

  /** Inside a string, with an odd number of backslashes just read. */
  predicate Escaped(t: string) {
    InString(t) && OddBackslashes(t)
  }

  lemma CollectByteEffect(p: string, b: char, d: int, inside: bool, escaped: bool, d': int, inside': bool,
                          escaped': bool)
    requires |p| < MAX_COLLECT && d > 0 && (escaped ==> inside)
    requires d' == d + (if inside then 0 else if b == '{' then 1 else if b == '}' then -1 else 0)
    requires inside' == if b != '"' then inside else !inside || escaped
    requires escaped' == (inside' && b == '\\' && !escaped)
    ensures Step(CollectingAt(p, d, inside, escaped), b)
            == if d' == 0 then
                 var c := CollectingAt(p + [b], d', inside', escaped');
                 c.(collecting := false, done := true, captured := Some(p + [b]))
               else CollectingAt(p + [b], d', inside', escaped')
  {
  }

  const WAITING := START.(waitForObject := true)

  lemma OpenBrace()
    ensures FeedAll(WAITING, "{") == Collecting("{") && Depth("{") == 1
  {
    assert "{"[..0] == "";
    assert FeedAll(WAITING, "") == WAITING;
  }

  lemma {:induction false} CollectState(x: string)
    requires x != "" && x[0] == '{' && Open(x) && |x| <= MAX_COLLECT
    ensures FeedAll(WAITING, x) == Collecting(x)
  {
    if |x| == 1 {
      OpenBrace();
      assert x == "{";
    } else {
      var p, b := x[..|x| - 1], x[|x| - 1];
      CollectState(p);
      assert x == p + [b];
      CollectOne(p, b);
    }
  }

  lemma CollectOne(p: string, b: char)
    requires FeedAll(WAITING, p) == Collecting(p) && |p| < MAX_COLLECT && Depth(p) > 0 && Depth(p + [b]) > 0
    ensures FeedAll(WAITING, p + [b]) == Collecting(p + [b])
  {
    FeedOne(WAITING, p, b);
    CollectStep(p, b);
  }

  lemma FeedOne(s: State, p: string, b: char)
    ensures FeedAll(s, p + [b]) == Step(FeedAll(s, p), b)
  {
    assert (p + [b])[..|p|] == p;
  }

  lemma SmallObject(p: string, b: char)
    requires p != "" && p[0] == '{' && Open(p) && Depth(p + [b]) == 0 && |p| < MAX_COLLECT
    ensures var s := FeedAll(WAITING, p + [b]); s.done && s.captured == Some(p + [b])
  {
    CollectState(p);
    CollectStep(p, b);
    FeedOne(WAITING, p, b);
  }

  lemma {:induction false} OpenPrefix(x: string, m: nat)
    requires Open(x) && m <= |x|
    ensures Open(x[..m])
  {
    if m == |x| {
      assert x[..m] == x;
    } else {
      OpenPrefix(x[..|x| - 1], m);
      assert x[..|x| - 1][..m] == x[..m];
    }
  }

  lemma CutAtLimit(p: string, b: char)
    requires |p| >= MAX_COLLECT
    ensures p + [b] == p[..MAX_COLLECT] + (p[MAX_COLLECT..] + [b])
    ensures p[..MAX_COLLECT] != "" && p[..MAX_COLLECT][0] == p[0] && |p[..MAX_COLLECT]| == MAX_COLLECT
  {
  }

  lemma LargeObject(p: string, b: char)
    requires p != "" && p[0] == '{' && Open(p) && |p| >= MAX_COLLECT
    ensures var s := FeedAll(WAITING, p + [b]); s.done && s.captured == None
  {
    CutAtLimit(p, b);
    var head, more := p[..MAX_COLLECT], p[MAX_COLLECT..] + [b];
    OpenPrefix(p, MAX_COLLECT);
    CollectState(head);
    GivenUp(head, more);
  }

  /** What the scanner makes of an object: it stops at the first balanced prefix, which is the shortest
      one, and hands exactly that to the decoder; an object longer than 64 KiB is given up. */
  lemma ObjectIsCut(p: string, b: char, rest: string)
    requires p != "" && p[0] == '{' && Open(p) && Depth(p + [b]) == 0
    ensures var s := FeedAll(WAITING, p + [b] + rest);
            s.done && s.captured == if |p| < MAX_COLLECT then Some(p + [b]) else None
  {
    FeedConcat(WAITING, p + [b], rest);
    if |p| < MAX_COLLECT {
      SmallObject(p, b);
    } else {
      LargeObject(p, b);
    }
    DoneStays(FeedAll(WAITING, p + [b]), rest);
  }

  lemma GivenUp(head: string, more: string)
    requires |head| == MAX_COLLECT && more != ""
    requires FeedAll(WAITING, head) == Collecting(head)
    ensures var s := FeedAll(WAITING, head + more); s.done && s.captured == None
  {
    assert more == more[..1] + more[1..];
    FeedConcat(WAITING, head, more);
    FeedConcat(Collecting(head), more[..1], more[1..]);
    assert more[..1][..0] == "";
    DoneStays(FeedAll(Collecting(head), more[..1]), more[1..]);
  }

  lemma {:induction false} BlanksAreSkipped(blanks: string)
    requires forall b :: b in blanks ==> IsBlank(b)
    ensures FeedAll(WAITING, blanks) == WAITING
  {
    if blanks != "" {
      assert blanks[|blanks| - 1] in blanks;
      assert forall b :: b in blanks[..|blanks| - 1] ==> b in blanks;
      BlanksAreSkipped(blanks[..|blanks| - 1]);
    }
  }

  /** End to end: after the first key seen and any blanks, the shortest balanced object is captured, whatever the
      chunks. */
  lemma UsageIsCaptured(t: string, blanks: string, x: string, last: char, rest: string, chunks: seq<string>)
    requires Seen(t) && forall n :: 0 <= n < |t| ==> !Seen(t[..n])
    requires forall b :: b in blanks ==> IsBlank(b)
    requires x != "" && x[0] == '{' && Open(x) && Depth(x + [last]) == 0
    requires Joined(chunks) == t + (blanks + (x + [last] + rest))
    ensures var s := FeedChunks(START, chunks);
            s.done && s.captured == if |x| < MAX_COLLECT then Some(x + [last]) else None
  {
    ChunkingIsIrrelevant(START, chunks);
    SearchState(t);
    FeedConcat(START, t, blanks + (x + [last] + rest));
    BlanksAreSkipped(blanks);
    FeedConcat(WAITING, blanks, x + [last] + rest);
    ObjectIsCut(x, last, rest);
  }

  // ----- the whole stream -----

  /** A key followed by anything but an object is dropped, together with the byte that told. */
  lemma KeyWithoutObject(t: string, blanks: string, other: char, rest: string)
    requires Seen(t) && forall n :: 0 <= n < |t| ==> !Seen(t[..n])
    requires (forall b :: b in blanks ==> IsBlank(b)) && !IsBlank(other) && other != '{'
    ensures FeedAll(START, t + (blanks + ([other] + rest))) == FeedAll(START, rest)
  {
    BehindKey(t, blanks, [other] + rest);
    assert [other][..0] == "";
    assert FeedAll(WAITING, [other]) == START;
    FeedConcat(WAITING, [other], rest);
  }

  /** The length of the shortest prefix of at least `n` bytes that ends in a key the scanner sees. */
  function FirstSeen(stream: string, n: nat): (end: Option<nat>)
    requires n <= |stream|
    ensures end.Some? ==> n <= end.value <= |stream|
    decreases |stream| - n
  {
    if Seen(stream[..n]) then Some(n)
    else if n == |stream| then None
    else FirstSeen(stream, n + 1)
  }

  lemma {:induction false} FirstSeenMeans(stream: string, n: nat)
    requires n <= |stream|
    ensures var end := FirstSeen(stream, n);
            && (end.Some? ==> Seen(stream[..end.value]))
            && forall m :: n <= m < (if end.Some? then end.value else |stream| + 1) ==> !Seen(stream[..m])
    decreases |stream| - n
  {
    if !Seen(stream[..n]) && n < |stream| {
      FirstSeenMeans(stream, n + 1);
    }
  }

  function LeadingBlanks(s: string): (n: nat)
    ensures n <= |s| && (n < |s| ==> !IsBlank(s[n]))
  {
    if s == "" || !IsBlank(s[0]) then 0 else 1 + LeadingBlanks(s[1..])
  }

  lemma {:induction false} LeadingAreBlanks(s: string)
    ensures forall b :: b in s[..LeadingBlanks(s)] ==> IsBlank(b)
  {
    if s != "" && IsBlank(s[0]) {
      LeadingAreBlanks(s[1..]);
      assert s[..LeadingBlanks(s)] == [s[0]] + s[1..][..LeadingBlanks(s[1..])];
    }
  }

  /** The length of the shortest balanced prefix of at least `n` bytes. */
  function FirstBalanced(s: string, n: nat): (end: Option<nat>)
    requires n <= |s|
    ensures end.Some? ==> n <= end.value <= |s|
    decreases |s| - n
  {
    if Depth(s[..n]) == 0 then Some(n)
    else if n == |s| then None
    else FirstBalanced(s, n + 1)
  }

  lemma {:induction false} FirstBalancedMeans(s: string, n: nat)
    requires n <= |s|
    ensures var end := FirstBalanced(s, n);
            && (end.Some? ==> Depth(s[..end.value]) == 0)
            && forall m :: n <= m < (if end.Some? then end.value else |s| + 1) ==> Depth(s[..m]) != 0
    decreases |s| - n
  {
    if Depth(s[..n]) != 0 && n < |s| {
      FirstBalancedMeans(s, n + 1);
    }
  }

  /** What is cut out of a text that starts with an open brace: its shortest balanced prefix, unless that
      is missing or too long. */
  function ObjectOf(s: string): Option<string>
    requires s != ""
  {
    match FirstBalanced(s, 1)
    case None => None
    case Some(end) => if end <= MAX_COLLECT then Some(s[..end]) else None
  }

  /** The reference: go to the first key; if an object follows, cut it out, else go on behind the byte that
      is no object. */
  function Reference(stream: string): Option<string>
    decreases |stream|
  {
    match FirstSeen(stream, 0)
    case None => None
    case Some(end) =>
      KeyIsLong(stream, end);
      BehindReference(stream[end..])
  }

  /** What is captured once a key was read. */
  function BehindReference(behind: string): Option<string>
    decreases |behind|
  {
    var n := LeadingBlanks(behind);
    if n == |behind| then None
    else if behind[n] == '{' then ObjectOf(behind[n..])
    else Reference(behind[n + 1..])
  }

  lemma KeyIsLong(stream: string, end: nat)
    requires FirstSeen(stream, 0) == Some(end)
    ensures end >= 8
  {
    FirstSeenMeans(stream, 0);
    EndsMeans(stream[..end], 8);
  }

  lemma DepthMoves(t: string, b: char)
    ensures Depth(t + [b]) >= Depth(t) - 1
  {
    Appended(t, b);
  }

  /** Before the first balanced prefix every prefix is open. */
  lemma {:induction false} OpenUntilBalanced(s: string, n: nat)
    requires 1 <= n <= |s| && s[0] == '{' && forall m :: 1 <= m <= n ==> Depth(s[..m]) != 0
    ensures Open(s[..n]) && Depth(s[..n]) > 0
  {
    if n == 1 {
      assert s[..1] == "{";
      OpenBrace();
      assert "{"[..0] == "";
    } else {
      OpenUntilBalanced(s, n - 1);
      assert s[..n] == s[..n - 1] + [s[n - 1]] && s[..n][..n - 1] == s[..n - 1];
      DepthMoves(s[..n - 1], s[n - 1]);
    }
  }

  lemma ObjectNotClosed(s: string)
    requires s != "" && s[0] == '{' && FirstBalanced(s, 1).None?
    ensures FeedAll(WAITING, s).captured == None
  {
    FirstBalancedMeans(s, 1);
    OpenUntilBalanced(s, |s|);
    assert s[..|s|] == s;
    if |s| <= MAX_COLLECT {
      CollectState(s);
    } else {
      var head, more := s[..MAX_COLLECT], s[MAX_COLLECT..];
      assert s == head + more;
      OpenPrefix(s, MAX_COLLECT);
      CollectState(head);
      GivenUp(head, more);
    }
  }

  lemma ObjectIsReference(s: string)
    requires s != "" && s[0] == '{'
    ensures FeedAll(WAITING, s).captured == ObjectOf(s)
  {
    match FirstBalanced(s, 1)
    case None => ObjectNotClosed(s);
    case Some(end) =>
      FirstBalancedMeans(s, 1);
      OpenBrace();
      assert s[..1] == "{";
      CutAt(s, end);
      OpenUntilBalanced(s, end - 1);
      ObjectIsCut(s[..end - 1], s[end - 1], s[end..]);
  }

  lemma CutAt(s: string, end: nat)
    requires 0 < end <= |s|
    ensures s[..end] == s[..end - 1] + [s[end - 1]] && s == s[..end - 1] + [s[end - 1]] + s[end..]
  {
  }

  lemma KeyIsFirst(stream: string, end: nat)
    requires FirstSeen(stream, 0) == Some(end)
    ensures var t := stream[..end]; Seen(t) && forall m :: 0 <= m < |t| ==> !Seen(t[..m])
  {
    FirstSeenMeans(stream, 0);
    assert forall m :: 0 <= m < end ==> stream[..end][..m] == stream[..m];
  }

  ghost predicate Agrees(stream: string) {
    FeedAll(START, stream).captured == Reference(stream)
  }

  lemma NoKeyAgrees(stream: string)
    requires FirstSeen(stream, 0).None?
    ensures Agrees(stream)
  {
    FirstSeenMeans(stream, 0);
    assert stream[..|stream|] == stream;
    SearchState(stream);
  }

  lemma SkippedKeyAgrees(stream: string, end: nat, n: nat)
    requires FirstSeen(stream, 0) == Some(end) && n == LeadingBlanks(stream[end..])
    requires n < |stream[end..]| && stream[end..][n] != '{' && Agrees(stream[end..][n + 1..])
    ensures Agrees(stream)
  {
    SkippedKeyFeeds(stream, end, n);
    SkippedKeyReads(stream, end, n);
  }

  lemma SkippedKeyReads(stream: string, end: nat, n: nat)
    requires FirstSeen(stream, 0) == Some(end) && n == LeadingBlanks(stream[end..])
    requires n < |stream[end..]| && stream[end..][n] != '{'
    ensures Reference(stream) == Reference(stream[end..][n + 1..])
  {
  }

  lemma SkippedKeyFeeds(stream: string, end: nat, n: nat)
    requires FirstSeen(stream, 0) == Some(end) && n == LeadingBlanks(stream[end..])
    requires n < |stream[end..]| && stream[end..][n] != '{'
    ensures FeedAll(START, stream) == FeedAll(START, stream[end..][n + 1..])
  {
    var t, behind := stream[..end], stream[end..];
    assert stream == t + behind;
    KeyIsFirst(stream, end);
    LeadingAreBlanks(behind);
    SplitBehind(behind, n);
    KeyWithoutObject(t, behind[..n], behind[n], behind[n + 1..]);
  }

  lemma MetKeyAgrees(stream: string, end: nat, n: nat)
    requires FirstSeen(stream, 0) == Some(end) && n == LeadingBlanks(stream[end..])
    requires n < |stream[end..]| ==> stream[end..][n] == '{'
    ensures Agrees(stream)
  {
    var t, behind := stream[..end], stream[end..];
    assert stream == t + behind;
    KeyIsFirst(stream, end);
    LeadingAreBlanks(behind);
    SplitBehind(behind, n);
    BehindKey(t, behind[..n], behind[n..]);
    if n < |behind| {
      ObjectIsReference(behind[n..]);
    }
  }

  /** For every stream the scanner captures exactly what the reference cuts out. */
  lemma {:induction false} ScannerIsReference(stream: string)
    ensures Agrees(stream)
    decreases |stream|
  {
    match FirstSeen(stream, 0)
    case None => NoKeyAgrees(stream);
    case Some(end) =>
      KeyIsLong(stream, end);
      var behind := stream[end..];
      var n := LeadingBlanks(behind);
      if n < |behind| && behind[n] != '{' {
        ScannerIsReference(behind[n + 1..]);
        SkippedKeyAgrees(stream, end, n);
      } else {
        MetKeyAgrees(stream, end, n);
      }
  }

  lemma SplitBehind(behind: string, n: nat)
    requires n <= |behind|
    ensures behind == behind[..n] + behind[n..]
    ensures n < |behind| ==> behind[n..] == [behind[n]] + behind[n + 1..]
    ensures n == |behind| ==> behind[n..] == "" && FeedAll(WAITING, behind[n..]) == WAITING
  {
  }

  lemma BehindKey(t: string, blanks: string, rest: string)
    requires Seen(t) && forall n :: 0 <= n < |t| ==> !Seen(t[..n])
    requires forall b :: b in blanks ==> IsBlank(b)
    ensures FeedAll(START, t + (blanks + rest)) == FeedAll(WAITING, rest)
  {
    SearchState(t);
    FeedConcat(START, t, blanks + rest);
    BlanksAreSkipped(blanks);
    FeedConcat(WAITING, blanks, rest);
  }

  /** A key in place of an object hides the key behind it: its first quote is the byte that is dropped. */
  lemma SecondKeyIsMissed()
    ensures FeedAll(START, PATTERN + PATTERN + "{}").captured == None
  {
    EndsMeans(PATTERN, 8);
    assert PATTERN[..8] == PATTERN && PATTERN[0..] == PATTERN && PATTERN[..0] == "";
    NoKeyWithoutColon(PATTERN[..7]);
    assert forall n :: 0 <= n < 8 ==> PATTERN[..n] == PATTERN[..7][..n];
    var rest := PATTERN[1..] + "{}";
    assert PATTERN + PATTERN + "{}" == PATTERN + ("" + ([PATTERN[0]] + rest));
    KeyWithoutObject(PATTERN, "", PATTERN[0], rest);
    NoQuoteFirst(rest);
    SearchState(rest);
  }

  /** A key needs a colon at its end. */
  lemma NoKeyWithoutColon(t: string)
    requires ':' !in t
    ensures forall n :: 0 <= n <= |t| ==> !Seen(t[..n])
  {
    forall n | 0 <= n <= |t| ensures !Seen(t[..n]) {
      assert n > 0 ==> t[..n][n - 1] == t[n - 1];
    }
  }

  lemma KeyHasTwoQuotes(t: string)
    ensures Seen(t) ==> |t| >= 8 && t[|t| - 8] == '"' && t[|t| - 2] == '"'
  {
    EndsMeans(t, 8);
    if Seen(t) {
      assert t[|t| - 8..][0] == t[|t| - 8] && t[|t| - 8..][6] == t[|t| - 2];
    }
  }

  lemma NoQuoteFirst(t: string)
    requires forall i :: 0 <= i < |t| && i != 5 ==> t[i] != '"'
    ensures forall n :: 0 <= n <= |t| ==> !Seen(t[..n])
  {
    forall n | 0 <= n <= |t| ensures !Seen(t[..n]) {
      KeyHasTwoQuotes(t[..n]);
    }
  }

  /** End to end, whatever the chunks. */
  lemma CapturedIsReference(chunks: seq<string>)
    ensures FeedChunks(START, chunks).captured == Reference(Joined(chunks))
  {
    ChunkingIsIrrelevant(START, chunks);
    ScannerIsReference(Joined(chunks));
  }
}
