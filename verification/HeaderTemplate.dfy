/** Client-header templates: a header value with `{client_header:Name}` placeholders is validated, and
    rendered with the values of the client's own headers. */
module HeaderTemplate {
  import opened Text
  import opened Wrappers

  const PREFIX := "{client_header:"

  datatype Reason = Malformed | InvalidName | BlockedSource | MissingSource | InvalidSourceValue | InvalidRendered

  datatype Result = Ok(value: string) | Failed(reason: Reason)

  // ----- library checks on header names and values -----

  predicate TokenChar(c: char) {
    '0' <= c <= '9' || 'a' <= c <= 'z' || 'A' <= c <= 'Z' || c in "!#$%&'*+-.^_`|~"
  }

  predicate ValidFieldName(name: string) {
    name != "" && forall c :: c in name ==> TokenChar(c)
  }

  /** No control byte except tab. */
  predicate ValidFieldValue(value: string) {
    forall c :: c in value ==> c == '\t' || (c >= ' ' && c != '\U{7F}')
  }

  const BLOCKED_SOURCES := {
    "authorization", "x-api-key", "api-key", "anthropic-api-key", "x-goog-api-key", "cookie", "set-cookie",
    "connection", "keep-alive", "proxy-authenticate", "proxy-authorization", "te", "trailer", "transfer-encoding",
    "upgrade", "content-length", "host", "accept-encoding", "x-forwarded-for", "x-forwarded-host",
    "x-forwarded-proto", "x-forwarded-port", "x-real-ip", "forwarded", "cf-connecting-ip", "true-client-ip",
    "x-client-ip", "x-cluster-client-ip", "origin"
  }

  predicate AllowedSource(name: string) {
    var trimmed := TrimSpace(name);
    var lower := ToLower(trimmed);
    && ValidFieldName(trimmed)
    && lower !in BLOCKED_SOURCES
    && !("sec-websocket-" <= lower) && !("proxy-" <= lower)
  }

  // ----- searching -----

  /** strings.Index: the first position of `part`, or None. */
  function Index(s: string, part: string): (i: Option<nat>)
    ensures i.Some? ==> i.value + |part| <= |s|
  {
    if part <= s then Some(0)
    else if s == "" then None
    else
      var rest := Index(s[1..], part);
      if rest.None? then None else Some(rest.value + 1)
  }

  lemma {:induction false} IndexMeans(s: string, part: string)
    ensures var i := Index(s, part);
            && (i.Some? ==> s[i.value..][..|part|] == part)
            && forall k :: 0 <= k < (if i.Some? then i.value else |s| + 1) ==> !(part <= s[k..])
  {
    assert s[0..] == s;
    if !(part <= s) && s != "" {
      IndexMeans(s[1..], part);
      assert forall k :: 1 <= k <= |s| ==> s[k..] == s[1..][k - 1..];
    }
  }

  /** The text up to the first placeholder: none, one that is never closed, or one between `before` and `rest`. */
  datatype Split = NoPlaceholder | Unclosed | Placeholder(before: string, inner: string, rest: string)

  function SplitAt(value: string): (s: Split)
    ensures s.Placeholder? ==> |s.rest| < |value|
  {
    match Index(value, PREFIX)
    case None => NoPlaceholder
    case Some(start) =>
      var placeholder := value[start + |PREFIX|..];
      match Index(placeholder, "}")
      case None => Unclosed
      case Some(end) => Placeholder(value[..start], placeholder[..end], placeholder[end + 1..])
  }

  lemma SplitIsFaithful(value: string)
    ensures var s := SplitAt(value);
            s.Placeholder? ==>
              && value == s.before + (PREFIX + s.inner + "}") + s.rest
              && Index(s.before, PREFIX).None? && '}' !in s.inner
  {
    if SplitAt(value).Placeholder? {
      var i := Index(value, PREFIX).value;
      IndexMeans(value, PREFIX);
      CutAround(value, PREFIX, i);
      NoEarlier(value, PREFIX, i);
      var placeholder := value[i + |PREFIX|..];
      var j := Index(placeholder, "}").value;
      IndexMeans(placeholder, "}");
      CutAround(placeholder, "}", j);
      NoEarlier(placeholder, "}", j);
      Regroup(value[..i], PREFIX, placeholder[..j], "}", placeholder[j + 1..]);
      NoBrace(placeholder[..j]);
    }
  }

  lemma CutAround(value: string, part: string, i: nat)
    requires i + |part| <= |value| && value[i..][..|part|] == part
    ensures value == value[..i] + (part + value[i + |part|..])
  {
  }

  lemma Regroup(a: string, b: string, c: string, d: string, e: string)
    ensures a + (b + (c + (d + e))) == a + (b + c + d) + e
  {
  }

  lemma NoBrace(inner: string)
    requires Index(inner, "}").None?
    ensures '}' !in inner
  {
    IndexMeans(inner, "}");
    forall k | 0 <= k < |inner| ensures inner[k] != '}' {
      assert !("}" <= inner[k..]);
    }
  }

  lemma NoEarlier(value: string, part: string, i: nat)
    requires part != "" && Index(value, part) == Some(i)
    ensures Index(value[..i], part).None?
  {
    IndexMeans(value, part);
    IndexMeans(value[..i], part);
    forall k | 0 <= k < i ensures !(part <= value[..i][k..]) {
      assert value[..i][k..] <= value[k..];
    }
  }

  // ----- the walk -----

  /** How a name is resolved; None validates only. */
  type Resolver = Option<string -> Result>

  function CheckName(name: string): Option<Reason> {
    if name == "" || !ValidFieldName(name) then Some(InvalidName)
    else if !AllowedSource(name) then Some(BlockedSource)
    else None
  }

  /** What one placeholder turns into; `inner` is the text between the prefix and the closing brace. */
  function Replacement(inner: string, resolve: Resolver): Result {
    var name := TrimSpace(inner);
    match CheckName(name)
    case Some(reason) => Failed(reason)
    case None => if resolve.None? then Ok(PREFIX + inner + "}") else resolve.value(name)
  }

  /** The walk over a value, for any treatment of its placeholders. */
  function WalkWith(value: string, replace: string -> Result): Result
    decreases |value|
  {
    match SplitAt(value)
    case NoPlaceholder => Ok(value)
    case Unclosed => Failed(Malformed)
    case Placeholder(before, inner, rest) =>
      var piece := replace(inner);
      if piece.Failed? then piece else Prepend(before + piece.value, WalkWith(rest, replace))
  }

  function Prepend(head: string, r: Result): Result {
    if r.Failed? then r else Ok(head + r.value)
  }

  lemma PrependTwice(a: string, b: string, r: Result)
    ensures Prepend(a, Prepend(b, r)) == Prepend(a + b, r)
  {
    if r.Ok? {
      assert a + (b + r.value) == a + b + r.value;
    }
  }

  function Walk(value: string, resolve: Resolver): Result {
    WalkWith(value, (inner: string) => Replacement(inner, resolve))
  }

  /** The loop of the source: everything before `rest` is already in `out`, and `rest` only shrinks. */
  method WalkTemplate(value: string, resolve: Resolver) returns (result: Result)
    ensures result == Walk(value, resolve)
  {
    var out := "";
    var rest := value;
    ghost var replace := (inner: string) => Replacement(inner, resolve);
    while true
      invariant WalkWith(value, replace) == Prepend(out, WalkWith(rest, replace))
      decreases |rest|
    {
      match SplitAt(rest) {
        case NoPlaceholder =>
          out := out + rest;
          break;
        case Unclosed =>
          return Failed(Malformed);
        case Placeholder(before, inner, behind) =>
          var piece := ReplaceOne(inner, resolve);
          if piece.Failed? {
            return piece;
          }
          PrependTwice(out, before + piece.value, WalkWith(behind, replace));
          out := out + (before + piece.value);
          rest := behind;
      }
    }
    return Ok(out);
  }

  method ReplaceOne(inner: string, resolve: Resolver) returns (piece: Result)
    ensures piece == Replacement(inner, resolve)
  {
    var name := TrimSpace(inner);
    if name == "" || !ValidFieldName(name) {
      return Failed(InvalidName);
    }
    if !AllowedSource(name) {
      return Failed(BlockedSource);
    }
    if resolve.Some? {
      piece := resolve.value(name);
    } else {
      piece := Ok(PREFIX + inner + "}");
    }
  }

  // ----- the reference: a template is literals and placeholders -----

  datatype Segment = Literal(text: string) | Hole(inner: string)

  /** The segments of a value, or None when a placeholder is not closed. */
  function Parse(value: string): Option<seq<Segment>>
    decreases |value|
  {
    match SplitAt(value)
    case NoPlaceholder => Some([Literal(value)])
    case Unclosed => None
    case Placeholder(before, inner, rest) =>
      var tail := Parse(rest);
      if tail.None? then None else Some([Literal(before), Hole(inner)] + tail.value)
  }

  function PieceOf(s: Segment, replace: string -> Result): Result {
    match s
    case Literal(text) => Ok(text)
    case Hole(inner) => replace(inner)
  }

  /** The pieces laid end to end; the first failure wins. */
  function Rendered(segments: seq<Segment>, replace: string -> Result): Result {
    if segments == [] then Ok("")
    else
      var piece := PieceOf(segments[0], replace);
      if piece.Failed? then piece else Prepend(piece.value, Rendered(segments[1..], replace))
  }

  /** Parsing loses nothing, and no literal hides a placeholder. */
  lemma {:induction false} ParseIsFaithful(value: string)
    ensures Parse(value).Some? ==>
              Rendered(Parse(value).value, Verbatim) == Ok(value)
              && forall s :: s in Parse(value).value && s.Literal? ==> Index(s.text, PREFIX).None?
    decreases |value|
  {
    match SplitAt(value)
    case NoPlaceholder =>
      RenderedOne(value, Verbatim);
    case Unclosed =>
    case Placeholder(before, inner, rest) =>
      SplitIsFaithful(value);
      ParseIsFaithful(rest);
      if Parse(rest).Some? {
        RenderedTwo(before, inner, Parse(rest).value, Verbatim);
        assert value == before + (PREFIX + inner + "}") + rest;
      }
  }

  function Verbatim(inner: string): Result {
    Ok(PREFIX + inner + "}")
  }

  lemma RenderedOne(text: string, replace: string -> Result)
    ensures Rendered([Literal(text)], replace) == Ok(text)
  {
    assert [Literal(text)][1..] == [];
    assert text + "" == text;
  }

  lemma RenderedTwo(before: string, inner: string, tail: seq<Segment>, replace: string -> Result)
    ensures Rendered([Literal(before), Hole(inner)] + tail, replace)
            == if replace(inner).Failed? then replace(inner)
               else Prepend(before + replace(inner).value, Rendered(tail, replace))
  {
    var segments := [Literal(before), Hole(inner)] + tail;
    assert segments[1..] == [Hole(inner)] + tail && segments[1..][1..] == tail;
    if replace(inner).Ok? {
      PrependTwice(before, replace(inner).value, Rendered(tail, replace));
    }
  }

  /** On a value that parses, walking is rendering its segments: the literals with the replacements in
      between, which are never looked at again. A value that does not parse is never accepted. */
  lemma {:induction false} WalkIsRendering(value: string, replace: string -> Result)
    ensures Parse(value).Some? ==> WalkWith(value, replace) == Rendered(Parse(value).value, replace)
    ensures Parse(value).None? ==> WalkWith(value, replace).Failed?
    decreases |value|
  {
    match SplitAt(value)
    case NoPlaceholder => RenderedOne(value, replace);
    case Unclosed =>
    case Placeholder(before, inner, rest) =>
      WalkIsRendering(rest, replace);
      if Parse(rest).Some? {
        RenderedTwo(before, inner, Parse(rest).value, replace);
      }
  }

  /** Rendering succeeds exactly when every placeholder is replaced. */
  lemma {:induction false} RenderedWhen(segments: seq<Segment>, replace: string -> Result)
    ensures Rendered(segments, replace).Ok? <==> forall s :: s in segments && s.Hole? ==> replace(s.inner).Ok?
  {
    if segments != [] {
      RenderedWhen(segments[1..], replace);
      assert segments == [segments[0]] + segments[1..];
    }
  }

  lemma {:induction false} RenderedAlike(segments: seq<Segment>, f: string -> Result, g: string -> Result)
    requires forall s :: s in segments && s.Hole? ==> f(s.inner) == g(s.inner)
    ensures Rendered(segments, f) == Rendered(segments, g)
  {
    if segments != [] {
      assert segments[0] in segments;
      RenderedAlike(segments[1..], f, g);
    }
  }

  lemma ValidatedIsVerbatim(inner: string)
    ensures Replacement(inner, None).Ok? ==> Replacement(inner, None) == Verbatim(inner)
  {
  }

  /** Without a resolver every accepted value comes back unchanged. */
  lemma ValidationIsIdentity(value: string)
    ensures Walk(value, None).Ok? ==> Walk(value, None) == Ok(value)
  {
    var check := (inner: string) => Replacement(inner, None);
    WalkIsRendering(value, check);
    ParseIsFaithful(value);
    if Walk(value, None).Ok? {
      var segments := Parse(value).value;
      RenderedWhen(segments, check);
      forall s | s in segments && s.Hole? ensures check(s.inner) == Verbatim(s.inner) {
        ValidatedIsVerbatim(s.inner);
      }
      RenderedAlike(segments, check, Verbatim);
    }
  }

  // ----- rendering -----

  datatype RenderResult = Applied(value: string) | Skipped(reason: Reason)

  function Looked(name: string, lookup: string -> Option<string>): Result {
    if !AllowedSource(name) then Failed(BlockedSource)
    else
      match lookup(name)
      case None => Failed(MissingSource)
      case Some(v) => if ValidFieldValue(v) then Ok(v) else Failed(InvalidSourceValue)
  }

  /** The resolver of RenderClientHeaderTemplate; `lookup` finds a client header by name. */
  function SourceResolver(lookup: string -> Option<string>): Resolver {
    Some((name: string) => Looked(name, lookup))
  }

  /** What rendering answers: the value as it is when there is no placeholder, else the walked text if it
      is a legal header value. */
  function RenderResultOf(value: string, lookup: string -> Option<string>): RenderResult {
    if Index(value, PREFIX).None? then Applied(value)
    else
      match Walk(value, SourceResolver(lookup))
      case Failed(reason) => Skipped(reason)
      case Ok(text) => if ValidFieldValue(text) then Applied(text) else Skipped(InvalidRendered)
  }

  method RenderTemplate(value: string, lookup: string -> Option<string>) returns (r: RenderResult)
    ensures r == RenderResultOf(value, lookup)
  {
    if Index(value, PREFIX).None? {
      return Applied(value);
    }
    var walked := WalkTemplate(value, SourceResolver(lookup));
    match walked {
      case Failed(reason) => return Skipped(reason);
      case Ok(text) => return if ValidFieldValue(text) then Applied(text) else Skipped(InvalidRendered);
    }
  }

  /** The header a placeholder needs is there and has a legal value. */
  predicate Supplied(inner: string, lookup: string -> Option<string>) {
    lookup(TrimSpace(inner)).Some? && ValidFieldValue(lookup(TrimSpace(inner)).value)
  }

  lemma ReplacedWhen(inner: string, lookup: string -> Option<string>)
    ensures Replacement(inner, SourceResolver(lookup)).Ok? <==> Replacement(inner, None).Ok? && Supplied(inner, lookup)
    ensures Replacement(inner, SourceResolver(lookup)).Ok? ==>
              Some(Replacement(inner, SourceResolver(lookup)).value) == lookup(TrimSpace(inner))
  {
  }

  /** A value that renders is one that validates, and the converse fails only through the client's
      headers: every name must have a header, and its value must be legal. */
  lemma RendersExactlyWhen(value: string, lookup: string -> Option<string>)
    ensures Walk(value, SourceResolver(lookup)).Ok? <==>
              Walk(value, None).Ok? && Parse(value).Some?
              && forall s :: s in Parse(value).value && s.Hole? ==> Supplied(s.inner, lookup)
  {
    var check := (inner: string) => Replacement(inner, None);
    var resolver := SourceResolver(lookup);
    var fill := (inner: string) => Replacement(inner, resolver);
    WalkIsRendering(value, check);
    WalkIsRendering(value, fill);
    if Parse(value).Some? {
      RenderedWhen(Parse(value).value, check);
      RenderedWhen(Parse(value).value, fill);
      forall s | s in Parse(value).value && s.Hole?
        ensures fill(s.inner).Ok? <==> check(s.inner).Ok? && Supplied(s.inner, lookup)
      {
        ReplacedWhen(s.inner, lookup);
      }
    }
  }

  /** When legal values are put in, the rendered text is a legal header value exactly when its literals are. */
  lemma {:induction false} RenderedIsLegal(segments: seq<Segment>, replace: string -> Result)
    requires Rendered(segments, replace).Ok?
    requires forall s :: s in segments && s.Hole? && replace(s.inner).Ok? ==> ValidFieldValue(replace(s.inner).value)
    ensures ValidFieldValue(Rendered(segments, replace).value)
            <==> forall s :: s in segments && s.Literal? ==> ValidFieldValue(s.text)
  {
    if segments != [] {
      var first := segments[0];
      assert first in segments;
      assert segments == [first] + segments[1..];
      RenderedIsLegal(segments[1..], replace);
      LegalConcat(PieceOf(first, replace).value, Rendered(segments[1..], replace).value);
    }
  }

  lemma LegalConcat(a: string, b: string)
    ensures ValidFieldValue(a + b) <==> ValidFieldValue(a) && ValidFieldValue(b)
  {
    assert forall c :: c in a + b <==> c in a || c in b;
  }

  predicate LiteralsLegal(segments: seq<Segment>) {
    forall s :: s in segments && s.Literal? ==> ValidFieldValue(s.text)
  }

  predicate HolesSupplied(segments: seq<Segment>, lookup: string -> Option<string>) {
    forall s :: s in segments && s.Hole? ==> Supplied(s.inner, lookup)
  }

  /** End to end: a template with a placeholder is applied if and only if it validates, its literal text is
      legal, and the client supplied a legal header for each placeholder. A value without one always is. */
  lemma AppliedExactlyWhen(value: string, lookup: string -> Option<string>)
    ensures RenderResultOf(value, lookup).Applied? <==>
            || Index(value, PREFIX).None?
            || (Walk(value, None).Ok? && Parse(value).Some?
                && LiteralsLegal(Parse(value).value) && HolesSupplied(Parse(value).value, lookup))
  {
    RendersExactlyWhen(value, lookup);
    var resolver := SourceResolver(lookup);
    var fill := (inner: string) => Replacement(inner, resolver);
    WalkIsRendering(value, fill);
    if Walk(value, resolver).Ok? {
      var segments := Parse(value).value;
      forall s | s in segments && s.Hole? && fill(s.inner).Ok? ensures ValidFieldValue(fill(s.inner).value) {
        ReplacedWhen(s.inner, lookup);
      }
      RenderedIsLegal(segments, fill);
    }
  }
}
