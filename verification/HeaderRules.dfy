/** Which client headers a template may copy, and what becomes of a template of one placeholder. */
module HeaderRules {
  import opened Text
  import opened Wrappers
  import opened HeaderTemplate

  // ----- characters -----

  /** White space as Unicode has it. */
  lemma SpaceMeans(c: char)
    ensures IsSpace(c) <==>
            var n := c as int;
            || 9 <= n <= 13 || n == 32 || n == 133 || n == 160 || n == 5760 || 8192 <= n <= 8202
            || n == 8232 || n == 8233 || n == 8239 || n == 8287 || n == 12288
  {
  }

  /** A name is made of visible ASCII characters that are no separators: quote, parentheses, comma, slash, colon
      to at sign, square brackets and backslash, braces. */
  predicate NameChar(c: char) {
    var n := c as int;
    && 33 <= n <= 126 && n != 34 && n != 40 && n != 41 && n != 44 && n != 47 && !(58 <= n <= 64) && !(91 <= n <= 93)
    && n != 123 && n != 125
  }

  lemma TokensAreNameChars(c: char)
    requires TokenChar(c)
    ensures NameChar(c)
  {
  }

  lemma NameCharsAreTokens(c: char)
    requires NameChar(c)
    ensures TokenChar(c)
  {
  }

  lemma NameCharMeans(c: char)
    ensures TokenChar(c) <==> NameChar(c)
  {
    if TokenChar(c) {
      TokensAreNameChars(c);
    } else if NameChar(c) {
      NameCharsAreTokens(c);
    }
  }

  predicate Name(name: string) {
    name != "" && forall i :: 0 <= i < |name| ==> NameChar(name[i])
  }

  lemma NameMeans(name: string)
    ensures ValidFieldName(name) <==> Name(name)
  {
    forall i | 0 <= i < |name| ensures TokenChar(name[i]) <==> NameChar(name[i]) {
      NameCharMeans(name[i]);
    }
    forall c | c in name ensures exists i :: 0 <= i < |name| && name[i] == c {
    }
  }

  /** A value has no control characters but tabs. */
  predicate Legal(value: string) {
    forall i :: 0 <= i < |value| ==> value[i] as int == 9 || (value[i] as int >= 32 && value[i] as int != 127)
  }

  lemma LegalMeans(value: string)
    ensures ValidFieldValue(value) <==> Legal(value)
  {
    if Legal(value) {
      forall c | c in value ensures c == '\t' || (c >= ' ' && c != '\U{7F}') {
        var i :| 0 <= i < |value| && value[i] == c;
      }
    }
    if ValidFieldValue(value) {
      forall i | 0 <= i < |value| ensures value[i] as int == 9 || (value[i] as int >= 32 && value[i] as int != 127) {
        assert value[i] in value;
      }
    }
  }

  // ----- trimming -----

  predicate AllSpaces(s: string) {
    forall i :: 0 <= i < |s| ==> IsSpace(s[i])
  }

  predicate Trimmed(s: string) {
    s != "" ==> !IsSpace(s[0]) && !IsSpace(s[|s| - 1])
  }

  lemma {:induction false} TrimLeftMeans(s: string)
    ensures var t := TrimLeft(s);
            |t| <= |s| && s[|s| - |t|..] == t && AllSpaces(s[..|s| - |t|]) && (t != "" ==> !IsSpace(t[0]))
  {
    if s != "" && IsSpace(s[0]) {
      var rest, t := s[1..], TrimLeft(s);
      TrimLeftMeans(rest);
      assert s == [s[0]] + rest;
      assert s[..|s| - |t|] == [s[0]] + rest[..|rest| - |t|];
    }
  }

  lemma {:induction false} TrimRightMeans(s: string)
    ensures var t := TrimRight(s);
            |t| <= |s| && s[..|t|] == t && AllSpaces(s[|t|..]) && (t != "" ==> !IsSpace(t[|t| - 1]))
  {
    if s != "" && IsSpace(s[|s| - 1]) {
      var before, t := s[..|s| - 1], TrimRight(s);
      TrimRightMeans(before);
      assert s[|t|..] == before[|t|..] + [s[|s| - 1]];
    }
  }

  /** Trimming takes the white space from both ends and nothing else. */
  lemma TrimMeans(s: string) returns (before: string, after: string)
    ensures s == before + TrimSpace(s) + after && AllSpaces(before) && AllSpaces(after) && Trimmed(TrimSpace(s))
  {
    var t := TrimLeft(s);
    TrimLeftMeans(s);
    TrimRightMeans(t);
    before, after := s[..|s| - |t|], t[|TrimRight(t)|..];
  }

  lemma TrimmedStays(s: string)
    requires Trimmed(s)
    ensures TrimSpace(s) == s
  {
  }

  // ----- protected headers -----

  /** Credentials, cookies, hop-by-hop and forwarding headers, in lower case. */
  const PROTECTED := [
    "authorization", "x-api-key", "api-key", "anthropic-api-key", "x-goog-api-key", "cookie", "set-cookie",
    "connection", "keep-alive", "proxy-authenticate", "proxy-authorization", "te", "trailer", "transfer-encoding",
    "upgrade", "content-length", "host", "accept-encoding", "x-forwarded-for", "x-forwarded-host",
    "x-forwarded-proto", "x-forwarded-port", "x-real-ip", "forwarded", "cf-connecting-ip", "true-client-ip",
    "x-client-ip", "x-cluster-client-ip", "origin"
  ]

  lemma LowerMeans(name: string, i: nat)
    requires i < |name|
    ensures |ToLower(name)| == |name|
    ensures ToLower(name)[i] as int == name[i] as int + (if 65 <= name[i] as int <= 90 then 32 else 0)
  {
  }

  /** The name is that of a protected header, in whatever case it is written. */
  predicate Protected(name: string) {
    var lower := ToLower(name);
    || lower in PROTECTED
    || (|lower| >= 14 && lower[..14] == "sec-websocket-")
    || (|lower| >= 6 && lower[..6] == "proxy-")
  }

  lemma PrefixMeans(text: string, prefix: string)
    ensures prefix <= text <==> |text| >= |prefix| && text[..|prefix|] == prefix
  {
  }

  lemma ListIsSet(text: string)
    ensures text in BLOCKED_SOURCES <==> text in PROTECTED
  {
  }

  lemma AllowedMeans(name: string)
    requires Name(name) && Trimmed(name)
    ensures AllowedSource(name) <==> !Protected(name)
  {
    TrimmedStays(name);
    NameMeans(name);
    ListIsSet(ToLower(name));
    PrefixMeans(ToLower(name), "sec-websocket-");
    PrefixMeans(ToLower(name), "proxy-");
  }

  // ----- a template of one placeholder -----

  lemma {:induction false} FirstBrace(text: string)
    requires '}' !in text
    ensures Index(text + "}", "}") == Some(|text|)
  {
    if text == "" {
      assert text + "}" == "}";
    } else {
      assert (text + "}")[0] == text[0] && (text + "}")[1..] == text[1..] + "}";
      FirstBrace(text[1..]);
    }
  }

  lemma OnePlaceholder(inner: string)
    requires '}' !in inner
    ensures SplitAt("{client_header:" + inner + "}") == Placeholder("", inner, "")
  {
    var value := "{client_header:" + inner + "}";
    assert PREFIX <= value && value[0 + |PREFIX|..] == inner + "}";
    FirstBrace(inner);
    assert (inner + "}")[..|inner|] == inner && (inner + "}")[|inner| + 1..] == "";
  }

  lemma WalkOne(inner: string, replace: string -> Result)
    requires '}' !in inner
    ensures WalkWith("{client_header:" + inner + "}", replace) == replace(inner)
  {
    OnePlaceholder(inner);
    WalkNothing(replace);
    Around(replace(inner));
  }

  lemma WalkNothing(replace: string -> Result)
    ensures WalkWith("", replace) == Ok("")
  {
    assert Index("", PREFIX) == None;
  }

  lemma Around(piece: Result)
    ensures piece.Ok? ==> Prepend("" + piece.value, Ok("")) == piece
  {
    if piece.Ok? {
      assert "" + piece.value + "" == piece.value;
    }
  }

  /** The header named in the placeholder, white space around the name aside, is copied if the name is one, is not
      protected, and the client sent it with a legal value; otherwise the first of these that fails is the reason. */
  lemma PlaceholderCopies(inner: string, lookup: string -> Option<string>)
    requires '}' !in inner
    ensures var name, got := TrimSpace(inner), RenderResultOf("{client_header:" + inner + "}", lookup);
            if !Name(name) then got == Skipped(InvalidName)
            else if Protected(name) then got == Skipped(BlockedSource)
            else if lookup(name).None? then got == Skipped(MissingSource)
            else if !Legal(lookup(name).value) then got == Skipped(InvalidSourceValue)
            else got == Applied(lookup(name).value)
  {
    var name, value := TrimSpace(inner), "{client_header:" + inner + "}";
    var before, after := TrimMeans(inner);
    var resolve := SourceResolver(lookup);
    WalkOne(inner, (i: string) => Replacement(i, resolve));
    assert PREFIX <= value && Index(value, PREFIX) == Some(0);
    NameMeans(name);
    if Name(name) {
      AllowedMeans(name);
      if lookup(name).Some? {
        LegalMeans(lookup(name).value);
      }
    }
  }
}
