/** Protocols, request features and the conversion gate. */
module ProtocolGate {

  datatype Protocol =
    | OpenAIChat | OpenAIResponse | Anthropic | Gemini | Volcengine | OpenAIEmbedding | Unknown | Other(text: string)

  function NameOf(p: Protocol): string {
    match p
    case OpenAIChat => "openai_chat"
    case OpenAIResponse => "openai_response"
    case Anthropic => "anthropic"
    case Gemini => "gemini"
    case Volcengine => "volcengine"
    case OpenAIEmbedding => "openai_embedding"
    case Unknown => "unknown"
    case Other(text) => text
  }

  predicate IsAdaptive(p: Protocol) {
    p.OpenAIChat? || p.OpenAIResponse? || p.Anthropic?
  }

  predicate HasAdapter(p: Protocol) {
    !p.Unknown? && !p.Other?
  }

  /** Byte order of Go strings. */
  predicate TextLess(a: string, b: string) {
    b != "" && (a == "" || a[0] < b[0] || (a[0] == b[0] && TextLess(a[1..], b[1..])))
  }

  lemma {:induction false} TextLessIsStrict(a: string)
    ensures !TextLess(a, a)
  {
    if a != "" {
      TextLessIsStrict(a[1..]);
    }
  }

  lemma {:induction false} TextLessIsTransitive(a: string, b: string, c: string)
    requires TextLess(a, b) && TextLess(b, c)
    ensures TextLess(a, c)
  {
    if a != "" && a[0] == b[0] && b[0] == c[0] {
      TextLessIsTransitive(a[1..], b[1..], c[1..]);
    }
  }

  /** The names of the three adaptive protocols in order: anthropic, openai_chat, openai_response. */
  lemma AdaptiveNames()
    ensures TextLess(NameOf(Anthropic), NameOf(OpenAIChat)) && TextLess(NameOf(Anthropic), NameOf(OpenAIResponse))
    ensures TextLess(NameOf(OpenAIChat), NameOf(OpenAIResponse))
  {
    var chat, response := "openai_chat", "openai_response";
    SamePrefix("openai_", "chat", "response");
    assert chat == "openai_" + "chat" && response == "openai_" + "response";
  }

  lemma {:induction false} SamePrefix(prefix: string, a: string, b: string)
    ensures TextLess(prefix + a, prefix + b) <==> TextLess(a, b)
  {
    if prefix == "" {
      assert prefix + a == a && prefix + b == b;
    } else {
      assert (prefix + a)[1..] == prefix[1..] + a && (prefix + b)[1..] == prefix[1..] + b;
      SamePrefix(prefix[1..], a, b);
    }
  }

  datatype Features = Features(
    plainText: bool, functionTools: bool, responsesNative: bool, continuation: bool, multimodal: bool,
    reasoning: bool, anthropicSignature: bool, anthropicCache: bool, streaming: bool, embedding: bool,
    passthroughPinned: bool)

  predicate RequiresLegacyOnly(f: Features) {
    f.multimodal || f.embedding
  }

  datatype Verdict = Lossless | SupportedWithLimits | Forbidden | LegacyFixed

  datatype ConversionMode = RawPassthrough | Normalized | Translated | Legacy

  predicate PassthroughCapable(p: Protocol) {
    p.OpenAIResponse? || p.Anthropic?
  }

  function EvaluateConversion(ingress: Protocol, upstream: Protocol, f: Features): Verdict {
    if !IsAdaptive(ingress) || !IsAdaptive(upstream) then LegacyFixed
    else
      var samePair := ingress == upstream;
      if f.responsesNative || f.continuation || f.passthroughPinned then
        if samePair && ingress == OpenAIResponse then Lossless else Forbidden
      else if f.anthropicSignature || f.anthropicCache then
        if samePair && ingress == Anthropic then Lossless else Forbidden
      else if f.functionTools then
        if samePair then
          if PassthroughCapable(ingress) then Lossless else SupportedWithLimits
        else if (ingress == OpenAIResponse && upstream == Anthropic)
            || (ingress == Anthropic && upstream == OpenAIResponse) then
          Forbidden
        else SupportedWithLimits
      else if samePair && PassthroughCapable(ingress) then Lossless
      else SupportedWithLimits
  }

  predicate Allowed(v: Verdict) {
    v != Forbidden && v != LegacyFixed
  }

  function ModeFor(ingress: Protocol, upstream: Protocol, v: Verdict): ConversionMode {
    if v == LegacyFixed || v == Forbidden then Legacy
    else if ingress == upstream then if PassthroughCapable(ingress) then RawPassthrough else Normalized
    else Translated
  }

  predicate NeedsResponses(f: Features) {
    f.responsesNative || f.continuation || f.passthroughPinned
  }

  predicate NeedsAnthropic(f: Features) {
    f.anthropicSignature || f.anthropicCache
  }

  /** What the gate lets through: protocol-bound features never leave their own protocol, tools never
      cross between Responses and Anthropic, and everything else may be converted. */
  lemma GateAdmits(ingress: Protocol, upstream: Protocol, f: Features)
    ensures Allowed(EvaluateConversion(ingress, upstream, f)) <==>
            && IsAdaptive(ingress) && IsAdaptive(upstream)
            && (NeedsResponses(f) ==> ingress == upstream == OpenAIResponse)
            && (!NeedsResponses(f) && NeedsAnthropic(f) ==> ingress == upstream == Anthropic)
            && (f.functionTools ==> {ingress, upstream} != {OpenAIResponse, Anthropic})
  {
    if {ingress, upstream} == {OpenAIResponse, Anthropic} {
      assert OpenAIResponse in {ingress, upstream} && Anthropic in {ingress, upstream};
    }
    assert ingress in {ingress, upstream} && upstream in {ingress, upstream};
    if (ingress == OpenAIResponse && upstream == Anthropic) || (ingress == Anthropic && upstream == OpenAIResponse) {
      assert {ingress, upstream} == {OpenAIResponse, Anthropic};
    }
  }

  /** A lossless verdict is exactly a raw passthrough, and a passthrough never changes the protocol. */
  lemma LosslessIsPassthrough(ingress: Protocol, upstream: Protocol, f: Features)
    ensures var v := EvaluateConversion(ingress, upstream, f);
            var m := ModeFor(ingress, upstream, v);
            && (v == Lossless <==> m == RawPassthrough)
            && (m == RawPassthrough ==> ingress == upstream)
            && (m == Legacy <==> !Allowed(v))
  {
  }
}
