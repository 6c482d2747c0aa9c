/**
 * The streaming accumulators: terminal token values, never running sums. The TypeScript and
 * Python machines share their branches and differ in how a usage field is coerced to a count.
 */
module Accumulators {
  import opened Confidence
  import opened Folds

  datatype Json =
    | JNull
    | JBool(b: bool)
    | JInt(n: int)
    | JFloat(x: real)
    | JStr(s: string)
    | JArr(items: seq<Json>)
    | JObj(fields: map<string, Json>)

  datatype Language = TypeScript | Python

  function Field(v: Json, name: string): (r: Option<Json>) {
    if v.JObj? && name in v.fields then Some(v.fields[name]) else None
  }

  /** Narrow a payload to a record, or an empty one. */
  function AsRecord(v: Option<Json>): (r: Json)
    ensures r.JObj?
  {
    if v.Some? && v.value.JObj? then v.value else JObj(map[])
  }

  function Truncate(x: real): (n: int) {
    if x >= 0.0 then x.Floor else -((-x).Floor)
  }

  /** Coerce a usage field to a non-negative count; Python reads only integers. */
  function AsInt(lang: Language, v: Option<Json>): (n: nat) {
    if v.None? then 0
    else match v.value
      case JInt(n) => if n > 0 then n else 0
      case JFloat(x) => if lang == TypeScript && Truncate(x) > 0 then Truncate(x) else 0
      case _ => 0
  }

  /** The two coercions differ exactly on floats that truncate to a positive count. */
  lemma CoercionsAgreeIff(v: Option<Json>)
    ensures AsInt(TypeScript, v) == AsInt(Python, v) <==> !(v.Some? && v.value.JFloat? && Truncate(v.value.x) > 0)
  {
  }

  datatype TokenVector = TokenVector(
    inputUncached: int, cacheRead: int, cacheWrite5m: int, cacheWrite1h: int, output: int, reasoning: int)

  /** The invariants every token vector constructor enforces by throwing. */
  predicate ValidVector(v: TokenVector) {
    && v.inputUncached >= 0 && v.cacheRead >= 0 && v.cacheWrite5m >= 0 && v.cacheWrite1h >= 0
    && 0 <= v.reasoning <= v.output
  }

  datatype Accumulator =
    | Anthropic(inputUncached: nat, cacheRead: nat, cacheWrite5m: nat, cacheWrite1h: nat,
                outputTerminal: nat, thinkingBlocks: nat, sawMessageStart: bool, cancelled: bool)
    | OpenAi(inputTotal: nat, cachedRaw: nat, output: nat, sawUsage: bool, cancelled: bool, includeUsage: bool)
    | Gemini(prompt: nat, cached: nat, candidates: nat, thoughts: nat, sawUsage: bool, cancelled: bool)

  datatype Provider = AnthropicProvider | OpenAiProvider(includeUsage: bool) | GeminiProvider

  function NewAccumulator(p: Provider): (a: Accumulator) {
    match p
    case AnthropicProvider => Anthropic(0, 0, 0, 0, 0, 0, false, false)
    case OpenAiProvider(includeUsage) => OpenAi(0, 0, 0, false, false, includeUsage)
    case GeminiProvider => Gemini(0, 0, 0, 0, false, false)
  }

  // ----- which events matter -----

  predicate IsType(e: Json, t: string) {
    Field(e, "type") == Some(JStr(t))
  }

  predicate IsStart(e: Json) {
    IsType(e, "message_start")
  }

  predicate IsThinking(e: Json) {
    IsType(e, "content_block_start") && Field(AsRecord(Field(e, "content_block")), "type") == Some(JStr("thinking"))
  }

  function StartUsage(e: Json): (u: Json) {
    AsRecord(Field(AsRecord(Field(e, "message")), "usage"))
  }

  function DeltaUsage(e: Json): (u: Json) {
    AsRecord(Field(e, "usage"))
  }

  /** The event overwrites the terminal output count. */
  predicate SetsOutput(e: Json) {
    IsStart(e) || (IsType(e, "message_delta") && Field(DeltaUsage(e), "output_tokens").Some?)
  }

  /** The usage an output-setting event reads. */
  function OutputUsage(e: Json): (u: Json) {
    if IsStart(e) then StartUsage(e) else DeltaUsage(e)
  }

  function OutputIn(lang: Language, e: Json): (n: nat) {
    AsInt(lang, Field(OutputUsage(e), "output_tokens"))
  }

  /** An OpenAI chunk that carries a usage object. */
  predicate HasUsage(e: Json) {
    var u := Field(e, "usage");
    u.Some? && u.value.JObj?
  }

  predicate HasUsageMetadata(e: Json) {
    var u := Field(e, "usageMetadata");
    u.Some? && u.value.JObj?
  }

  // ----- the machines -----

  function Observe(lang: Language, a: Accumulator, e: Json): (b: Accumulator) {
    match a
    case Anthropic(_, _, _, _, _, _, _, _) =>
      if IsType(e, "message_start") then
        var usage := StartUsage(e);
        var creation := AsRecord(Field(usage, "cache_creation"));
        a.(sawMessageStart := true,
           inputUncached := AsInt(lang, Field(usage, "input_tokens")),
           cacheRead := AsInt(lang, Field(usage, "cache_read_input_tokens")),
           cacheWrite5m := AsInt(lang, Field(creation, "ephemeral_5m_input_tokens")),
           cacheWrite1h := AsInt(lang, Field(creation, "ephemeral_1h_input_tokens")),
           outputTerminal := AsInt(lang, Field(usage, "output_tokens")))
      else if IsType(e, "message_delta") then
        var usage := DeltaUsage(e);
        if Field(usage, "output_tokens").Some? then a.(outputTerminal := AsInt(lang, Field(usage, "output_tokens"))) else a
      else if IsThinking(e) then a.(thinkingBlocks := a.thinkingBlocks + 1)
      else a
    case OpenAi(_, _, _, _, _, _) =>
      if !HasUsage(e) then a
      else
        var usage := AsRecord(Field(e, "usage"));
        a.(sawUsage := true,
           inputTotal := AsInt(lang, Field(usage, "prompt_tokens")),
           cachedRaw := AsInt(lang, Field(AsRecord(Field(usage, "prompt_tokens_details")), "cached_tokens")),
           output := AsInt(lang, Field(usage, "completion_tokens")))
    case Gemini(_, _, _, _, _, _) =>
      if !HasUsageMetadata(e) then a
      else
        var meta := AsRecord(Field(e, "usageMetadata"));
        a.(sawUsage := true,
           prompt := AsInt(lang, Field(meta, "promptTokenCount")),
           cached := AsInt(lang, Field(meta, "cachedContentTokenCount")),
           candidates := AsInt(lang, Field(meta, "candidatesTokenCount")),
           thoughts := AsInt(lang, Field(meta, "thoughtsTokenCount")))
  }

  function ObserveAll(lang: Language, a: Accumulator, es: seq<Json>): (b: Accumulator) {
    if es == [] then a else Observe(lang, ObserveAll(lang, a, es[..|es| - 1]), es[|es| - 1])
  }

  function Finalize(a: Accumulator): (v: TokenVector)
    ensures ValidVector(v)
  {
    match a
    case Anthropic(input, read, w5m, w1h, output, thinking, _, _) =>
      TokenVector(input, read, w5m, w1h, if output > thinking then output else thinking, thinking)
    case OpenAi(input, raw, output, _, _, _) =>
      var read := if raw < input then raw else input;
      TokenVector(input - read, read, 0, 0, output, 0)
    case Gemini(prompt, cached, candidates, thoughts, _, _) =>
      var read := if cached < prompt then cached else prompt;
      TokenVector(prompt - read, read, 0, 0, candidates + thoughts, thoughts)
  }

  /** partialRecovered: the stream was cut or its usage never came. */
  function PartialRecovered(lang: Language, a: Accumulator): (p: bool) {
    match a
    case Anthropic(_, _, _, _, _, _, saw, cancelled) => cancelled || !saw
    case OpenAi(_, _, _, saw, cancelled, includeUsage) => cancelled || !saw || (lang == TypeScript && !includeUsage)
    case Gemini(_, _, _, _, saw, cancelled) => cancelled || !saw
  }

  lemma {:induction false} ObserveConcat(lang: Language, a: Accumulator, es: seq<Json>, fs: seq<Json>)
    ensures ObserveAll(lang, a, es + fs) == ObserveAll(lang, ObserveAll(lang, a, es), fs)
  {
    if fs == [] {
      assert es + fs == es;
    } else {
      var front, last := fs[..|fs| - 1], fs[|fs| - 1];
      assert (es + fs)[..|es + fs| - 1] == es + front;
      ObserveConcat(lang, a, es, front);
    }
  }

  // ----- terminal values -----

  /** The last event with a property, if any. */
  function LastWhere(es: seq<Json>, p: Json -> bool): (r: Option<Json>) {
    if es == [] then None
    else if p(es[|es| - 1]) then Some(es[|es| - 1])
    else LastWhere(es[..|es| - 1], p)
  }

  /** Position i holds the last event with the property. */
  ghost predicate LastAt(es: seq<Json>, p: Json -> bool, i: nat) {
    i < |es| && p(es[i]) && forall j :: i < j < |es| ==> !p(es[j])
  }

  lemma {:induction false} LastWhereIsLast(es: seq<Json>, p: Json -> bool)
    ensures LastWhere(es, p).None? <==> forall i :: 0 <= i < |es| ==> !p(es[i])
    ensures LastWhere(es, p).Some? ==> exists i: nat :: LastAt(es, p, i) && es[i] == LastWhere(es, p).value
  {
    if es != [] {
      var n := |es| - 1;
      LastWhereIsLast(es[..n], p);
      if p(es[n]) {
        assert LastAt(es, p, n);
      } else if LastWhere(es[..n], p).Some? {
        var i: nat :| LastAt(es[..n], p, i) && es[..n][i] == LastWhere(es[..n], p).value;
        LastAtStays(es, p, i);
      } else {
        assert forall i :: 0 <= i < n ==> es[..n][i] == es[i];
      }
    }
  }

  lemma LastAtStays(es: seq<Json>, p: Json -> bool, i: nat)
    requires es != [] && !p(es[|es| - 1]) && LastAt(es[..|es| - 1], p, i)
    ensures LastAt(es, p, i) && es[i] == es[..|es| - 1][i]
  {
    forall j | i < j < |es| - 1 ensures !p(es[j]) {
      assert es[j] == es[..|es| - 1][j];
    }
  }

  /** What the Anthropic machine holds, read off the last events that set it. */
  function AnthropicFrom(lang: Language, start: Option<Json>, out: Option<Json>, thinking: nat): (a: Accumulator) {
    var usage := if start.None? then JObj(map[]) else StartUsage(start.value);
    var creation := AsRecord(Field(usage, "cache_creation"));
    Anthropic(
      AsInt(lang, Field(usage, "input_tokens")),
      AsInt(lang, Field(usage, "cache_read_input_tokens")),
      AsInt(lang, Field(creation, "ephemeral_5m_input_tokens")),
      AsInt(lang, Field(creation, "ephemeral_1h_input_tokens")),
      if out.None? then 0 else OutputIn(lang, out.value),
      thinking, start.Some?, false)
  }

  /** Earlier usage leaves no trace: the state is a function of the last blocks and the thinking count. */
  lemma {:induction false} AnthropicTerminal(lang: Language, es: seq<Json>)
    ensures ObserveAll(lang, NewAccumulator(AnthropicProvider), es) ==
            AnthropicFrom(lang, LastWhere(es, e => IsStart(e)), LastWhere(es, e => SetsOutput(e)), CountBy(es, e => IsThinking(e)))
  {
    if es != [] {
      AnthropicTerminal(lang, es[..|es| - 1]);
    }
  }

  function OpenAiFrom(lang: Language, last: Option<Json>, includeUsage: bool): (a: Accumulator) {
    var initial := NewAccumulator(OpenAiProvider(includeUsage));
    if last.None? then initial else Observe(lang, initial, last.value)
  }

  lemma {:induction false} OpenAiTerminal(lang: Language, includeUsage: bool, es: seq<Json>)
    ensures ObserveAll(lang, NewAccumulator(OpenAiProvider(includeUsage)), es) ==
            OpenAiFrom(lang, LastWhere(es, e => HasUsage(e)), includeUsage)
  {
    if es != [] {
      OpenAiTerminal(lang, includeUsage, es[..|es| - 1]);
      LastWhereIsLast(es[..|es| - 1], e => HasUsage(e));
    }
  }

  function GeminiFrom(lang: Language, last: Option<Json>): (a: Accumulator) {
    var initial := NewAccumulator(GeminiProvider);
    if last.None? then initial else Observe(lang, initial, last.value)
  }

  lemma {:induction false} GeminiTerminal(lang: Language, es: seq<Json>)
    ensures ObserveAll(lang, NewAccumulator(GeminiProvider), es) ==
            GeminiFrom(lang, LastWhere(es, e => HasUsageMetadata(e)))
  {
    if es != [] {
      GeminiTerminal(lang, es[..|es| - 1]);
      LastWhereIsLast(es[..|es| - 1], e => HasUsageMetadata(e));
    }
  }

  // ----- repeating usage -----

  /** Whether an event is a usage block of the provider's stream. */
  predicate IsUsage(p: Provider, e: Json) {
    match p
    case AnthropicProvider => SetsOutput(e)
    case OpenAiProvider(_) => HasUsage(e)
    case GeminiProvider => HasUsageMetadata(e)
  }

  lemma {:induction false} LastOfNarrower(es: seq<Json>, p: Json -> bool, q: Json -> bool)
    requires forall e :: p(e) ==> q(e)
    requires LastWhere(es, q).Some? && p(LastWhere(es, q).value)
    ensures LastWhere(es, p) == LastWhere(es, q)
  {
    if !q(es[|es| - 1]) {
      LastOfNarrower(es[..|es| - 1], p, q);
    }
  }

  lemma LastWherePush(es: seq<Json>, e: Json, p: Json -> bool)
    ensures LastWhere(es + [e], p) == if p(e) then Some(e) else LastWhere(es, p)
  {
    assert (es + [e])[..|es|] == es;
  }

  /** Delivering the latest usage block once more changes nothing: no double count. */
  lemma RepeatedUsageIsIdempotent(lang: Language, p: Provider, es: seq<Json>, e: Json)
    requires LastWhere(es, e => IsUsage(p, e)) == Some(e)
    ensures ObserveAll(lang, NewAccumulator(p), es + [e]) == ObserveAll(lang, NewAccumulator(p), es)
  {
    match p
    case AnthropicProvider =>
      SameLast(es, e => IsUsage(p, e), e => SetsOutput(e));
      AnthropicTerminal(lang, es);
      AnthropicTerminal(lang, es + [e]);
      LastWherePush(es, e, e => IsStart(e));
      LastWherePush(es, e, e => SetsOutput(e));
      CountByPush(es, e, e => IsThinking(e));
      LastWhereIsLast(es, e => SetsOutput(e));
      NotThinking(e);
      if IsStart(e) {
        LastOfNarrower(es, e => IsStart(e), e => SetsOutput(e));
      }
    case OpenAiProvider(includeUsage) =>
      SameLast(es, e => IsUsage(p, e), e => HasUsage(e));
      OpenAiTerminal(lang, includeUsage, es);
      OpenAiTerminal(lang, includeUsage, es + [e]);
      LastWherePush(es, e, e => HasUsage(e));
    case GeminiProvider =>
      SameLast(es, e => IsUsage(p, e), e => HasUsageMetadata(e));
      GeminiTerminal(lang, es);
      GeminiTerminal(lang, es + [e]);
      LastWherePush(es, e, e => HasUsageMetadata(e));
  }

  lemma {:induction false} SameLast(es: seq<Json>, p: Json -> bool, q: Json -> bool)
    requires forall e :: p(e) == q(e)
    ensures LastWhere(es, p) == LastWhere(es, q)
  {
    if es != [] {
      SameLast(es[..|es| - 1], p, q);
    }
  }

  lemma NotThinking(e: Json)
    requires SetsOutput(e)
    ensures !IsThinking(e)
  {
    assert "message_start"[0] == 'm' && "message_delta"[0] == 'm' && "content_block_start"[0] == 'c';
  }

  // ----- the two languages -----

  /** Both languages coerce the field to the same count. */
  predicate SameCount(u: Json, name: string) {
    AsInt(TypeScript, Field(u, name)) == AsInt(Python, Field(u, name))
  }

  /** A test holds of the fields the Anthropic machine keeps: of the last start and the last output block. */
  predicate AnthropicFields(start: Option<Json>, out: Option<Json>, ok: (Json, string) -> bool) {
    && (start.Some? ==> StartFields(StartUsage(start.value), ok))
    && (out.Some? ==> ok(OutputUsage(out.value), "output_tokens"))
  }

  predicate StartFields(usage: Json, ok: (Json, string) -> bool) {
    var creation := AsRecord(Field(usage, "cache_creation"));
    && ok(usage, "input_tokens") && ok(usage, "cache_read_input_tokens")
    && ok(creation, "ephemeral_5m_input_tokens") && ok(creation, "ephemeral_1h_input_tokens")
  }

  /** A test holds of the fields the OpenAI machine keeps: those of the last usage block. */
  predicate OpenAiFields(last: Option<Json>, ok: (Json, string) -> bool) {
    last.Some? ==>
      var usage := AsRecord(Field(last.value, "usage"));
      && ok(usage, "prompt_tokens") && ok(usage, "completion_tokens")
      && ok(AsRecord(Field(usage, "prompt_tokens_details")), "cached_tokens")
  }

  predicate KeptFields(p: Provider, es: seq<Json>, ok: (Json, string) -> bool)
    requires !p.GeminiProvider?
  {
    match p
    case AnthropicProvider => AnthropicFields(LastWhere(es, e => IsStart(e)), LastWhere(es, e => SetsOutput(e)), ok)
    case OpenAiProvider(_) => OpenAiFields(LastWhere(es, e => HasUsage(e)), ok)
  }

  /**
   * The Python and TypeScript machines end in equal states, and so with equal tokens, exactly
   * when the coercions agree on the fields kept at the end: no other field of any event matters.
   */
  lemma LanguagesAgreeIff(p: Provider, es: seq<Json>)
    requires !p.GeminiProvider?
    ensures ObserveAll(TypeScript, NewAccumulator(p), es) == ObserveAll(Python, NewAccumulator(p), es) <==>
            KeptFields(p, es, (u, name) => SameCount(u, name))
  {
    match p
    case AnthropicProvider =>
      AnthropicTerminal(TypeScript, es);
      AnthropicTerminal(Python, es);
      AnthropicFromIff(LastWhere(es, e => IsStart(e)), LastWhere(es, e => SetsOutput(e)), CountBy(es, e => IsThinking(e)));
    case OpenAiProvider(includeUsage) =>
      OpenAiTerminal(TypeScript, includeUsage, es);
      OpenAiTerminal(Python, includeUsage, es);
      LastWhereIsLast(es, e => HasUsage(e));
      OpenAiFromIff(LastWhere(es, e => HasUsage(e)), includeUsage);
  }

  lemma AnthropicFromIff(start: Option<Json>, out: Option<Json>, thinking: nat)
    ensures AnthropicFrom(TypeScript, start, out, thinking) == AnthropicFrom(Python, start, out, thinking) <==>
            AnthropicFields(start, out, (u, name) => SameCount(u, name))
  {
    StartFieldsAgree(if start.None? then JObj(map[]) else StartUsage(start.value));
    EmptyStartAgrees();
  }

  /** The four counts read off a start agree exactly when its fields do. */
  lemma StartFieldsAgree(usage: Json)
    ensures
      var creation := AsRecord(Field(usage, "cache_creation"));
      StartFields(usage, (u, name) => SameCount(u, name)) <==>
      && SameCount(usage, "input_tokens") && SameCount(usage, "cache_read_input_tokens")
      && SameCount(creation, "ephemeral_5m_input_tokens") && SameCount(creation, "ephemeral_1h_input_tokens")
  {
  }

  /** Without a start all four are zero in both languages. */
  lemma EmptyStartAgrees()
    ensures StartFields(JObj(map[]), (u, name) => SameCount(u, name))
  {
    EmptyRecord("input_tokens");
    EmptyRecord("cache_read_input_tokens");
    EmptyRecord("ephemeral_5m_input_tokens");
    EmptyRecord("ephemeral_1h_input_tokens");
    EmptyRecord("cache_creation");
  }

  lemma EmptyRecord(name: string)
    ensures Field(JObj(map[]), name) == None
  {
  }

  lemma OpenAiFromIff(last: Option<Json>, includeUsage: bool)
    requires last.Some? ==> HasUsage(last.value)
    ensures OpenAiFrom(TypeScript, last, includeUsage) == OpenAiFrom(Python, last, includeUsage) <==>
            OpenAiFields(last, (u, name) => SameCount(u, name))
  {
  }

  predicate NotFloat(u: Json, name: string) {
    Field(u, name).Some? ==> !Field(u, name).value.JFloat?
  }

  lemma IntegerFieldsAgree(u: Json, name: string)
    requires NotFloat(u, name)
    ensures SameCount(u, name)
  {
    CoercionsAgreeIff(Field(u, name));
  }

  /** On integer usage fields the two languages give equal tokens, whatever else the events carry. */
  lemma IntegerUsageAgrees(p: Provider, es: seq<Json>)
    requires !p.GeminiProvider? && KeptFields(p, es, (u, name) => NotFloat(u, name))
    ensures Finalize(ObserveAll(TypeScript, NewAccumulator(p), es)) == Finalize(ObserveAll(Python, NewAccumulator(p), es))
  {
    forall u, name ensures NotFloat(u, name) ==> SameCount(u, name) {
      if NotFloat(u, name) {
        IntegerFieldsAgree(u, name);
      }
    }
    KeptFieldsWeaken(p, es, (u, name) => NotFloat(u, name), (u, name) => SameCount(u, name));
    LanguagesAgreeIff(p, es);
  }

  lemma KeptFieldsWeaken(p: Provider, es: seq<Json>, ok: (Json, string) -> bool, better: (Json, string) -> bool)
    requires !p.GeminiProvider? && KeptFields(p, es, ok) && forall u, name :: ok(u, name) ==> better(u, name)
    ensures KeptFields(p, es, better)
  {
    match p
    case AnthropicProvider => AnthropicWeaken(LastWhere(es, e => IsStart(e)), LastWhere(es, e => SetsOutput(e)), ok, better);
    case OpenAiProvider(_) => OpenAiWeaken(LastWhere(es, e => HasUsage(e)), ok, better);
  }

  lemma AnthropicWeaken(start: Option<Json>, out: Option<Json>, ok: (Json, string) -> bool, better: (Json, string) -> bool)
    requires AnthropicFields(start, out, ok) && forall u, name :: ok(u, name) ==> better(u, name)
    ensures AnthropicFields(start, out, better)
  {
    if start.Some? {
      StartWeaken(StartUsage(start.value), ok, better);
    }
  }

  lemma StartWeaken(usage: Json, ok: (Json, string) -> bool, better: (Json, string) -> bool)
    requires StartFields(usage, ok) && forall u, name :: ok(u, name) ==> better(u, name)
    ensures StartFields(usage, better)
  {
  }

  lemma OpenAiWeaken(last: Option<Json>, ok: (Json, string) -> bool, better: (Json, string) -> bool)
    requires OpenAiFields(last, ok) && forall u, name :: ok(u, name) ==> better(u, name)
    ensures OpenAiFields(last, better)
  {
  }

  /** Their partial flags differ exactly on a clean OpenAI stream that did not ask for usage. */
  lemma PartialFlagsAgreeIff(a: Accumulator)
    ensures PartialRecovered(TypeScript, a) == PartialRecovered(Python, a) <==>
            !(a.OpenAi? && !a.includeUsage && a.sawUsage && !a.cancelled)
  {
  }

  // ----- the non-streaming Gemini reader -----

  /** The gateway's integer coercion: truncation without a floor at zero. */
  function AsSignedInt(v: Option<Json>): (n: int) {
    if v.None? then 0
    else match v.value
      case JInt(n) => n
      case JFloat(x) => Truncate(x)
      case _ => 0
  }

  /** Towards zero, with the sign of the field. */
  lemma SignedCountMeans(v: Option<Json>)
    ensures v.Some? && v.value.JInt? ==> AsSignedInt(v) == v.value.n
    ensures v.Some? && v.value.JFloat? && v.value.x >= 0.0 ==>
              AsSignedInt(v) as real <= v.value.x < (AsSignedInt(v) + 1) as real
    ensures v.Some? && v.value.JFloat? && v.value.x <= 0.0 ==>
              (AsSignedInt(v) - 1) as real < v.value.x <= AsSignedInt(v) as real
    ensures v.None? || !(v.value.JInt? || v.value.JFloat?) ==> AsSignedInt(v) == 0
  {
  }

  /** The gateway's reading of a complete Gemini body: thoughts are not added to the output. */
  function NonStreamingGemini(meta: Json): (v: TokenVector) {
    var prompt, cached := AsSignedInt(Field(meta, "promptTokenCount")), AsSignedInt(Field(meta, "cachedContentTokenCount"));
    TokenVector(if prompt > cached then prompt - cached else 0, cached, 0, 0,
                AsSignedInt(Field(meta, "candidatesTokenCount")), AsSignedInt(Field(meta, "thoughtsTokenCount")))
  }

  /** The two Gemini readers agree exactly when there is no thinking and the counts are in range. */
  lemma GeminiReadersAgreeIff(meta: Json)
    requires meta.JObj?
    ensures NonStreamingGemini(meta) ==
            Finalize(Observe(TypeScript, NewAccumulator(GeminiProvider), JObj(map["usageMetadata" := meta]))) <==>
            var prompt := AsSignedInt(Field(meta, "promptTokenCount"));
            && 0 <= AsSignedInt(Field(meta, "cachedContentTokenCount")) <= (if prompt > 0 then prompt else 0)
            && AsSignedInt(Field(meta, "candidatesTokenCount")) >= 0
            && AsSignedInt(Field(meta, "thoughtsTokenCount")) == 0
  {
    var e := JObj(map["usageMetadata" := meta]);
    assert Field(e, "usageMetadata") == Some(meta);
    ClampedInt(Field(meta, "promptTokenCount"));
    ClampedInt(Field(meta, "cachedContentTokenCount"));
    ClampedInt(Field(meta, "candidatesTokenCount"));
    ClampedInt(Field(meta, "thoughtsTokenCount"));
  }

  lemma ClampedInt(v: Option<Json>)
    ensures AsInt(TypeScript, v) == if AsSignedInt(v) > 0 then AsSignedInt(v) else 0
  {
  }
}
