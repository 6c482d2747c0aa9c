/** What a whole stream's tokens are: named fields of its last usage blocks. */
module TokenMeaning {
  import opened Confidence
  import opened Folds
  import opened Accumulators
  import opened StreamCapture

  /** The tokens of a stream of events. */
  function TokensOf(lang: Language, p: Provider, es: seq<Json>): (v: TokenVector) {
    Finalize(ObserveAll(lang, NewAccumulator(p), es))
  }

  // ----- reading by path -----

  /** The value behind a path of field names; nothing lies behind a missing field or a non-record. */
  function At(v: Json, path: seq<string>): (r: Option<Json>) {
    if path == [] then Some(v)
    else if v.JObj? && path[0] in v.fields then At(v.fields[path[0]], path[1..])
    else None
  }

  predicate RecordAt(e: Json, path: seq<string>) {
    At(e, path).Some? && At(e, path).value.JObj?
  }

  predicate TextAt(e: Json, path: seq<string>, text: string) {
    At(e, path) == Some(JStr(text))
  }

  /** The count behind a path. */
  function Count(lang: Language, e: Json, path: seq<string>): (n: nat) {
    AsInt(lang, At(e, path))
  }

  /** The coercion: integers above zero, in TypeScript also floats rounded down, and zero otherwise. */
  lemma CoercionMeans(lang: Language, v: Option<Json>)
    ensures v.Some? && v.value.JInt? ==> AsInt(lang, v) == if v.value.n > 0 then v.value.n else 0
    ensures v.Some? && v.value.JFloat? && lang == TypeScript && v.value.x >= 0.0 ==>
              AsInt(lang, v) as real <= v.value.x < (AsInt(lang, v) + 1) as real
    ensures v.Some? && v.value.JFloat? && (lang == Python || v.value.x < 0.0) ==> AsInt(lang, v) == 0
    ensures v.None? || !(v.value.JInt? || v.value.JFloat?) ==> AsInt(lang, v) == 0
  {
  }

  lemma At1(v: Json, a: string)
    ensures At(v, [a]) == Field(v, a)
  {
  }

  lemma At2(v: Json, a: string, b: string)
    ensures At(v, [a, b]) == Field(AsRecord(Field(v, a)), b)
  {
    assert [a, b][1..] == [b];
    if Field(v, a).Some? {
      At1(Field(v, a).value, b);
    }
  }

  lemma At3(v: Json, a: string, b: string, c: string)
    ensures At(v, [a, b, c]) == Field(AsRecord(Field(AsRecord(Field(v, a)), b)), c)
  {
    assert [a, b, c][1..] == [b, c];
    if Field(v, a).Some? {
      At2(Field(v, a).value, b, c);
    }
  }

  lemma At4(v: Json, a: string, b: string, c: string, d: string)
    ensures At(v, [a, b, c, d]) == Field(AsRecord(Field(AsRecord(Field(AsRecord(Field(v, a)), b)), c)), d)
  {
    assert [a, b, c, d][1..] == [b, c, d];
    if Field(v, a).Some? {
      At3(Field(v, a).value, b, c, d);
    }
  }

  lemma {:induction false} LastAtIsLastWhere(es: seq<Json>, p: Json -> bool, i: nat)
    requires LastAt(es, p, i)
    ensures LastWhere(es, p) == Some(es[i])
  {
    var n := |es| - 1;
    if i < n {
      assert !p(es[n]);
      assert LastAt(es[..n], p, i);
      LastAtIsLastWhere(es[..n], p, i);
    }
  }

  // ----- OpenAI -----

  predicate OpenAiUsage(e: Json) {
    RecordAt(e, ["usage"])
  }

  lemma OpenAiUsageIsHasUsage(es: seq<Json>)
    ensures LastWhere(es, e => OpenAiUsage(e)) == LastWhere(es, e => HasUsage(e))
  {
    forall e ensures OpenAiUsage(e) == HasUsage(e) {
      At1(e, "usage");
    }
    SameLast(es, e => OpenAiUsage(e), e => HasUsage(e));
  }

  /** The tokens are those of the last usage record; the cached prompt tokens are part of the prompt. */
  lemma OpenAiTokens(lang: Language, includeUsage: bool, es: seq<Json>, last: nat)
    requires LastAt(es, e => OpenAiUsage(e), last)
    ensures
      var v, e := TokensOf(lang, OpenAiProvider(includeUsage), es), es[last];
      var prompt, cached := Count(lang, e, ["usage", "prompt_tokens"]), Count(lang, e, ["usage", "prompt_tokens_details", "cached_tokens"]);
      && v.inputUncached + v.cacheRead == prompt
      && v.cacheRead == (if cached <= prompt then cached else prompt)
      && v.output == Count(lang, e, ["usage", "completion_tokens"])
      && v.cacheWrite5m == 0 && v.cacheWrite1h == 0 && v.reasoning == 0
  {
    var e := es[last];
    OpenAiUsageIsHasUsage(es);
    LastAtIsLastWhere(es, e => OpenAiUsage(e), last);
    OpenAiTerminal(lang, includeUsage, es);
    At1(e, "usage");
    At2(e, "usage", "prompt_tokens");
    At2(e, "usage", "completion_tokens");
    At3(e, "usage", "prompt_tokens_details", "cached_tokens");
  }

  // ----- Gemini -----

  predicate GeminiUsage(e: Json) {
    RecordAt(e, ["usageMetadata"])
  }

  lemma GeminiUsageIsHasUsage(es: seq<Json>)
    ensures LastWhere(es, e => GeminiUsage(e)) == LastWhere(es, e => HasUsageMetadata(e))
  {
    forall e ensures GeminiUsage(e) == HasUsageMetadata(e) {
      At1(e, "usageMetadata");
    }
    SameLast(es, e => GeminiUsage(e), e => HasUsageMetadata(e));
  }

  /** The tokens are those of the last usage metadata; thinking is output beside the candidates. */
  lemma GeminiTokens(lang: Language, es: seq<Json>, last: nat)
    requires LastAt(es, e => GeminiUsage(e), last)
    ensures
      var v, e := TokensOf(lang, GeminiProvider, es), es[last];
      var prompt, cached := Count(lang, e, ["usageMetadata", "promptTokenCount"]), Count(lang, e, ["usageMetadata", "cachedContentTokenCount"]);
      && v.inputUncached + v.cacheRead == prompt
      && v.cacheRead == (if cached <= prompt then cached else prompt)
      && v.reasoning == Count(lang, e, ["usageMetadata", "thoughtsTokenCount"])
      && v.output - v.reasoning == Count(lang, e, ["usageMetadata", "candidatesTokenCount"])
      && v.cacheWrite5m == 0 && v.cacheWrite1h == 0
  {
    var e := es[last];
    GeminiUsageIsHasUsage(es);
    LastAtIsLastWhere(es, e => GeminiUsage(e), last);
    GeminiTerminal(lang, es);
    At1(e, "usageMetadata");
    At2(e, "usageMetadata", "promptTokenCount");
    At2(e, "usageMetadata", "cachedContentTokenCount");
    At2(e, "usageMetadata", "candidatesTokenCount");
    At2(e, "usageMetadata", "thoughtsTokenCount");
  }

  // ----- Anthropic -----

  predicate AnthropicStart(e: Json) {
    TextAt(e, ["type"], "message_start")
  }

  /** A delta that carries an output count, of any kind. */
  predicate AnthropicDelta(e: Json) {
    TextAt(e, ["type"], "message_delta") && At(e, ["usage", "output_tokens"]).Some?
  }

  predicate AnthropicOutput(e: Json) {
    AnthropicStart(e) || AnthropicDelta(e)
  }

  predicate AnthropicThinking(e: Json) {
    TextAt(e, ["type"], "content_block_start") && TextAt(e, ["content_block", "type"], "thinking")
  }

  lemma AnthropicEvents(e: Json)
    ensures AnthropicStart(e) == IsStart(e)
    ensures AnthropicOutput(e) == SetsOutput(e)
    ensures AnthropicThinking(e) == IsThinking(e)
  {
    At1(e, "type");
    At2(e, "usage", "output_tokens");
    At2(e, "content_block", "type");
  }

  lemma AnthropicLasts(es: seq<Json>)
    ensures LastWhere(es, e => AnthropicStart(e)) == LastWhere(es, e => IsStart(e))
    ensures LastWhere(es, e => AnthropicOutput(e)) == LastWhere(es, e => SetsOutput(e))
    ensures CountBy(es, e => AnthropicThinking(e)) == CountBy(es, e => IsThinking(e))
  {
    forall e: Json
      ensures AnthropicStart(e) == IsStart(e) && AnthropicOutput(e) == SetsOutput(e) && AnthropicThinking(e) == IsThinking(e)
    {
      AnthropicEvents(e);
    }
    SameLast(es, e => AnthropicStart(e), e => IsStart(e));
    SameLast(es, e => AnthropicOutput(e), e => SetsOutput(e));
    CountByCongruent(es, e => AnthropicThinking(e), e => IsThinking(e));
  }

  /** Input and cache tokens are those of the last start. */
  lemma AnthropicInput(lang: Language, es: seq<Json>, start: nat)
    requires LastAt(es, e => AnthropicStart(e), start)
    ensures
      var v, e := TokensOf(lang, AnthropicProvider, es), es[start];
      && v.inputUncached == Count(lang, e, ["message", "usage", "input_tokens"])
      && v.cacheRead == Count(lang, e, ["message", "usage", "cache_read_input_tokens"])
      && v.cacheWrite5m == Count(lang, e, ["message", "usage", "cache_creation", "ephemeral_5m_input_tokens"])
      && v.cacheWrite1h == Count(lang, e, ["message", "usage", "cache_creation", "ephemeral_1h_input_tokens"])
  {
    var e := es[start];
    AnthropicLasts(es);
    LastAtIsLastWhere(es, e => AnthropicStart(e), start);
    AnthropicTerminal(lang, es);
    At3(e, "message", "usage", "input_tokens");
    At3(e, "message", "usage", "cache_read_input_tokens");
    At4(e, "message", "usage", "cache_creation", "ephemeral_5m_input_tokens");
    At4(e, "message", "usage", "cache_creation", "ephemeral_1h_input_tokens");
  }

  /** Reasoning counts the thinking blocks; output is the last reported count, raised to cover them. */
  lemma AnthropicOutputTokens(lang: Language, es: seq<Json>, out: nat)
    requires LastAt(es, e => AnthropicOutput(e), out)
    ensures
      var v, e := TokensOf(lang, AnthropicProvider, es), es[out];
      var thinking := CountBy(es, e => AnthropicThinking(e));
      var reported := if AnthropicStart(e) then Count(lang, e, ["message", "usage", "output_tokens"])
                      else Count(lang, e, ["usage", "output_tokens"]);
      v.reasoning == thinking && v.output == if reported >= thinking then reported else thinking
  {
    var e := es[out];
    AnthropicLasts(es);
    AnthropicEvents(e);
    LastAtIsLastWhere(es, e => AnthropicOutput(e), out);
    AnthropicTerminal(lang, es);
    At3(e, "message", "usage", "output_tokens");
    At2(e, "usage", "output_tokens");
  }

  // ----- streams without usage, and the flag -----

  /** An event of the kind whose absence makes a stream partial. */
  predicate Opens(p: Provider, e: Json) {
    match p
    case AnthropicProvider => AnthropicStart(e)
    case OpenAiProvider(_) => OpenAiUsage(e)
    case GeminiProvider => GeminiUsage(e)
  }

  /** No usage, no tokens, but for an Anthropic stream's thinking blocks and output deltas. */
  lemma NoUsageNoTokens(lang: Language, p: Provider, es: seq<Json>)
    requires forall e <- es :: !Opens(p, e)
    ensures
      var v := TokensOf(lang, p, es);
      && v.inputUncached == 0 && v.cacheRead == 0 && v.cacheWrite5m == 0 && v.cacheWrite1h == 0
      && (!p.AnthropicProvider? ==> v.output == 0 && v.reasoning == 0)
      && (p.AnthropicProvider? && (forall e <- es :: !AnthropicDelta(e)) ==>
            v.output == v.reasoning == CountBy(es, e => AnthropicThinking(e)))
  {
    match p
    case AnthropicProvider =>
      NothingLast(es, e => AnthropicStart(e));
      AnthropicLasts(es);
      AnthropicTerminal(lang, es);
      EmptyStart();
      if forall e <- es :: !AnthropicDelta(e) {
        NothingLast(es, e => AnthropicOutput(e));
      }
    case OpenAiProvider(includeUsage) =>
      NothingLast(es, e => OpenAiUsage(e));
      OpenAiUsageIsHasUsage(es);
      OpenAiTerminal(lang, includeUsage, es);
    case GeminiProvider =>
      NothingLast(es, e => GeminiUsage(e));
      GeminiUsageIsHasUsage(es);
      GeminiTerminal(lang, es);
  }

  lemma {:induction false} NothingLast(es: seq<Json>, p: Json -> bool)
    requires forall e <- es :: !p(e)
    ensures LastWhere(es, p) == None
  {
    if es != [] {
      assert es[|es| - 1] in es;
      NothingLast(es[..|es| - 1], p);
    }
  }

  lemma EmptyStart()
    ensures forall name :: Field(JObj(map[]), name) == None
  {
  }

  /** A stream read to its end is flagged exactly when its usage never came, or was not asked for in TypeScript. */
  lemma FlagMeans(lang: Language, p: Provider, es: seq<Json>)
    ensures PartialRecovered(lang, ObserveAll(lang, NewAccumulator(p), es)) <==>
            (forall e <- es :: !Opens(p, e)) || (lang == TypeScript && p.OpenAiProvider? && !p.includeUsage)
  {
    match p
    case AnthropicProvider =>
      AnthropicLasts(es);
      AnthropicTerminal(lang, es);
      SomeLast(es, e => AnthropicStart(e));
    case OpenAiProvider(includeUsage) =>
      OpenAiUsageIsHasUsage(es);
      OpenAiTerminal(lang, includeUsage, es);
      SomeLast(es, e => OpenAiUsage(e));
      LastWhereIsLast(es, e => HasUsage(e));
    case GeminiProvider =>
      GeminiUsageIsHasUsage(es);
      GeminiTerminal(lang, es);
      SomeLast(es, e => GeminiUsage(e));
      LastWhereIsLast(es, e => HasUsageMetadata(e));
  }

  lemma SomeLast(es: seq<Json>, p: Json -> bool)
    ensures LastWhere(es, p).None? <==> forall e <- es :: !p(e)
  {
    LastWhereIsLast(es, p);
  }

  /** What a clean read reports of the text its chunks spell: the tokens and the flag of its frames. */
  lemma ReadReports(p: Provider, parse: Parser, chunks: seq<string>, r: Option<Observation>)
    requires Returns(p, parse, chunks, Done, r)
    ensures
      var fs := FramesOf(parse, Flatten(chunks));
      && r.Some? && r.value.tokens == TokensOf(TypeScript, p, fs)
      && (r.value.partialRecovered <==>
          (forall e <- fs :: !Opens(p, e)) || (p.OpenAiProvider? && !p.includeUsage))
  {
    FlagMeans(TypeScript, p, FramesOf(parse, Flatten(chunks)));
  }
}
