/**
 * The content helpers that the serverless handlers share (api/_shared.js):
 * the one-sentence template `getFallbackData`, the OpenAI wrapper that falls
 * back to it, and the serverless provider setting.
 */
module SharedApi {
  import opened Options
  import opened JsString
  import opened JsValue
  import opened Provider

  /** The three texts that follow the keyword in the template sentence. */
  const JapaneseTail: string := "は大切です。"
  const PronunciationTail: string := "はたいせつです。"
  const TranslationTail: string := "는 중요합니다."

  /** The two fixed breakdown entries that follow the keyword's own entry. */
  const ParticlePiece: Json := JObj(map[
    "fragment" := JStr("は"),
    "kanji" := JStr("は"),
    "hiragana" := JStr("は"),
    "katakana" := JStr("ハ"),
    "romaji" := JStr("wa"),
    "meaning" := JStr("는/은"),
    "partOfSpeech" := JStr("조사"),
    "usageNote" := JStr("주제를 나타내는 조사입니다.")
  ])

  const PredicatePiece: Json := JObj(map[
    "fragment" := JStr("大切です"),
    "kanji" := JStr("大切です"),
    "hiragana" := JStr("たいせつです"),
    "katakana" := JStr("タイセツデス"),
    "romaji" := JStr("taisetsu desu"),
    "meaning" := JStr("중요합니다"),
    "partOfSpeech" := JStr("형용동사 + です"),
    "usageNote" := JStr("정중한 표현입니다.")
  ])

  /** The breakdown entry for the keyword itself: every script and the meaning are the keyword. */
  function KeywordPiece(keyword: string): Json {
    JObj(map[
      "fragment" := JStr(keyword),
      "kanji" := JStr(keyword),
      "hiragana" := JStr(keyword),
      "katakana" := JStr(keyword),
      "romaji" := JStr(keyword),
      "meaning" := JStr(keyword),
      "partOfSpeech" := JStr("명사"),
      "usageNote" := JStr("입력한 키워드입니다.")
    ])
  }

  /**
   * `getFallbackData(keyword, level)`: the sentence "<keyword>は大切です。" with
   * a three-entry breakdown. The level is accepted and not used.
   */
  function GetFallbackData(keyword: string, level: string): (r: Json)
    ensures Member(r, "japanese") == Some(JStr(keyword + JapaneseTail))
    ensures Member(r, "pronunciation") == Some(JStr(keyword + PronunciationTail))
    ensures Member(r, "translation") == Some(JStr(keyword + TranslationTail))
    ensures Member(r, "breakdown") == Some(JArr([KeywordPiece(keyword), ParticlePiece, PredicatePiece]))
    ensures Member(r, "level").None? && Member(r, "id").None?
  {
    JObj(map[
      "japanese" := JStr(keyword + JapaneseTail),
      "pronunciation" := JStr(keyword + PronunciationTail),
      "translation" := JStr(keyword + TranslationTail),
      "breakdown" := JArr([KeywordPiece(keyword), ParticlePiece, PredicatePiece])
    ])
  }

  /** The template does not depend on the level: all three levels get the same sentence. */
  lemma FallbackDataIgnoresLevel(keyword: string, a: string, b: string)
    ensures GetFallbackData(keyword, a) == GetFallbackData(keyword, b)
  {
  }

  /** The fragments of the template are the keyword, 'は' and '大切です', in that order. */
  lemma FallbackDataFragments(keyword: string, level: string)
    ensures var b := Member(GetFallbackData(keyword, level), "breakdown").value.items;
            && |b| == 3
            && Member(b[0], "fragment") == Some(JStr(keyword))
            && Member(b[1], "fragment") == Some(JStr("は"))
            && Member(b[2], "fragment") == Some(JStr("大切です"))
  {
  }

  /** The first fragment has content exactly when the keyword does. */
  lemma FirstFragmentTruthyIff(keyword: string, level: string)
    ensures var b := Member(GetFallbackData(keyword, level), "breakdown").value.items;
            Present(Member(b[0], "fragment")) <==> keyword != ""
  {
  }

  /**
   * `generateSentenceWithOpenAI(keyword, level)`: the parsed content as it
   * is, with no check of its shape, or the template sentence when the call
   * failed in any way (a non-ok status, a thrown error, missing content or
   * content that does not parse are all caught).
   */
  function GenerateSentenceWithOpenAI(keyword: string, level: string, outcome: Outcome): (r: Json)
    ensures outcome.Parsed? ==> r == outcome.value
    ensures outcome.Failed? ==> r == GetFallbackData(keyword, level)
  {
    match outcome
    case Parsed(v) => v
    case Failed(_) => GetFallbackData(keyword, level)
  }

  /**
   * The serverless provider choice: OpenAI is called only when
   * `(process.env.LLM_PROVIDER || 'openai') === 'openai'`, compared exactly
   * (no lower-casing), and an API key is set.
   */
  predicate UsesOpenAI(llmProvider: string, openAiKey: string) {
    var setting := if llmProvider == "" then "openai" else llmProvider;
    setting == "openai" && openAiKey != ""
  }

  /**
   * The two deployments read the same settings differently: with the
   * override written 'OpenAI' and a key set, server.js calls OpenAI while the
   * serverless handlers use the template.
   */
  lemma ProviderSettingsDiverge(openAiKey: string)
    requires openAiKey != ""
    ensures ResolveProvider("OpenAI", openAiKey, "") == OpenAI
    ensures !UsesOpenAI("OpenAI", openAiKey)
  {
    assert LowerCase("OpenAI") == "openai";
  }
}
