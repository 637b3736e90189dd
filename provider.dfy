/**
 * The generation pipeline of server.js: which content provider the process
 * uses (`LLM_PROVIDER`, fixed at start-up from the environment), how every
 * failure of a remote provider is absorbed into the sample response, and
 * `generateContent`, which normalises whatever the provider produced.
 *
 * The network exchange itself is not modelled: a remote call is summed up by
 * its `Outcome`, either the value parsed from the provider's content or the
 * reason the call failed.
 */
module Provider {
  import opened Options
  import opened JsString
  import opened JsValue
  import opened Normalizer
  import opened SampleContent

  datatype ProviderName = Ollama | OpenAI | Fallback

  /** Why a remote call did not produce a parsed value. */
  datatype FailureReason =
    | NonOkStatus   // `!response.ok`
    | NoContent     // the message content (or Ollama's `response`) is missing or falsy
    | Unparsable    // `JSON.parse` of the content throws
    | FetchThrew    // `fetch` or `response.json()` throws

  /** What a remote call came back with. */
  datatype Outcome = Parsed(value: Json) | Failed(reason: FailureReason)

  /**
   * `LLM_PROVIDER`. Each argument is the environment variable's text, the
   * empty string standing for an unset variable (both are falsy). The
   * override is lower-cased before it is compared; without a recognised
   * override an Ollama model wins over an OpenAI key.
   */
  function ResolveProvider(llmProvider: string, openAiKey: string, ollamaModel: string): (r: ProviderName)
    ensures r == OpenAI ==> openAiKey != ""
    ensures LowerCase(llmProvider) == "ollama" ==> r == Ollama
    ensures LowerCase(llmProvider) == "fallback" ==> r == Fallback
    ensures LowerCase(llmProvider) == "openai" ==> r == (if openAiKey != "" then OpenAI else Fallback)
    ensures LowerCase(llmProvider) !in {"ollama", "openai", "fallback"} ==>
              r == (if ollamaModel != "" then Ollama else if openAiKey != "" then OpenAI else Fallback)
  {
    var raw := LowerCase(llmProvider);
    if raw == "ollama" then Ollama
    else if raw == "openai" then (if openAiKey != "" then OpenAI else Fallback)
    else if raw == "fallback" then Fallback
    else if ollamaModel != "" then Ollama
    else if openAiKey != "" then OpenAI
    else Fallback
  }

  /** The override is case-insensitive: only its lower-case form matters. */
  lemma ResolveProviderIgnoresCase(a: string, b: string, openAiKey: string, ollamaModel: string)
    requires LowerCase(a) == LowerCase(b)
    ensures ResolveProvider(a, openAiKey, ollamaModel) == ResolveProvider(b, openAiKey, ollamaModel)
  {
  }

  /**
   * An override spelled with the Kelvin sign for its 'k' lowers to the
   * provider name, so it selects that provider like the ASCII spelling.
   */
  lemma KelvinSignOverride(openAiKey: string, ollamaModel: string)
    ensures ResolveProvider("FALLBAC\U{212A}", openAiKey, ollamaModel) == Fallback
  {
  }

  /** With every variable unset the process uses the sample content. */
  lemma NothingConfiguredIsFallback()
    ensures ResolveProvider("", "", "") == Fallback
  {
  }

  /**
   * `generateWithOpenAI` / `generateWithOllama`: the parsed content when the
   * call succeeded, and the sample response for the keyword on every failure
   * (the `catch` turns each of them into `buildFallbackResponse(keyword)`).
   */
  function GenerateWithRemote(keyword: string, outcome: Outcome): (data: Json)
    ensures outcome.Failed? ==> data == BuildFallbackResponse(keyword)
    ensures outcome.Parsed? ==> data == outcome.value
  {
    match outcome
    case Parsed(v) => v
    case Failed(_) => BuildFallbackResponse(keyword)
  }

  /**
   * `generateContent(keyword)`: the provider's candidate (the sample response
   * when the provider is `Fallback`; `outcome` is then not consulted), passed
   * through `normalizeResponse`. `None` is the TypeError `normalizeResponse`
   * throws on a null sentence or a null breakdown piece.
   */
  function GenerateContent(provider: ProviderName, keyword: string, outcome: Outcome): (r: Option<Json>)
    ensures r.Some? ==> IsNormalized(r.value)
    ensures r.None? ==> provider != Fallback && outcome.Parsed? && Normalize(outcome.value).None?
  {
    var data := if provider == Fallback then BuildFallbackResponse(keyword) else GenerateWithRemote(keyword, outcome);
    FallbackResponseNormalized(keyword);
    NormalizedIsFixedPoint(BuildFallbackResponse(keyword));
    var r := Normalize(data);
    if r.Some? then NormalizeGivesNormalized(data); r else r
  }

  /**
   * Whatever fails on the remote side, and whenever no remote provider is
   * configured, `generateContent` returns the sample response unchanged: it
   * never throws and never yields the error marker on those paths.
   */
  lemma FailureGivesSampleResponse(provider: ProviderName, keyword: string, outcome: Outcome)
    requires provider == Fallback || outcome.Failed?
    ensures GenerateContent(provider, keyword, outcome) == Some(BuildFallbackResponse(keyword))
  {
    FallbackResponseNormalized(keyword);
    NormalizedIsFixedPoint(BuildFallbackResponse(keyword));
  }

  /** A parsed remote value is normalised, never replaced by the sample response. */
  lemma ParsedContentIsNormalized(provider: ProviderName, keyword: string, v: Json)
    requires provider != Fallback
    ensures GenerateContent(provider, keyword, Parsed(v)) == Normalize(v)
  {
  }
}
