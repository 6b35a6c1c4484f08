/** Answer assembly (backend/app/services/llm_service.py): choosing the chat model from the
    settings, formatting retrieved chunks into a context, the mock answer, the conversion of
    search hits into sources and the error fallback. The chat models themselves are an
    opaque generator. */
module LlmService {
  import opened Common
  import opened ChatSchemas
  import opened VectorStore

  // ---------------------------------------------------------------------------
  // Provider choice

  datatype Provider = Anthropic | OpenAI | Mock

  /** The string stored in `_provider`. */
  function ProviderValue(p: Provider): string
  {
    match p
    case Anthropic => "anthropic"
    case OpenAI => "openai"
    case Mock => "mock"
  }

  /** The settings `_ensure_initialized` and `health_check` read. */
  datatype LlmSettings = LlmSettings(
    llmProvider: string,
    anthropicApiKey: string,
    anthropicModel: string,
    openAiApiKey: string,
    openAiModel: string,
    openAiEmbeddingModel: string)

  /** The configured defaults, with the two keys as found in the environment. */
  function DefaultSettings(anthropicApiKey: string, openAiApiKey: string): LlmSettings
  {
    LlmSettings("anthropic", anthropicApiKey, "claude-haiku-4-5-20251001",
                openAiApiKey, "gpt-3.5-turbo", "text-embedding-3-small")
  }

  /** The decision table of `_ensure_initialized`: the preferred provider when its key is
      set, otherwise whichever key is set (Anthropic first), otherwise the mock. */
  function ChooseProvider(preference: string, anthropicKey: string, openAiKey: string): (p: Provider)
    ensures p == Mock <==> anthropicKey == "" && openAiKey == ""
    ensures p == Anthropic ==> anthropicKey != ""
    ensures p == OpenAI ==> openAiKey != ""
    ensures Lower(preference) == "anthropic" && anthropicKey != "" ==> p == Anthropic
    ensures Lower(preference) == "openai" && openAiKey != "" ==> p == OpenAI
    ensures anthropicKey != "" && !(Lower(preference) == "openai" && openAiKey != "") ==> p == Anthropic
    ensures anthropicKey == "" && openAiKey != "" ==> p == OpenAI
  {
    var pref := Lower(preference);
    if pref == "anthropic" && anthropicKey != "" then Anthropic
    else if pref == "openai" && openAiKey != "" then OpenAI
    else if anthropicKey != "" then Anthropic
    else if openAiKey != "" then OpenAI
    else Mock
  }

  /** A chat model as constructed: provider, model and `max_tokens` (the temperature 0.7 is
      floating point and not modelled). */
  datatype LlmClient = LlmClient(provider: Provider, model: string, maxTokens: nat)

  /** What `_ensure_initialized` stores: `_llm`, `_provider` and `_model_name`. */
  datatype LlmConfig = LlmConfig(client: Option<LlmClient>, provider: Provider, modelName: string)

  const AnthropicMaxTokens: nat := 1024
  const OpenAiMaxTokens: nat := 1000

  function Configure(s: LlmSettings): (r: LlmConfig)
    ensures r.provider == ChooseProvider(s.llmProvider, s.anthropicApiKey, s.openAiApiKey)
    ensures r.client.None? <==> r.provider == Mock
    ensures r.provider == Mock ==> r.modelName == "mock"
    ensures r.client.Some? ==> r.client.value.provider == r.provider && r.client.value.model == r.modelName
    ensures r.provider == Anthropic ==>
              r.modelName == s.anthropicModel && r.client.value.maxTokens == AnthropicMaxTokens
    ensures r.provider == OpenAI ==>
              r.modelName == s.openAiModel && r.client.value.maxTokens == OpenAiMaxTokens
  {
    match ChooseProvider(s.llmProvider, s.anthropicApiKey, s.openAiApiKey)
    case Anthropic => LlmConfig(Some(LlmClient(Anthropic, s.anthropicModel, AnthropicMaxTokens)), Anthropic, s.anthropicModel)
    case OpenAI => LlmConfig(Some(LlmClient(OpenAI, s.openAiModel, OpenAiMaxTokens)), OpenAI, s.openAiModel)
    case Mock => LlmConfig(None, Mock, "mock")
  }

  /** With either key set the service has a real model, and neither the provider nor (given
      model names other than "mock") the model name reads "mock". */
  lemma KeyMeansRealModel(s: LlmSettings)
    requires s.anthropicApiKey != "" || s.openAiApiKey != ""
    requires s.anthropicModel != "mock" && s.openAiModel != "mock"
    ensures var r := Configure(s);
            r.client.Some? && ProviderValue(r.provider) != "mock" && r.modelName != "mock"
  {
  }

  /** Under the default settings an Anthropic key wins whatever the OpenAI key is, and an
      OpenAI key alone selects OpenAI. */
  lemma DefaultPreference(anthropicKey: string, openAiKey: string)
    ensures anthropicKey != "" ==> Configure(DefaultSettings(anthropicKey, openAiKey)).provider == Anthropic
    ensures anthropicKey == "" && openAiKey != "" ==>
              Configure(DefaultSettings(anthropicKey, openAiKey)).provider == OpenAI
  {
    assert Lower("anthropic") == "anthropic";
  }

  // ---------------------------------------------------------------------------
  // Context formatting

  const ContextSeparator: string := "\n\n---\n\n"

  /** `{score:.2%}` for a score held in ten-thousandths: the percentage with two decimals. */
  function Percent(score: int): (r: string)
    ensures |r| >= 5 && r[|r| - 1] == '%' && r[|r| - 4] == '.'
  {
    var a: nat := if score < 0 then -score else score;
    (if score < 0 then "-" else "") + NatToString(a / 100) + "."
      + [DigitChar(a % 100 / 10), DigitChar(a % 10)] + "%"
  }

  /** `metadata.get('document_name', 'Unknown')`. */
  function DocumentNameOf(m: Metadata): string
  {
    match m.documentName
    case Some(n) => n
    case None => "Unknown"
  }

  /** One block of the context: `[Source {i}: {doc_name} (Relevance: {score:.2%})]\n{content}`. */
  function ContextBlock(i: nat, r: SearchResult): (b: string)
    ensures |b| > 0 && b[0] == '['
  {
    "[Source " + NatToString(i) + ": " + DocumentNameOf(r.metadata) + " (Relevance: "
      + Percent(r.relevanceScore) + ")]\n" + r.content
  }

  /** The blocks in result order, numbered from 1. */
  function Blocks(results: seq<SearchResult>): (b: seq<string>)
    ensures |b| == |results|
    ensures forall k :: 0 <= k < |results| ==> b[k] == ContextBlock(k + 1, results[k])
  {
    seq(|results|, k requires 0 <= k < |results| => ContextBlock(k + 1, results[k]))
  }

  /** `_format_context(search_results)`. */
  function ContextOf(results: seq<SearchResult>): string
  {
    if results == [] then "" else Join(ContextSeparator, Blocks(results))
  }

  /** The context is empty exactly when there are no results; otherwise it opens with the
      block of the first result and is not blank. A single result is its block alone. */
  lemma ContextShape(results: seq<SearchResult>)
    ensures ContextOf(results) == "" <==> results == []
    ensures results != [] ==> ContextBlock(1, results[0]) <= ContextOf(results)
    ensures results != [] ==> !IsBlank(ContextOf(results))
    ensures |results| == 1 ==> ContextOf(results) == ContextBlock(1, results[0])
  {
    if results != [] {
      var b := Blocks(results);
      JoinEmpty(ContextSeparator, b);
      var c := ContextOf(results);
      assert c[0] == b[0][0] == '[';
    }
  }

  /** The context's length: every block plus one separator between neighbouring blocks. */
  lemma ContextLength(results: seq<SearchResult>)
    requires results != []
    ensures |ContextOf(results)| == SumLengths(Blocks(results)) + (|results| - 1) * |ContextSeparator|
  {
    JoinLength(ContextSeparator, Blocks(results));
  }

  // ---------------------------------------------------------------------------
  // Prompt and mock answer

  const SystemPromptHead: string :=
    "You are a helpful AI knowledge assistant. Your role is to answer questions based on the provided context from uploaded documents.\n"
    + "\n"
    + "IMPORTANT INSTRUCTIONS:\n"
    + "1. Only use information from the provided context to answer questions.\n"
    + "2. If the context doesn't contain relevant information, say so clearly.\n"
    + "3. Be concise but comprehensive in your answers.\n"
    + "4. When referencing information, mention which document it came from.\n"
    + "5. If you're uncertain about something, acknowledge the uncertainty.\n"
    + "\n"
    + "CONTEXT FROM DOCUMENTS:\n"

  const SystemPromptTail: string :=
    "\n"
    + "\n"
    + "---\n"
    + "\n"
    + "Please answer the user's question based on the above context. If the context doesn't contain relevant information, let the user know and suggest they upload more relevant documents."

  /** `SYSTEM_PROMPT.format(context=context)`. */
  function SystemPrompt(context: string): string
  {
    SystemPromptHead + context + SystemPromptTail
  }

  const NoInformation: string :=
    "I don't have any relevant information in the uploaded documents to answer your question. Please upload documents that contain information related to your query."

  const MockIntro: string :=
    "Based on the uploaded documents, I found relevant information to answer your question.\n"
    + "\n"
    + "**Summary:**\n"
    + "The documents contain information that may be relevant to your query about \""

  const MockMiddle: string :=
    "...\". \n"
    + "\n"
    + "**Key Points from Documents:**\n"

  const MockOutro: string :=
    "...\n"
    + "\n"
    + "**Note:** This is a mock response. Connect an OpenAI API key for intelligent answers based on document content."

  /** The mock template around the quoted question and context. */
  function MockTemplate(q: string, c: string): string
  {
    MockIntro + q + MockMiddle + c + MockOutro
  }

  /** The template quotes the question right after its introduction and the context right
      after the middle part. */
  lemma MockTemplateQuotes(q: string, c: string)
    ensures var r := MockTemplate(q, c);
            var at := |MockIntro| + |q| + |MockMiddle|;
            && MockIntro <= r
            && |r| == at + |c| + |MockOutro|
            && r[|MockIntro|..|MockIntro| + |q|] == q
            && r[at..at + |c|] == c
  {
    TemplateSlots(MockIntro, q, MockMiddle, c, MockOutro);
  }

  /** Where the two holes of a three-part template sit, for any parts. */
  lemma TemplateSlots(intro: string, q: string, middle: string, c: string, outro: string)
    ensures var r := intro + q + middle + c + outro;
            var at := |intro| + |q| + |middle|;
            && intro <= r
            && |r| == at + |c| + |outro|
            && r[|intro|..|intro| + |q|] == q
            && r[at..at + |c|] == c
  {
    var r := intro + q + middle + c + outro;
    var at := |intro| + |q| + |middle|;
    assert r == (intro + q) + (middle + c + outro);
    assert r[at..at + |c|] == c by {
      assert r == (intro + q + middle) + c + outro;
    }
  }

  /** `_get_mock_response(question, context)`: the fixed no-information reply exactly when
      the context is blank; otherwise the template quoting `question[:50]` and
      `context[:500]`. */
  function MockResponse(question: string, context: string): (r: string)
    ensures IsBlank(context) <==> r == NoInformation
    ensures !IsBlank(context) ==> r == MockTemplate(Take(question, 50), Take(context, 500))
  {
    StripShape(context);
    if Strip(context) == "" then NoInformation
    else
      var r := MockTemplate(Take(question, 50), Take(context, 500));
      assert |NoInformation| < |MockIntro| <= |r|;
      r
  }

  /** A question asked against a non-blank context: the answer quotes the first 50
      characters of the question and the first 500 of the context. */
  lemma MockResponseQuotes(question: string, context: string)
    requires !IsBlank(context)
    ensures var r := MockResponse(question, context);
            var q := Take(question, 50);
            var c := Take(context, 500);
            var at := |MockIntro| + |q| + |MockMiddle|;
            && r != NoInformation
            && MockIntro <= r
            && r[|MockIntro|..|MockIntro| + |q|] == q
            && r[at..at + |c|] == c
  {
    var q, c := Take(question, 50), Take(context, 500);
    assert MockResponse(question, context) == MockTemplate(q, c);
    MockTemplateQuotes(q, c);
  }

  // ---------------------------------------------------------------------------
  // Sources and the answer

  const SourceContentLength: nat := 500

  /** One `SourceDocument` per search hit: the content cut to 500 characters, the
      document name defaulting to 'Unknown' and the chunk index to 0. */
  function ToSource(r: SearchResult): (s: SourceDocument)
    ensures |s.content| == (if |r.content| <= SourceContentLength then |r.content| else SourceContentLength)
    ensures s.content <= r.content
    ensures r.metadata.documentName.Some? ==> s.documentName == r.metadata.documentName.value
    ensures r.metadata.documentName.None? ==> s.documentName == "Unknown"
    ensures s.chunkIndex == (if r.metadata.chunkIndex.Some? then r.metadata.chunkIndex.value else 0)
    ensures s.relevanceScore == r.relevanceScore
  {
    SourceDocument(
      Take(r.content, SourceContentLength),
      DocumentNameOf(r.metadata),
      match r.metadata.chunkIndex case Some(i) => i case None => 0,
      r.relevanceScore)
  }

  function Sources(results: seq<SearchResult>): (s: seq<SourceDocument>)
    ensures |s| == |results|
    ensures forall k :: 0 <= k < |results| ==> s[k] == ToSource(results[k])
  {
    seq(|results|, k requires 0 <= k < |results| => ToSource(results[k]))
  }

  /** The chat model's `invoke` on a system prompt and the question; it may raise. */
  type Generator = (LlmClient, string, string) -> Result<string, string>

  /** The answer after an exception. */
  function ErrorAnswer(e: string): string
  {
    "I encountered an error while processing your question: " + e + ". Please try again."
  }

  /** What `answer_question` returns once the search has produced `results`; `elapsed` is
      the measured processing time in milliseconds. */
  function AnswerOutcome(client: Option<LlmClient>, generate: Generator, question: string,
                         results: seq<SearchResult>, elapsed: int): (r: AskResponse)
    ensures r.question == question && r.processingTime == elapsed
    ensures r.sources == [] || r.sources == Sources(results)
  {
    var context := ContextOf(results);
    match client
    case None => AskResponse(MockResponse(question, context), Sources(results), elapsed, question)
    case Some(c) =>
      match generate(c, SystemPrompt(context), question)
      case Success(a) => AskResponse(a, Sources(results), elapsed, question)
      case Failure(e) => AskResponse(ErrorAnswer(e), [], elapsed, question)
  }

  /** The three outcomes of an answer: in mock mode the templated reply with every source;
      with a chat model, its reply with every source, or the error answer and no sources
      when it raises. */
  lemma AnswerOutcomeCases(client: Option<LlmClient>, generate: Generator, question: string,
                           results: seq<SearchResult>, elapsed: int)
    ensures var r := AnswerOutcome(client, generate, question, results, elapsed);
            var prompt := SystemPrompt(ContextOf(results));
            && (client.None? ==> r.answer == MockResponse(question, ContextOf(results)) && r.sources == Sources(results))
            && (client.Some? && generate(client.value, prompt, question).Failure? ==>
                  r.answer == ErrorAnswer(generate(client.value, prompt, question).error) && r.sources == [])
            && (client.Some? && generate(client.value, prompt, question).Success? ==>
                  r.answer == generate(client.value, prompt, question).value && r.sources == Sources(results))
  {
  }

  /** In mock mode a user with no indexed chunks gets the fixed no-information reply and no
      sources, whatever the search is asked for. */
  lemma MockAnswerWithoutDocuments(c: Collection, queryVector: Result<Vector, string>, ranking: Ranking,
                                   userId: int, nSources: int, chromaFault: Option<string>,
                                   generate: Generator, question: string, elapsed: int)
    requires forall k :: k in c ==> !OfUser(c[k], userId)
    ensures var results := SearchOutcome(c, queryVector, ranking, userId, nSources, chromaFault);
            AnswerOutcome(None, generate, question, results, elapsed) == AskResponse(NoInformation, [], elapsed, question)
  {
    var results := SearchOutcome(c, queryVector, ranking, userId, nSources, chromaFault);
    SearchResultsAreOwnersRecords(c, queryVector, ranking, userId, nSources, chromaFault);
  }

  /** `health_check()`. */
  datatype HealthStatus = HealthStatus(llmAvailable: bool, provider: string, model: string, embeddingModel: string)

  /** `LLMService`: the settings, the vector store it searches and the chat models are fixed;
      `_ensure_initialized` fills in the rest once. */
  class LlmServiceState {
    const settings: LlmSettings
    const vectors: VectorStoreService
    const generate: Generator

    var initialized: bool
    var client: Option<LlmClient>
    var provider: Option<Provider>
    var modelName: Option<string>

    constructor (settings: LlmSettings, vectors: VectorStoreService, generate: Generator)
      requires vectors.Valid()
      ensures this.settings == settings && this.vectors == vectors && this.generate == generate
      ensures !initialized && client.None? && provider.None? && modelName.None?
      ensures Valid()
    {
      this.settings := settings;
      this.vectors := vectors;
      this.generate := generate;
      initialized := false;
      client := None;
      provider := None;
      modelName := None;
    }

    predicate Valid()
      reads this, vectors
    {
      && vectors.Valid()
      && (initialized ==>
            var cfg := Configure(settings);
            client == cfg.client && provider == Some(cfg.provider) && modelName == Some(cfg.modelName))
    }

    /** `_ensure_initialized`: configures once from the settings; later calls change nothing. */
    method EnsureInitialized()
      requires Valid()
      modifies this
      ensures Valid() && initialized
      ensures old(initialized) ==> unchanged(this)
    {
      if initialized {
        return;
      }
      var pref := Lower(settings.llmProvider);
      if pref == "anthropic" && settings.anthropicApiKey != "" {
        client := Some(LlmClient(Anthropic, settings.anthropicModel, AnthropicMaxTokens));
        provider := Some(Anthropic);
        modelName := Some(settings.anthropicModel);
      } else if pref == "openai" && settings.openAiApiKey != "" {
        client := Some(LlmClient(OpenAI, settings.openAiModel, OpenAiMaxTokens));
        provider := Some(OpenAI);
        modelName := Some(settings.openAiModel);
      } else if settings.anthropicApiKey != "" {
        client := Some(LlmClient(Anthropic, settings.anthropicModel, AnthropicMaxTokens));
        provider := Some(Anthropic);
        modelName := Some(settings.anthropicModel);
      } else if settings.openAiApiKey != "" {
        client := Some(LlmClient(OpenAI, settings.openAiModel, OpenAiMaxTokens));
        provider := Some(OpenAI);
        modelName := Some(settings.openAiModel);
      } else {
        client := None;
        provider := Some(Mock);
        modelName := Some("mock");
      }
      initialized := true;
    }

    /** `_format_context(search_results)`. */
    method FormatContext(results: seq<SearchResult>) returns (context: string)
      ensures context == ContextOf(results)
    {
      if results == [] {
        return "";
      }
      var parts: seq<string> := [];
      for i := 0 to |results|
        invariant |parts| == i
        invariant forall k :: 0 <= k < i ==> parts[k] == ContextBlock(k + 1, results[k])
      {
        parts := parts + [ContextBlock(i + 1, results[i])];
      }
      assert parts == Blocks(results);
      context := Join(ContextSeparator, parts);
    }

    /** The source-building loop of `answer_question`. */
    method BuildSources(results: seq<SearchResult>) returns (sources: seq<SourceDocument>)
      ensures |sources| == |results|
      ensures forall k :: 0 <= k < |results| ==> sources[k] == ToSource(results[k])
    {
      sources := [];
      for i := 0 to |results|
        invariant |sources| == i
        invariant forall k :: 0 <= k < i ==> sources[k] == ToSource(results[k])
      {
        var metadata := results[i].metadata;
        var name := if metadata.documentName.Some? then metadata.documentName.value else "Unknown";
        var index := if metadata.chunkIndex.Some? then metadata.chunkIndex.value else 0;
        sources := sources + [SourceDocument(Take(results[i].content, SourceContentLength), name, index,
                                             results[i].relevanceScore)];
      }
    }

    /** `answer_question(question, user_id, n_sources)`: search the caller's chunks, answer
        from them, and fall back to the error answer if the chat model raises. */
    method AnswerQuestion(question: string, userId: int, nSources: int, chromaFault: Option<string>, elapsed: int)
      returns (resp: AskResponse)
      requires Valid()
      modifies this, vectors
      ensures Valid() && initialized
      ensures vectors.Contents() == old(vectors.Contents())
      ensures resp == AnswerOutcome(client, generate, question,
                                    SearchOutcome(vectors.Contents(), vectors.QueryVector(question), vectors.ranking,
                                                  userId, nSources, chromaFault),
                                    elapsed)
    {
      EnsureInitialized();
      var results := vectors.Search(question, userId, nSources, chromaFault);
      resp := Respond(question, results, elapsed);
    }

    /** The answering half of `answer_question`, once the search has produced `results`. */
    method Respond(question: string, results: seq<SearchResult>, elapsed: int) returns (resp: AskResponse)
      ensures resp == AnswerOutcome(client, generate, question, results, elapsed)
    {
      var context := FormatContext(results);
      var answer: string;
      if client.Some? {
        var generated := generate(client.value, SystemPrompt(context), question);
        if generated.Failure? {
          return AskResponse(ErrorAnswer(generated.error), [], elapsed, question);
        }
        answer := generated.value;
      } else {
        answer := MockResponse(question, context);
      }
      var sources := BuildSources(results);
      assert sources == Sources(results);
      resp := AskResponse(answer, sources, elapsed, question);
    }

    /** `health_check()`. */
    method HealthCheck() returns (h: HealthStatus)
      requires Valid()
      modifies this
      ensures Valid() && initialized
      ensures h.llmAvailable <==> settings.anthropicApiKey != "" || settings.openAiApiKey != ""
      ensures h.provider == ProviderValue(ChooseProvider(settings.llmProvider, settings.anthropicApiKey, settings.openAiApiKey))
      ensures h.model == Configure(settings).modelName
      ensures h.embeddingModel == settings.openAiEmbeddingModel
    {
      EnsureInitialized();
      h := HealthStatus(client.Some?, ProviderValue(provider.value), modelName.value, settings.openAiEmbeddingModel);
    }
  }
}
