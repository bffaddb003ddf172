/**
 * The two language-model pipelines, `analyzeRecipe` and `generateRecipes`: input check,
 * prompt, HTTP status check, reply envelope, JSON span extraction, validation,
 * normalisation and the mapping of whatever was thrown to the message the caller sees.
 * The network is a function from request to outcome and `JSON.parse` a partial
 * function from text to a parsed value; both are parameters.
 */
module Api {
  import opened Wrappers
  import opened Text
  import opened RecipeModel
  import opened Normalizer

  /** The reply body as `response.json()` sees it. */
  datatype Body =
    | NotJson
      // `response.json()` rejects with a SyntaxError
    | JsonNull
      // the body is the JSON literal `null`
    | JsonValue(choices: Option<seq<Option<Message>>>, errorMessage: Option<string>)
      // any other JSON value: `choices` is None when missing or falsy, an element is
      // None when it is falsy or has no truthy `message`; `errorMessage` is `error?.message`

  /** `choices[i].message.content`: missing, the JSON `null`, another non-string value, or a string. */
  datatype Content = Missing | Null | NonString | Text(value: string)

  /** `choices[i].message` */
  datatype Message = Message(content: Content)

  datatype HttpResponse = HttpResponse(status: nat, statusText: string, body: Body)

  /** What `fetch` gives: a rejection (no connection) or a response. */
  datatype FetchOutcome = NetworkFailure | Received(response: HttpResponse)

  /** The parts of the POST request that vary between the two pipelines. */
  datatype ChatRequest = ChatRequest(apiKey: string, title: string, prompt: string, temperature: real, maxTokens: nat)

  /** The parsed generation reply: `recipes` is None when missing or not an array. */
  datatype Generation = Generation(recipes: Option<seq<Recipe>>)

  /** A property read on `null`. */
  datatype NullRead = ReadChoices | ReadError | ReadTrim

  /** What the body of the `try` can throw. */
  datatype Thrown =
    | FetchFailed
    | HttpError(status: nat, detail: string)
    | ReadOfNull(property: NullRead)
    | ReadOfUndefined
    | TrimNotFunction
    | BadEnvelope
    | NoJsonFound
    | SyntaxError
    | IncompleteData
    | MissingRecipes

  const EmptyRecipeText := "Текст рецепта не может быть пустым"
  const EmptyQuery := "Запрос не может быть пустым"
  const ParseRetry := "Ошибка парсинга ответа от нейросети. Попробуйте еще раз."
  const ApiPrefix := "Ошибка API: "
  const AnalysisPrefix := "Не удалось проанализировать рецепт: "
  const GenerationPrefix := "Не удалось сгенерировать рецепты: "

  const FailedToFetch := "Failed to fetch"
  const NullChoices := "Cannot read properties " + "of null (reading 'choices')"
  const NullError := "Cannot read properties " + "of null (reading 'error')"
  const NullTrim := "Cannot read properties " + "of null (reading 'trim')"
  const UndefinedTrim := "Cannot read properties " + "of undefined (reading 'trim')"
  const TrimNotFunctionText := "data.choices[0].message.content.trim " + "is not a function"
  const BadEnvelopeText := "Неверный формат ответа от API"
  const NoJsonText := "Не удалось найти JSON в ответе"
  const JsonSyntaxText := "Unexpected token in JSON"
  const IncompleteText := "Неполные данные в ответе"
  const MissingRecipesText := "Неверный формат ответа: " + "отсутствует массив recipes"

  /** `error.message` of each thrown error (the type errors as a V8 engine words them). */
  function ThrownMessage(t: Thrown): string {
    match t
    case FetchFailed => FailedToFetch
    case HttpError(status, detail) => "API Error: " + NatToString(status) + " - " + detail
    case ReadOfNull(ReadChoices) => NullChoices
    case ReadOfNull(ReadError) => NullError
    case ReadOfNull(ReadTrim) => NullTrim
    case ReadOfUndefined => UndefinedTrim
    case TrimNotFunction => TrimNotFunctionText
    case BadEnvelope => BadEnvelopeText
    case NoJsonFound => NoJsonText
    case SyntaxError => JsonSyntaxText
    case IncompleteData => IncompleteText
    case MissingRecipes => MissingRecipesText
  }

  /** Only an HTTP failure produces a message containing "API Error". */
  lemma HttpErrorIffApiError(t: Thrown)
    ensures Contains(ThrownMessage(t), "API Error") <==> t.HttpError?
  {
    var m := ThrownMessage(t);
    if t.HttpError? {
      assert m[..9] == "API Error";
    } else {
      NoCapitalE(t);
      MissingCharNotContained(m, "API Error", 'E');
    }
  }

  /** No fixed message has a capital E, so none can contain "API Error". */
  lemma NoCapitalE(t: Thrown)
    requires !t.HttpError?
    ensures 'E' !in ThrownMessage(t)
  {
    FailedToFetchLacksE();
    NullChoicesLacksE();
    NullErrorLacksE();
    NullTrimLacksE();
    UndefinedTrimLacksE();
    TrimNotFunctionTextLacksE();
    BadEnvelopeTextLacksE();
    NoJsonTextLacksE();
    JsonSyntaxTextLacksE();
    IncompleteTextLacksE();
    MissingRecipesTextLacksE();
  }

  lemma FailedToFetchLacksE()
    ensures 'E' !in FailedToFetch
  {
  }

  lemma NullChoicesLacksE()
    ensures 'E' !in NullChoices
  {
  }

  lemma NullErrorLacksE()
    ensures 'E' !in NullError
  {
  }

  lemma NullTrimLacksE()
    ensures 'E' !in NullTrim
  {
  }

  lemma UndefinedTrimLacksE()
    ensures 'E' !in UndefinedTrim
  {
  }

  lemma TrimNotFunctionTextLacksE()
    ensures 'E' !in TrimNotFunctionText
  {
  }

  lemma BadEnvelopeTextLacksE()
    ensures 'E' !in BadEnvelopeText
  {
  }

  lemma NoJsonTextLacksE()
    ensures 'E' !in NoJsonText
  {
  }

  lemma JsonSyntaxTextLacksE()
    ensures 'E' !in JsonSyntaxText
  {
  }

  lemma IncompleteTextLacksE()
    ensures 'E' !in IncompleteText
  {
  }

  lemma MissingRecipesTextLacksE()
    ensures 'E' !in MissingRecipesText
  {
  }

  /**
   * The `catch` block (api.js:193-205, 379-391): a SyntaxError asks for a retry, an
   * HTTP failure is re-wrapped, anything else gets the operation's prefix.
   */
  function FailureMessage(prefix: string, t: Thrown): (m: string)
    ensures t.SyntaxError? ==> m == ParseRetry
    ensures t.HttpError? ==> m == ApiPrefix + ThrownMessage(t)
    ensures !t.SyntaxError? && !t.HttpError? ==> m == prefix + ThrownMessage(t)
  {
    HttpErrorIffApiError(t);
    if t.SyntaxError? then ParseRetry
    else if Contains(ThrownMessage(t), "API Error") then ApiPrefix + ThrownMessage(t)
    else prefix + ThrownMessage(t)
  }

  /** `response.ok` */
  predicate IsOk(status: nat) {
    200 <= status <= 299
  }

  /** The error raised for a non-ok status (api.js:128-131); an unparseable body counts as `{}`. */
  function HttpFailure(resp: HttpResponse): (t: Thrown)
    requires !IsOk(resp.status)
    ensures t.HttpError? <==> !resp.body.JsonNull?
    ensures t.HttpError? ==> t.status == resp.status
    ensures t.HttpError? && !(resp.body.JsonValue? && TruthyText(resp.body.errorMessage)) ==> t.detail == resp.statusText
    ensures t.HttpError? && resp.body.JsonValue? && TruthyText(resp.body.errorMessage) ==>
      t.detail == resp.body.errorMessage.value
  {
    match resp.body
    case NotJson => HttpError(resp.status, resp.statusText)
    case JsonNull => ReadOfNull(ReadError)
    case JsonValue(_, e) => HttpError(resp.status, if TruthyText(e) then e.value else resp.statusText)
  }

  /** `data.choices && data.choices[0] && data.choices[0].message` (api.js:135). */
  predicate HasEnvelope(body: Body) {
    body.JsonValue? && body.choices.Some? && |body.choices.value| > 0 && body.choices.value[0].Some?
  }

  function FirstContent(body: Body): Content
    requires HasEnvelope(body)
  {
    body.choices.value[0].value.content
  }

  /** From the fetch outcome to the trimmed reply text (api.js:128-139). */
  function ReplyContent(outcome: FetchOutcome): (r: Result<string, Thrown>)
    ensures r.Ok? <==> && outcome.Received? && IsOk(outcome.response.status)
                       && HasEnvelope(outcome.response.body) && FirstContent(outcome.response.body).Text?
    ensures r.Ok? ==> r.value == Trim(FirstContent(outcome.response.body).value)
    ensures outcome.NetworkFailure? ==> r == Err(FetchFailed)
    ensures outcome.Received? && !IsOk(outcome.response.status) ==> r == Err(HttpFailure(outcome.response))
    ensures outcome.Received? && IsOk(outcome.response.status) && outcome.response.body.NotJson? ==> r == Err(SyntaxError)
    ensures (outcome.Received? && IsOk(outcome.response.status) && outcome.response.body.JsonValue?
             && !HasEnvelope(outcome.response.body)) ==> r == Err(BadEnvelope)
    ensures outcome.Received? && IsOk(outcome.response.status) && outcome.response.body.JsonNull? ==>
      r == Err(ReadOfNull(ReadChoices))
    ensures (outcome.Received? && IsOk(outcome.response.status) && HasEnvelope(outcome.response.body)
             && FirstContent(outcome.response.body).Missing?) ==> r == Err(ReadOfUndefined)
    ensures (outcome.Received? && IsOk(outcome.response.status) && HasEnvelope(outcome.response.body)
             && FirstContent(outcome.response.body).Null?) ==> r == Err(ReadOfNull(ReadTrim))
    ensures (outcome.Received? && IsOk(outcome.response.status) && HasEnvelope(outcome.response.body)
             && FirstContent(outcome.response.body).NonString?) ==> r == Err(TrimNotFunction)
  {
    match outcome
    case NetworkFailure => Err(FetchFailed)
    case Received(resp) =>
      if !IsOk(resp.status) then Err(HttpFailure(resp))
      else
        match resp.body
        case NotJson => Err(SyntaxError)
        case JsonNull => Err(ReadOfNull(ReadChoices))
        case JsonValue(choices, _) =>
          if !HasEnvelope(resp.body) then Err(BadEnvelope)
          else
            match FirstContent(resp.body)
            case Missing => Err(ReadOfUndefined)
            case Null => Err(ReadOfNull(ReadTrim))
            case NonString => Err(TrimNotFunction)
            case Text(c) => Ok(Trim(c))
  }

  /**
   * `s.match(/\{[\s\S]*\}/)[0]`: the greedy span from the first `{` to the last `}`,
   * or None when no `}` follows the first `{` (api.js:142-145).
   */
  function ExtractJsonSpan(s: string): (r: Option<string>)
    ensures r.Some? ==>
      var i := IndexOf(s, '{');
      && 0 <= i && OccursAt(s, r.value, i) && |r.value| >= 2
      && r.value[0] == '{' && r.value[|r.value| - 1] == '}'
      && '{' !in s[..i] && '}' !in s[i + |r.value|..]
  {
    var i := IndexOf(s, '{');
    var j := LastIndexOf(s, '}');
    if 0 <= i < j then
      assert s[j + 1..] == s[i + |s[i..j + 1]|..];
      Some(s[i..j + 1])
    else
      None
  }

  /** A span is found exactly when some `{` comes before some `}`. */
  lemma ExtractJsonSpanFound(s: string)
    ensures ExtractJsonSpan(s).Some? <==> exists a, b :: 0 <= a < b < |s| && s[a] == '{' && s[b] == '}'
  {
    var i, j := IndexOf(s, '{'), LastIndexOf(s, '}');
    if 0 <= i < j {
      assert s[i] == '{' && s[j] == '}';
    }
  }

  /** api.js:19-22: the words in front of the recipe text. */
  const AnalysisPromptHead := "Ты - эксперт по кулинарии и диетологии с глубокими знаниями пищевой ценности продуктов и методов приготовления. Проанализируй следующий рецепт блюда и предоставь информацию в строго определенном JSON формате.\n\nТекст рецепта:\n"
  /** api.js:23-104, shortened to its first line. */
  const AnalysisPromptTail := "\n\nВАЖНЫЕ ТРЕБОВАНИЯ К АНАЛИЗУ:"
  /** api.js:218-219 */
  const GenerationPromptHead := "Ты - Вита, персональный помощник по рецептам. Пользователь запросил рецепты с учетом следующих требований:\n"
  /** api.js:220-296, shortened to its first line. */
  const GenerationPromptTail := "\n\nВАЖНО: Верни ТОЧНО 2-3 рецепта блюд, которые соответствуют запросу пользователя."

  /** The input sits verbatim between a fixed head and a fixed tail. */
  function Embed(head: string, input: string, tail: string): (p: string)
    ensures |p| == |head| + |input| + |tail|
    ensures OccursAt(p, input, |head|) && StartsWith(p, head) && p[|head| + |input|..] == tail
  {
    head + input + tail
  }

  /** The text between a head and a tail: the inverse of `Embed`. */
  function Unembed(head: string, p: string, tail: string): string
    requires |head| + |tail| <= |p|
  {
    p[|head|..|p| - |tail|]
  }

  /** No two inputs give the same prompt: the input can be read back from it. */
  lemma EmbedRoundTrip(head: string, input: string, tail: string)
    ensures Unembed(head, Embed(head, input, tail), tail) == input
  {
    var p := Embed(head, input, tail);
    assert p[|head|..|p| - |tail|] == p[|head|..|head| + |input|];
  }

  /** The prompt the model receives contains the input verbatim. */
  lemma PromptContainsInput(head: string, input: string, tail: string)
    ensures Contains(Embed(head, input, tail), input)
  {
    ContainsAt(Embed(head, input, tail), input);
  }

  /** The request of `analyzeRecipe` (api.js:107-126). */
  function AnalysisRequest(apiKey: string, text: string): (q: ChatRequest)
    ensures q.prompt == Embed(AnalysisPromptHead, text, AnalysisPromptTail)
    ensures q.title == "Recipe Analyzer" && q.temperature == 0.7 && q.maxTokens == 3000 && q.apiKey == apiKey
  {
    ChatRequest(apiKey, "Recipe Analyzer", Embed(AnalysisPromptHead, text, AnalysisPromptTail), 0.7, 3000)
  }

  /** The request of `generateRecipes` (api.js:299-318). */
  function GenerationRequest(apiKey: string, query: string): (q: ChatRequest)
    ensures q.prompt == Embed(GenerationPromptHead, query, GenerationPromptTail)
    ensures q.title == "Vita Recipe Generator" && q.temperature == 0.8 && q.maxTokens == 4000 && q.apiKey == apiKey
  {
    ChatRequest(apiKey, "Vita Recipe Generator", Embed(GenerationPromptHead, query, GenerationPromptTail), 0.8, 4000)
  }

  /** `!recipeData.dishName || !recipeData.instructions` (api.js:150). */
  predicate Complete(r: Recipe) {
    TruthyText(r.dishName) && r.instructions.Some?
  }

  /** From the reply text to the normalised recipe (api.js:142-189). */
  function DecodeAnalysis(content: string, parse: string -> Option<Recipe>): (r: Result<Recipe, Thrown>)
    ensures ExtractJsonSpan(content).None? ==> r == Err(NoJsonFound)
    ensures ExtractJsonSpan(content).Some? && parse(ExtractJsonSpan(content).value).None? ==> r == Err(SyntaxError)
    ensures r.Ok? <==> && ExtractJsonSpan(content).Some? && parse(ExtractJsonSpan(content).value).Some?
                       && Complete(parse(ExtractJsonSpan(content).value).value)
    ensures r.Ok? ==> r.value == NormalizeAnalysis(parse(ExtractJsonSpan(content).value).value)
  {
    match ExtractJsonSpan(content)
    case None => Err(NoJsonFound)
    case Some(span) =>
      match parse(span)
      case None => Err(SyntaxError)
      case Some(data) =>
        if !Complete(data) then Err(IncompleteData) else Ok(NormalizeAnalysis(data))
  }

  /** A generated batch: same length and order, each element through the generation normaliser. */
  function NormalizeBatch(rs: seq<Recipe>): (out: seq<Recipe>)
    ensures |out| == |rs|
    ensures forall i :: 0 <= i < |rs| ==> out[i] == NormalizeGenerated(rs[i])
  {
    seq(|rs|, i requires 0 <= i < |rs| => NormalizeGenerated(rs[i]))
  }

  /** From the reply text to the normalised batch (api.js:331-377). */
  function DecodeGeneration(content: string, parse: string -> Option<Generation>): (r: Result<seq<Recipe>, Thrown>)
    ensures ExtractJsonSpan(content).None? ==> r == Err(NoJsonFound)
    ensures ExtractJsonSpan(content).Some? && parse(ExtractJsonSpan(content).value).None? ==> r == Err(SyntaxError)
    ensures r.Ok? <==> && ExtractJsonSpan(content).Some? && parse(ExtractJsonSpan(content).value).Some?
                       && parse(ExtractJsonSpan(content).value).value.recipes.Some?
    ensures r.Ok? ==> r.value == NormalizeBatch(parse(ExtractJsonSpan(content).value).value.recipes.value)
  {
    match ExtractJsonSpan(content)
    case None => Err(NoJsonFound)
    case Some(span) =>
      match parse(span)
      case None => Err(SyntaxError)
      case Some(data) =>
        if data.recipes.None? then Err(MissingRecipes) else Ok(NormalizeBatch(data.recipes.value))
  }

  /** The reply text the analysis request gets, or what reading it threw. */
  function AnalysisReply(apiKey: string, text: string, server: ChatRequest -> FetchOutcome): Result<string, Thrown> {
    ReplyContent(server(AnalysisRequest(apiKey, text)))
  }

  /** The reply text the generation request gets, or what reading it threw. */
  function GenerationReply(apiKey: string, query: string, server: ChatRequest -> FetchOutcome): Result<string, Thrown> {
    ReplyContent(server(GenerationRequest(apiKey, query)))
  }

  /** `analyzeRecipe(text)` (api.js:14-206): the recipe, or the message of the error it throws. */
  function AnalyzeRecipe(apiKey: string, text: string, server: ChatRequest -> FetchOutcome,
                         parse: string -> Option<Recipe>): (r: Result<Recipe, string>)
    ensures IsBlank(text) ==> r == Err(EmptyRecipeText)
    ensures r.Ok? <==> && !IsBlank(text) && AnalysisReply(apiKey, text, server).Ok?
                       && DecodeAnalysis(AnalysisReply(apiKey, text, server).value, parse).Ok?
    ensures r.Ok? ==> r.value == DecodeAnalysis(AnalysisReply(apiKey, text, server).value, parse).value
    ensures r.Ok? ==> Complete(r.value) && r.value.tags.Some?
    ensures !IsBlank(text) && AnalysisReply(apiKey, text, server).Err? ==>
      r == Err(FailureMessage(AnalysisPrefix, AnalysisReply(apiKey, text, server).error))
    ensures (!IsBlank(text) && AnalysisReply(apiKey, text, server).Ok?
             && DecodeAnalysis(AnalysisReply(apiKey, text, server).value, parse).Err?) ==>
      r == Err(FailureMessage(AnalysisPrefix, DecodeAnalysis(AnalysisReply(apiKey, text, server).value, parse).error))
  {
    if IsBlank(text) then Err(EmptyRecipeText)
    else
      var outcome :=
        match AnalysisReply(apiKey, text, server)
        case Err(t) => Err(t)
        case Ok(content) => DecodeAnalysis(content, parse);
      match outcome
      case Ok(recipe) => Ok(recipe)
      case Err(t) =>
        Err(FailureMessage(AnalysisPrefix, t))
  }

  /** `generateRecipes(query)` (api.js:213-392): the batch, or the message of the error it throws. */
  function GenerateRecipes(apiKey: string, query: string, server: ChatRequest -> FetchOutcome,
                           parse: string -> Option<Generation>): (r: Result<seq<Recipe>, string>)
    ensures IsBlank(query) ==> r == Err(EmptyQuery)
    ensures r.Ok? <==> && !IsBlank(query) && GenerationReply(apiKey, query, server).Ok?
                       && DecodeGeneration(GenerationReply(apiKey, query, server).value, parse).Ok?
    ensures r.Ok? ==> r.value == DecodeGeneration(GenerationReply(apiKey, query, server).value, parse).value
    ensures r.Ok? ==> forall i :: 0 <= i < |r.value| ==> r.value[i].tags.Some?
    ensures !IsBlank(query) && GenerationReply(apiKey, query, server).Err? ==>
      r == Err(FailureMessage(GenerationPrefix, GenerationReply(apiKey, query, server).error))
    ensures (!IsBlank(query) && GenerationReply(apiKey, query, server).Ok?
             && DecodeGeneration(GenerationReply(apiKey, query, server).value, parse).Err?) ==>
      r == Err(FailureMessage(GenerationPrefix, DecodeGeneration(GenerationReply(apiKey, query, server).value, parse).error))
  {
    if IsBlank(query) then Err(EmptyQuery)
    else
      var outcome :=
        match GenerationReply(apiKey, query, server)
        case Err(t) => Err(t)
        case Ok(content) => DecodeGeneration(content, parse);
      match outcome
      case Ok(recipes) => Ok(recipes)
      case Err(t) =>
        Err(FailureMessage(GenerationPrefix, t))
  }

  /** An HTTP failure reaches the caller with its status in the message, whatever the body. */
  lemma HttpFailureReported(apiKey: string, text: string, server: ChatRequest -> FetchOutcome,
                            parse: string -> Option<Recipe>)
    requires !IsBlank(text)
    requires server(AnalysisRequest(apiKey, text)).Received?
    requires !IsOk(server(AnalysisRequest(apiKey, text)).response.status)
    requires !server(AnalysisRequest(apiKey, text)).response.body.JsonNull?
    ensures var resp := server(AnalysisRequest(apiKey, text)).response;
            exists detail :: AnalyzeRecipe(apiKey, text, server, parse)
              == Err(ApiPrefix + ("API Error: " + NatToString(resp.status) + " - " + detail))
  {
    var resp := server(AnalysisRequest(apiKey, text)).response;
    var t := HttpFailure(resp);
    assert ReplyContent(server(AnalysisRequest(apiKey, text))) == Err(t);
    assert AnalyzeRecipe(apiKey, text, server, parse) == Err(FailureMessage(AnalysisPrefix, t));
    assert FailureMessage(AnalysisPrefix, t) == ApiPrefix + ThrownMessage(t);
    assert ThrownMessage(t) == "API Error: " + NatToString(resp.status) + " - " + t.detail;
  }

  /** Unlike analysis, generation keeps recipes without a name or instructions. */
  lemma GenerationSkipsValidation(content: string, parse: string -> Option<Generation>, i: nat)
    requires DecodeGeneration(content, parse).Ok?
    requires i < |parse(ExtractJsonSpan(content).value).value.recipes.value|
    ensures i < |DecodeGeneration(content, parse).value|
    ensures DecodeGeneration(content, parse).value[i].dishName == parse(ExtractJsonSpan(content).value).value.recipes.value[i].dishName
  {
  }

  /** The key store of `setApiKey`/`getApiKey` (api.js:397-410). */
  class KeySettings {
    /** `window.OPENROUTER_API_KEY` */
    var windowKey: Option<string>
    /** `CONFIG.OPENROUTER_API_KEY` */
    const configKey: string

    constructor(configKey: string)
      ensures this.configKey == configKey && windowKey.None?
    {
      this.configKey := configKey;
      windowKey := None;
    }

    /** `getApiKey()`: the key set at run time when truthy, else the configured one. */
    function GetApiKey(): (k: string)
      reads this
      ensures k == configKey || windowKey == Some(k)
      ensures windowKey.Some? && windowKey.value != "" ==> k == windowKey.value
      ensures windowKey.None? || windowKey == Some("") ==> k == configKey
    {
      if TruthyText(windowKey) then windowKey.value else configKey
    }

    /** `setApiKey(k)`: the next `GetApiKey` returns `k`, unless `k` is empty. */
    method SetApiKey(k: string)
      modifies this
      ensures windowKey == Some(k)
      ensures GetApiKey() == if k == "" then configKey else k
    {
      windowKey := Some(k);
    }
  }
}
