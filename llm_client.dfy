/**
  `LlmClientService`: the request body sent to the completions endpoint, the
  retry loop around `fetch`, and the choice of the reply text. `fetch` and
  `res.json()` are an oracle indexed by attempt; the sleeps between attempts
  are returned as the list of their durations.
 */
module LlmClient {
  import opened Wrappers
  import opened Text

  datatype LlmMessage = LlmMessage(role: string, content: string, name: Option<string>)

  datatype ResponseFormat = ResponseFormat(kind: string)

  /** `LlmCompletionRequest` */
  datatype CompletionRequest = CompletionRequest(
    model: string,
    messages: seq<LlmMessage>,
    maxCompletionTokens: Option<int>,
    temperature: Option<real>,
    stream: Option<bool>,
    responseFormat: Option<ResponseFormat>)

  /** The body posted to `/v1/completions`: every optional field resolved. */
  datatype RequestBody = RequestBody(
    model: string, messages: seq<LlmMessage>, maxCompletionTokens: int, temperature: real, stream: bool,
    responseFormat: ResponseFormat)

  /** `config.LLM`: the default model and token budget. */
  datatype LlmConfig = LlmConfig(baseUrl: string, model: string, maxTokens: int)

  datatype Message = Message(content: Option<string>)

  datatype Choice = Choice(message: Option<Message>, text: Option<string>)

  /** `LlmCompletionResponse` */
  datatype CompletionResponse = CompletionResponse(id: Option<string>, choices: Option<seq<Choice>>, outputText: Option<string>)

  /** What one attempt's `fetch` and `res.json()` give. */
  datatype FetchResult =
    | Response(ok: bool, status: int, json: Result<CompletionResponse, string>)
    | NetworkError(error: string)

  const DefaultRetries: int := 2
  const RequestFailed: string := "LLM request failed"

  /** `req.x || default` for the model, `req.x ?? default` for the other fields. */
  function Body(req: CompletionRequest, config: LlmConfig): (body: RequestBody)
    ensures body.model == (if req.model != "" then req.model else config.model)
    ensures body.messages == req.messages
    ensures body.maxCompletionTokens == req.maxCompletionTokens.GetOr(config.maxTokens)
    ensures req.temperature.None? ==> body.temperature == 0.0
    ensures req.stream.None? ==> !body.stream
    ensures req.responseFormat.None? ==> body.responseFormat == ResponseFormat("text")
    ensures req.temperature.Some? ==> body.temperature == req.temperature.value
    ensures req.stream.Some? ==> body.stream == req.stream.value
    ensures req.responseFormat.Some? ==> body.responseFormat == req.responseFormat.value
  {
    RequestBody(
      if req.model != "" then req.model else config.model,
      req.messages,
      req.maxCompletionTokens.GetOr(config.maxTokens),
      req.temperature.GetOr(0.0),
      req.stream.GetOr(false),
      req.responseFormat.GetOr(ResponseFormat("text")))
  }

  /** The error an attempt ends with, if it does not return a response. */
  function AttemptError(f: FetchResult): Option<string> {
    match f
    case NetworkError(e) => Some(e)
    case Response(ok, status, json) =>
      if !ok then Some("LLM HTTP " + IntToString(status))
      else if json.Failure? then Some(json.error)
      else None
  }

  /** The first attempt below n that succeeds, or n. */
  function FirstSuccess(fetch: (nat, RequestBody) -> FetchResult, body: RequestBody, n: nat): (k: nat)
    ensures k <= n
    ensures k < n ==> AttemptError(fetch(k, body)).None?
    ensures forall j :: 0 <= j < k ==> AttemptError(fetch(j, body)).Some?
  {
    if n == 0 then 0
    else
      var k := FirstSuccess(fetch, body, n - 1);
      if k < n - 1 then k else if AttemptError(fetch(n - 1, body)).None? then n - 1 else n
  }

  /** The sleeps after k failed attempts: 500 ms, 1000 ms, ... */
  function Backoff(k: nat): (waits: seq<nat>)
    ensures |waits| == k
    ensures forall i :: 0 <= i < k ==> waits[i] == 500 * (i + 1)
  {
    seq(k, i requires 0 <= i < k => 500 * (i + 1))
  }

  /** One more failed attempt adds one wait, 500 ms longer than the previous one. */
  lemma BackoffSnoc(k: nat)
    ensures Backoff(k + 1) == Backoff(k) + [500 * (k + 1)]
  {
    assert forall i :: 0 <= i < k ==> Backoff(k + 1)[i] == Backoff(k)[i];
  }

  /**
    `completions`: at most `retries + 1` attempts with the same body; the
    first response that is ok and parses is returned. After a failed attempt
    that is not the last it waits 500·(attempt+1) ms; the last failure is
    rethrown. A negative `retries` makes no attempt at all.
   */
  method Completions(req: CompletionRequest, config: LlmConfig, fetch: (nat, RequestBody) -> FetchResult, retries: int := DefaultRetries)
    returns (r: Result<CompletionResponse, string>, attempts: nat, waits: seq<nat>)
    ensures retries < 0 ==> r == Failure(RequestFailed) && attempts == 0 && waits == []
    ensures retries >= 0 ==>
      var body := Body(req, config);
      var k := FirstSuccess(fetch, body, retries + 1);
      && (k <= retries ==>
            r == Success(fetch(k, body).json.value) && attempts == k + 1 && waits == Backoff(k))
      && (k > retries ==>
            r == Failure(AttemptError(fetch(retries, body)).value) && attempts == retries + 1 && waits == Backoff(retries))
  {
    if retries < 0 {
      return Failure(RequestFailed), 0, [];
    }
    var body := Body(req, config);
    waits := [];
    attempts := 0;
    var attempt: nat := 0;
    while true
      invariant attempt <= retries
      invariant attempts == attempt
      invariant FirstSuccess(fetch, body, attempt) == attempt
      invariant waits == Backoff(attempt)
      decreases retries - attempt
    {
      var res := fetch(attempt, body);
      attempts := attempts + 1;
      var err := AttemptError(res);
      if err.None? {
        assert FirstSuccess(fetch, body, attempt + 1) == attempt;
        FirstSuccessStable(fetch, body, attempt, retries + 1);
        return Success(res.json.value), attempts, waits;
      }
      if attempt == retries {
        assert FirstSuccess(fetch, body, attempt + 1) == attempt + 1;
        return Failure(err.value), attempts, waits;
      }
      assert FirstSuccess(fetch, body, attempt + 1) == attempt + 1;
      BackoffSnoc(attempt);
      waits := waits + [500 * (attempt + 1)];
      attempt := attempt + 1;
    }
  }

  /** Once an attempt succeeds, looking further does not move the first success. */
  lemma {:induction false} FirstSuccessStable(fetch: (nat, RequestBody) -> FetchResult, body: RequestBody, k: nat, n: nat)
    requires k < n && FirstSuccess(fetch, body, k + 1) == k
    ensures FirstSuccess(fetch, body, n) == k
    decreases n
  {
    if n > k + 1 {
      FirstSuccessStable(fetch, body, k, n - 1);
    }
  }

  /** The total time spent waiting when every attempt fails: 500·r·(r+1)/2 ms for r retries. */
  lemma {:induction false} BackoffTotal(k: nat)
    ensures Sum(Backoff(k)) == 250 * k * (k + 1)
  {
    if k > 0 {
      BackoffTotal(k - 1);
      assert Backoff(k) == Backoff(k - 1) + [500 * k];
      SumSnoc(Backoff(k - 1), 500 * k);
    }
  }

  function Sum(xs: seq<nat>): nat {
    if xs == [] then 0 else Sum(xs[..|xs| - 1]) + xs[|xs| - 1]
  }

  lemma SumSnoc(xs: seq<nat>, x: nat)
    ensures Sum(xs + [x]) == Sum(xs) + x
  {
    assert (xs + [x])[..|xs|] == xs;
  }

  /** `firstText`: a non-empty `output_text`, else a non-empty first message content, else the first choice's `text`. */
  function FirstText(resp: CompletionResponse): Option<string> {
    if resp.outputText.Some? && resp.outputText.value != "" then resp.outputText
    else
      var c := if resp.choices.Some? && |resp.choices.value| > 0 then Some(resp.choices.value[0]) else None;
      if c.None? then None
      else
        var content := if c.value.message.Some? then c.value.message.value.content else None;
        if content.Some? && content.value != "" then content else c.value.text
  }

  /** The content of the first choice's message, if any. */
  function FirstContent(resp: CompletionResponse): Option<string> {
    if resp.choices.Some? && |resp.choices.value| > 0 && resp.choices.value[0].message.Some? then
      resp.choices.value[0].message.value.content
    else None
  }

  /** The `text` of the first choice, if any. */
  function FirstChoiceText(resp: CompletionResponse): Option<string> {
    if resp.choices.Some? && |resp.choices.value| > 0 then resp.choices.value[0].text else None
  }

  predicate NonEmpty(s: Option<string>) {
    s.Some? && s.value != ""
  }

  /** The priority order: output text, then message content, then choice text. */
  lemma FirstTextPriority(resp: CompletionResponse)
    ensures NonEmpty(resp.outputText) ==> FirstText(resp) == resp.outputText
    ensures !NonEmpty(resp.outputText) && NonEmpty(FirstContent(resp)) ==> FirstText(resp) == FirstContent(resp)
    ensures !NonEmpty(resp.outputText) && !NonEmpty(FirstContent(resp)) ==> FirstText(resp) == FirstChoiceText(resp)
  {
  }

  /** The text is non-empty exactly when one of the three candidates is. */
  lemma FirstTextNonEmpty(resp: CompletionResponse)
    ensures NonEmpty(FirstText(resp)) <==>
      NonEmpty(resp.outputText) || NonEmpty(FirstContent(resp)) || NonEmpty(FirstChoiceText(resp))
  {
  }

  /** Without output text and without a first choice there is no text. */
  lemma NoChoiceNoText(resp: CompletionResponse)
    requires !NonEmpty(resp.outputText)
    requires resp.choices.None? || resp.choices.value == []
    ensures FirstText(resp).None?
  {
  }
}
