/**
 * The OpenAI-compatible provider that talks to an endpoint directly: how
 * `chat` shapes the request it sends and how `_parse` turns the endpoint's
 * reply into an `LLMResponse`. The endpoint itself is not modelled: what the
 * client call did (returned a response or raised) is a parameter.
 */
module Provider {
  import opened PyValues
  import opened Results
  import opened EmptyTextBlocks

  const DefaultApiKey: string := "no-key"
  const DefaultApiBase: string := "http://localhost:8000/v1"
  const DefaultModelName: string := "default"
  const DefaultMaxTokens: int := 4096
  const DefaultTemperature: real := 0.7

  /** The keys every request carries; "tools" and "tool_choice" are added only when tools are given. */
  const BaseRequestKeys: set<string> := {"model", "messages", "max_tokens", "temperature"}
  const ToolKeys: set<string> := {"tools", "tool_choice"}

  /** The text of the `IndexError` raised by `response.choices[0]` on an empty list. */
  const NoChoiceError: string := "list index out of range"

  // ---------------------------------------------------------------------------
  // The endpoint's reply, as the client library hands it over.

  datatype RawFunction = RawFunction(name: string, arguments: Value)
  datatype RawToolCall = RawToolCall(id: string, call: RawFunction)
  datatype RawMessage = RawMessage(
    content: Option<string>,
    toolCalls: Option<seq<RawToolCall>>,
    reasoningContent: Option<string>)
  datatype Choice = Choice(message: RawMessage, finishReason: Option<string>)
  datatype Usage = Usage(promptTokens: int, completionTokens: int, totalTokens: int)
  datatype RawResponse = RawResponse(choices: seq<Choice>, usage: Option<Usage>)

  /**
   * What `chat.completions.create` did: returned a response, raised an
   * `Exception` with this message, or raised a `BaseException` that is not an
   * `Exception` (such as `asyncio.CancelledError`, `KeyboardInterrupt` or
   * `SystemExit`), named by its class.
   */
  datatype Reply =
    | Returned(response: RawResponse)
    | Raised(message: string)
    | Interrupted(exceptionName: string)

  /** What escapes `chat` instead of a response. */
  datatype Escaped =
    | SanitiseError(error: TypeError)
    | BaseExceptionEscaped(exceptionName: string)

  // ---------------------------------------------------------------------------
  // The provider's normalised response.

  /**
   * Tool-call arguments: a string is handed to a lenient JSON parser whose
   * result is not modelled (`Repaired` keeps the text it was given); anything
   * else is kept as it came.
   */
  datatype Arguments = Repaired(text: string) | Verbatim(value: Value)

  datatype ToolCallRequest = ToolCallRequest(id: string, name: string, arguments: Arguments)

  datatype LLMResponse = LLMResponse(
    content: Option<string>,
    toolCalls: seq<ToolCallRequest>,
    finishReason: string,
    usage: map<string, int>,
    reasoningContent: Option<string>)

  /** The response `chat` returns when the call or the parsing raised. */
  function ErrorResponse(message: string): LLMResponse {
    LLMResponse(Some("Error: " + message), [], "error", map[], None)
  }

  /** The messages of a request as the list of dicts that is sent. */
  function AsValues(messages: seq<Message>): seq<Value> {
    seq(|messages|, i requires 0 <= i < |messages| => VDict(messages[i]))
  }

  /** `if tools:` — a tool list is given when it is present and non-empty. */
  predicate ToolsGiven(tools: Option<seq<Value>>) {
    tools.Some? && tools.value != []
  }

  function ConvertToolCall(tc: RawToolCall): ToolCallRequest {
    var args := tc.call.arguments;
    ToolCallRequest(tc.id, tc.call.name, if args.VStr? then Repaired(args.s) else Verbatim(args))
  }

  /**
   * `_parse`: reads the first choice. A missing or empty finish reason becomes
   * "stop", absent usage becomes an empty map, absent tool calls an empty list.
   * An empty choice list raises `IndexError`.
   */
  function Parse(response: RawResponse): (r: Result<LLMResponse, string>)
    ensures r.Failure? <==> response.choices == []
    ensures r.Failure? ==> r.error == NoChoiceError
    ensures r.Success? ==>
      var choice := response.choices[0];
      && r.value.finishReason != ""
      && (choice.finishReason.Some? && choice.finishReason.value != "" ==> r.value.finishReason == choice.finishReason.value)
      && (choice.finishReason.None? || choice.finishReason == Some("") ==> r.value.finishReason == "stop")
    ensures r.Success? ==> (r.value.usage == map[] <==> response.usage.None?)
    ensures r.Success? && response.usage.Some? ==>
      var u := response.usage.value;
      && r.value.usage.Keys == {"prompt_tokens", "completion_tokens", "total_tokens"}
      && r.value.usage["prompt_tokens"] == u.promptTokens
      && r.value.usage["completion_tokens"] == u.completionTokens
      && r.value.usage["total_tokens"] == u.totalTokens
    ensures r.Success? ==>
      var msg := response.choices[0].message;
      var raw := msg.toolCalls.GetOr([]);
      && r.value.content == msg.content
      && r.value.reasoningContent == msg.reasoningContent
      && |r.value.toolCalls| == |raw|
      && forall i | 0 <= i < |raw| ::
           && r.value.toolCalls[i].id == raw[i].id
           && r.value.toolCalls[i].name == raw[i].call.name
           && (raw[i].call.arguments.VStr? ==>
                 r.value.toolCalls[i].arguments == Repaired(raw[i].call.arguments.s))
           && (!raw[i].call.arguments.VStr? ==>
                 r.value.toolCalls[i].arguments == Verbatim(raw[i].call.arguments))
  {
    if response.choices == [] then Failure(NoChoiceError)
    else
      var choice := response.choices[0];
      var msg := choice.message;
      var raw := msg.toolCalls.GetOr([]);
      var toolCalls := seq(|raw|, i requires 0 <= i < |raw| => ConvertToolCall(raw[i]));
      var finishReason := if choice.finishReason.Some? && choice.finishReason.value != "" then choice.finishReason.value else "stop";
      var usage := match response.usage
        case Some(u) =>
          var m := map["prompt_tokens" := u.promptTokens, "completion_tokens" := u.completionTokens, "total_tokens" := u.totalTokens];
          assert "prompt_tokens" in m;
          m
        case None => map[];
      Success(LLMResponse(msg.content, toolCalls, finishReason, usage, msg.reasoningContent))
  }

  /** The provider's configuration; nothing updates it after construction. */
  datatype CustomProvider = CustomProvider(
    apiKey: string := DefaultApiKey,
    apiBase: string := DefaultApiBase,
    defaultModel: string := DefaultModelName)
  {
    /** `get_default_model` */
    function GetDefaultModel(): string {
      defaultModel
    }

    /**
     * The keyword arguments `chat` hands to the client. The messages are the
     * sanitised ones (a `TypeError` from sanitising escapes `chat`), the model
     * falls back to the default, at least one token is requested, and the
     * tools with `tool_choice = "auto"` are attached only when tools are given.
     */
    method BuildRequest(
      messages: seq<Message>, tools: Option<seq<Value>>, model: Option<string>,
      maxTokens: int, temperature: real)
      returns (r: Result<Dict, TypeError>)
      ensures r.Success? <==> SanitizeAll(messages).Success?
      ensures r.Failure? ==> r.error == SanitizeAll(messages).error
      ensures r.Success? ==>
        r.value.Keys == BaseRequestKeys + (if ToolsGiven(tools) then ToolKeys else {})
      ensures r.Success? ==>
        && (model.Some? && model.value != "" ==> r.value["model"] == VStr(model.value))
        && (model.None? || model == Some("") ==> r.value["model"] == VStr(GetDefaultModel()))
      ensures r.Success? ==>
        && r.value["max_tokens"].VInt?
        && r.value["max_tokens"].i >= 1
        && (maxTokens >= 1 ==> r.value["max_tokens"].i == maxTokens)
        && (maxTokens < 1 ==> r.value["max_tokens"].i == 1)
      ensures r.Success? ==>
        var sent := SanitizeAll(messages).value;
        && r.value["messages"].VList?
        && |r.value["messages"].items| == |messages|
        && forall i | 0 <= i < |messages| :: r.value["messages"].items[i] == VDict(sent[i])
      ensures r.Success? ==> r.value["temperature"] == VFloat(temperature)
      ensures r.Success? && ToolsGiven(tools) ==>
        r.value["tools"] == VList(tools.value) && r.value["tool_choice"] == VStr("auto")
    {
      var sanitized := PreventEmptyTextBlocks(messages);
      if sanitized.Failure? {
        return Failure(sanitized.error);
      }
      var kwargs: Dict := map[
        "model" := VStr(if model.Some? && model.value != "" then model.value else defaultModel),
        "messages" := VList(AsValues(sanitized.value)),
        "max_tokens" := VInt(if maxTokens >= 1 then maxTokens else 1),
        "temperature" := VFloat(temperature)];
      if ToolsGiven(tools) {
        kwargs := kwargs["tools" := VList(tools.value)]["tool_choice" := VStr("auto")];
      }
      r := Success(kwargs);
    }

    /**
     * `chat`: builds the request, then turns the client's reply into a
     * response. An `Exception` raised by the call or the parsing becomes an
     * error response. A `TypeError` from sanitising, which happens before the
     * `try`, escapes, and so does a `BaseException` that is not an `Exception`,
     * which `except Exception` does not catch.
     */
    method Chat(
      messages: seq<Message>, reply: Reply, tools: Option<seq<Value>> := None,
      model: Option<string> := None, maxTokens: int := DefaultMaxTokens,
      temperature: real := DefaultTemperature)
      returns (r: Result<LLMResponse, Escaped>)
      ensures r.Failure? <==> SanitizeAll(messages).Failure? || reply.Interrupted?
      ensures SanitizeAll(messages).Failure? ==>
        r == Failure(SanitiseError(SanitizeAll(messages).error))
      ensures SanitizeAll(messages).Success? && reply.Interrupted? ==>
        r == Failure(BaseExceptionEscaped(reply.exceptionName))
      ensures r.Success? && reply.Raised? ==> r.value == ErrorResponse(reply.message)
      ensures r.Success? && reply.Returned? && reply.response.choices == [] ==>
        r.value == ErrorResponse(NoChoiceError)
      ensures r.Success? && reply.Returned? && reply.response.choices != [] ==>
        r.value == Parse(reply.response).value
    {
      var request := BuildRequest(messages, tools, model, maxTokens, temperature);
      if request.Failure? {
        return Failure(SanitiseError(request.error));
      }
      match reply
      case Interrupted(name) =>
        r := Failure(BaseExceptionEscaped(name));
      case Raised(message) =>
        r := Success(ErrorResponse(message));
      case Returned(response) =>
        var parsed := Parse(response);
        match parsed
        case Success(resp) => r := Success(resp);
        case Failure(message) => r := Success(ErrorResponse(message));
    }
  }
}
