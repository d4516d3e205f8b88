/**
 * The `execute_code` tool (tools/execute-code.ts): validates `session_id`, `code` and `timeout` in
 * that order, resolves the handle to a kernel, asks the server to run the code, and reshapes the
 * server's answer (stream chunks joined per stream, the failure's exception type as error code).
 */
module ExecuteCode {
  import opened Wrappers
  import opened JsValues
  import opened JsStrings
  import opened Validation
  import opened JupyterTypes
  import opened JupyterErrors
  import opened Responses
  import opened SessionResolver

  /** The arguments the tool reads; an omitted one is `Undefined`. */
  datatype ExecuteCodeArgs = ExecuteCodeArgs(sessionId: JsValue, code: JsValue, timeout: JsValue)

  /** The success payload. */
  datatype ExecuteCodeOutput = ExecuteCodeOutput(
    stdout: string, stderr: string, result: Option<string>, images: seq<ImageOutput>, executionTimeMs: int)

  /** The backend call the tool decides to make: which kernel, with which request. */
  datatype ExecuteCall = ExecuteCall(kernelId: string, request: ExecuteRequest)

  const SessionIdOptions := Options(required := true, maxLength := 200, allowEmpty := false, allowNull := true)
  const MaxCodeLength := 1000000
  const DefaultTimeout := 30
  const MaxTimeout := 300

  /** A `session_id` the validation lets through. */
  predicate AcceptedSessionId(v: JsValue) {
    v.Str? && !IsBlank(v.s) && JsLength(v.s) <= 200 && NUL !in v.s
  }

  /** The checks on `code` (after the `""` default): not null, a string, at most 1,000,000 units, no NUL. */
  function CheckCode(code: JsValue): (err: Option<string>)
    ensures err.None? <==> code.Str? && JsLength(code.s) <= MaxCodeLength && NUL !in code.s
  {
    if code.Null? then Some("code パラメータが不正です")
    else if !code.Str? then Some("code パラメータは文字列である必要があります")
    else if JsLength(code.s) > MaxCodeLength then Some("code が長すぎます（最大1000000文字）")
    else if NUL in code.s then Some("code に不正な文字が含まれています")
    else None
  }

  /** The checks on `timeout` (after the 30 default): a number with 0 < t <= 300. */
  function CheckTimeout(timeout: JsValue): (err: Option<string>)
    ensures err.None? <==> timeout.Undefined? || (timeout.Num? && 0 < timeout.n <= MaxTimeout)
  {
    if timeout.Undefined? then None
    else if !timeout.Num? then Some("timeout パラメータは数値である必要があります")
    else if timeout.n <= 0 then Some("timeout は正の数である必要があります")
    else if timeout.n > MaxTimeout then Some("timeout は最大 300 秒です")
    else None
  }

  /**
   * Everything `executeExecuteCode` does before the server is called: the validation chain
   * (the first failure decides the message) and, when it passes, the call to make.
   */
  function PlanExecuteCode(args: ExecuteCodeArgs, listing: Option<seq<Session>>): (p: Result<ExecuteCall, McpResponse<ExecuteCodeOutput>>)
    // the call is made exactly when all three arguments are acceptable
    ensures p.Success? <==>
      AcceptedSessionId(args.sessionId) &&
      CheckCode(WithDefault(args.code, Str(""))).None? &&
      (args.timeout.Undefined? || (args.timeout.Num? && 0 < args.timeout.n <= MaxTimeout))
    ensures p.Failure? ==> p.error.ErrorResponse? && p.error.code == VALIDATION_ERROR
    // the session id is checked first, then the code, then the timeout
    ensures !AcceptedSessionId(args.sessionId) ==>
      p.Failure? && p.error.message == ValidateStringParameter(args.sessionId, "session_id", SessionIdOptions).errorMessage
    ensures AcceptedSessionId(args.sessionId) && CheckCode(WithDefault(args.code, Str(""))).Some? ==>
      p.Failure? && p.error.message == CheckCode(WithDefault(args.code, Str(""))).value
    ensures (AcceptedSessionId(args.sessionId) && CheckCode(WithDefault(args.code, Str(""))).None? &&
      CheckTimeout(WithDefault(args.timeout, Num(DefaultTimeout))).Some?) ==>
      p.Failure? && p.error.message == CheckTimeout(WithDefault(args.timeout, Num(DefaultTimeout))).value
    // the server is asked to run the code on the resolved kernel, with the (defaulted) timeout
    ensures p.Success? ==>
      p.value.kernelId == ResolveKernelId(listing, args.sessionId.s) &&
      p.value.request == ExecuteRequest(WithDefault(args.code, Str("")).s, Some(WithDefault(args.timeout, Num(DefaultTimeout)).n))
  {
    var code := WithDefault(args.code, Str(""));
    var timeout := WithDefault(args.timeout, Num(DefaultTimeout));
    var sessionCheck := ValidateStringParameter(args.sessionId, "session_id", SessionIdOptions);
    if sessionCheck.Invalid? then Failure(ValidationFailure(sessionCheck.errorMessage))
    else if CheckCode(code).Some? then Failure(ValidationFailure(CheckCode(code).value))
    else if CheckTimeout(timeout).Some? then Failure(ValidationFailure(CheckTimeout(timeout).value))
    // the defensive re-check after validation; validation already guarantees a non-empty string
    else if !Truthy(args.sessionId) || !args.sessionId.Str? then Failure(ValidationFailure("session_id パラメータが不正です"))
    else Success(ExecuteCall(ResolveKernelId(listing, args.sessionId.s), ExecuteRequest(code.s, Some(timeout.n))))
  }

  /** The texts of the chunks of one stream, in order (`filter` then `map`). */
  function StreamTexts(outputs: seq<Output>, stream: string): seq<string> {
    if outputs == [] then []
    else
      var last := outputs[|outputs| - 1];
      StreamTexts(outputs[..|outputs| - 1], stream) + (if last.stream == stream then [last.text] else [])
  }

  /** Every chunk of the stream contributes its text, and every text comes from such a chunk. */
  lemma {:induction false} StreamTextsMembers(outputs: seq<Output>, stream: string)
    ensures forall t :: t in StreamTexts(outputs, stream) <==>
      exists j :: 0 <= j < |outputs| && outputs[j].stream == stream && outputs[j].text == t
  {
    if outputs != [] {
      var init, last := outputs[..|outputs| - 1], outputs[|outputs| - 1];
      StreamTextsMembers(init, stream);
      assert forall j :: 0 <= j < |init| ==> init[j] == outputs[j];
    }
  }

  /** `parts.join("")`. */
  function Join(parts: seq<string>): string {
    if parts == [] then "" else Join(parts[..|parts| - 1]) + parts[|parts| - 1]
  }

  /** The text one stream printed. */
  function JoinStream(outputs: seq<Output>, stream: string): string {
    Join(StreamTexts(outputs, stream))
  }

  lemma {:induction false} JoinAppend(a: seq<string>, b: seq<string>)
    ensures Join(a + b) == Join(a) + Join(b)
    decreases |b|
  {
    if b == [] {
      assert a + b == a;
    } else {
      assert (a + b)[..|a + b| - 1] == a + b[..|b| - 1];
      JoinAppend(a, b[..|b| - 1]);
    }
  }

  lemma {:induction false} StreamTextsAppend(a: seq<Output>, b: seq<Output>, stream: string)
    ensures StreamTexts(a + b, stream) == StreamTexts(a, stream) + StreamTexts(b, stream)
    decreases |b|
  {
    if b == [] {
      assert a + b == a;
    } else {
      assert (a + b)[..|a + b| - 1] == a + b[..|b| - 1];
      StreamTextsAppend(a, b[..|b| - 1], stream);
    }
  }

  /** The joined text of a stream is the joined text of a prefix followed by that of the rest: chunks keep their order. */
  lemma JoinStreamAppend(a: seq<Output>, b: seq<Output>, stream: string)
    ensures JoinStream(a + b, stream) == JoinStream(a, stream) + JoinStream(b, stream)
  {
    StreamTextsAppend(a, b, stream);
    JoinAppend(StreamTexts(a, stream), StreamTexts(b, stream));
  }

  /** Total length of all chunks' texts. */
  function TotalText(outputs: seq<Output>): nat {
    if outputs == [] then 0 else TotalText(outputs[..|outputs| - 1]) + |outputs[|outputs| - 1].text|
  }

  /** When every chunk is stdout or stderr, the two joined streams hold every character of every chunk. */
  lemma {:induction false} StreamsCoverAllText(outputs: seq<Output>)
    requires forall i :: 0 <= i < |outputs| ==> outputs[i].stream == "stdout" || outputs[i].stream == "stderr"
    ensures |JoinStream(outputs, "stdout")| + |JoinStream(outputs, "stderr")| == TotalText(outputs)
  {
    if outputs != [] {
      var init := outputs[..|outputs| - 1];
      StreamsCoverAllText(init);
      var last := outputs[|outputs| - 1];
      assert outputs == init + [last];
      JoinStreamAppend(init, [last], "stdout");
      JoinStreamAppend(init, [last], "stderr");
      SingleChunkTexts(last, "stdout");
      SingleChunkTexts(last, "stderr");
      JoinSingle(last.text);
    }
  }

  /** One chunk contributes its text to its own stream and nothing to any other. */
  lemma SingleChunkTexts(chunk: Output, stream: string)
    ensures StreamTexts([chunk], stream) == if chunk.stream == stream then [chunk.text] else []
  {
    assert [chunk][..0] == [];
  }

  lemma JoinSingle(part: string)
    ensures Join([part]) == part
  {
    assert [part][..0] == [];
  }

  const GenericFailureMessage := "コード実行に失敗しました"

  /** How the server's answer (or the error the client threw) becomes the tool's response. */
  function ShapeExecuteResult(reply: Result<ExecuteResult, ClientError>): (r: McpResponse<ExecuteCodeOutput>)
    ensures reply.Failure? ==> r == ErrorResponse(reply.error.code, reply.error.message)
    // a successful run: the joined streams, and result, images and timing passed through
    ensures reply.Success? && reply.value.success ==>
      r == SuccessResponse(ExecuteCodeOutput(JoinStream(reply.value.outputs, "stdout"), JoinStream(reply.value.outputs, "stderr"),
                                             reply.value.result, reply.value.images, reply.value.executionTimeMs))
    // a failed run: the exception type as code (EXECUTION_ERROR when empty), its message verbatim
    ensures reply.Success? && !reply.value.success ==> r.ErrorResponse? && r.code != ""
    ensures reply.Success? && !reply.value.success && reply.value.error.Some? ==>
      r.message == reply.value.error.value.message &&
      (r.code == reply.value.error.value.errorType || (reply.value.error.value.errorType == "" && r.code == EXECUTION_ERROR))
    ensures reply.Success? && !reply.value.success && reply.value.error.None? ==>
      r == ErrorResponse(EXECUTION_ERROR, GenericFailureMessage)
  {
    match reply
    case Failure(e) => Caught(e)
    case Success(result) =>
      if result.success then
        SuccessResponse(ExecuteCodeOutput(JoinStream(result.outputs, "stdout"), JoinStream(result.outputs, "stderr"),
                                          result.result, result.images, result.executionTimeMs))
      else if result.error.Some? then
        ErrorResponse(if result.error.value.errorType != "" then result.error.value.errorType else EXECUTION_ERROR,
                      result.error.value.message)
      else ErrorResponse(EXECUTION_ERROR, GenericFailureMessage)
  }

  /**
   * `executeExecuteCode(args)`: `listing` is what listing the sessions produced (`None` if it
   * failed) and `execute` stands for the server, answering a call or throwing a client error.
   */
  function ExecuteExecuteCode(args: ExecuteCodeArgs, listing: Option<seq<Session>>,
                              execute: (string, ExecuteRequest) -> Result<ExecuteResult, ClientError>): (r: McpResponse<ExecuteCodeOutput>)
    ensures PlanExecuteCode(args, listing).Failure? ==> r == PlanExecuteCode(args, listing).error
    ensures PlanExecuteCode(args, listing).Success? ==>
      var call := PlanExecuteCode(args, listing).value;
      r == ShapeExecuteResult(execute(call.kernelId, call.request))
  {
    match PlanExecuteCode(args, listing)
    case Failure(response) => response
    case Success(call) => ShapeExecuteResult(execute(call.kernelId, call.request))
  }

  /** A rejected call never reaches the server: the answer is the same whatever the server would do. */
  lemma RejectionIgnoresServer(args: ExecuteCodeArgs, listing: Option<seq<Session>>,
                               execute1: (string, ExecuteRequest) -> Result<ExecuteResult, ClientError>,
                               execute2: (string, ExecuteRequest) -> Result<ExecuteResult, ClientError>)
    requires !AcceptedSessionId(args.sessionId) || CheckCode(WithDefault(args.code, Str(""))).Some?
             || CheckTimeout(WithDefault(args.timeout, Num(DefaultTimeout))).Some?
    ensures ExecuteExecuteCode(args, listing, execute1) == ExecuteExecuteCode(args, listing, execute2)
    ensures ExecuteExecuteCode(args, listing, execute1).ErrorResponse?
    ensures ExecuteExecuteCode(args, listing, execute1).code == VALIDATION_ERROR
  {
  }

  /** An omitted `code` runs the empty program, and an omitted `timeout` asks for 30 seconds. */
  lemma OmittedArgumentsDefault(sessionId: string, listing: Option<seq<Session>>)
    requires AcceptedSessionId(Str(sessionId))
    ensures PlanExecuteCode(ExecuteCodeArgs(Str(sessionId), Undefined, Undefined), listing)
      == Success(ExecuteCall(ResolveKernelId(listing, sessionId), ExecuteRequest("", Some(30))))
  {
  }
}
