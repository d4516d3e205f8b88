/** The `get_variables` tool (tools/get-variables.ts): validate the handle, resolve it, pass the listing through. */
module GetVariables {
  import opened Wrappers
  import opened JsValues
  import opened JsStrings
  import opened Validation
  import opened JupyterTypes
  import opened JupyterErrors
  import opened Responses
  import opened SessionResolver

  const SessionIdOptions := Options(required := true, maxLength := 200, allowEmpty := false, allowNull := true)

  /**
   * `executeGetVariables(args)`: `listing` is what listing the sessions produced (`None` if it failed)
   * and `getVariables` stands for the server, answering for a kernel id or throwing a client error.
   */
  function ExecuteGetVariables(sessionId: JsValue, listing: Option<seq<Session>>,
                               getVariables: string -> Result<seq<Variable>, ClientError>): (r: McpResponse<seq<Variable>>)
    // an invalid handle is rejected with the validation message
    ensures ValidateStringParameter(sessionId, "session_id", SessionIdOptions).Invalid? ==>
      r == ValidationFailure(ValidateStringParameter(sessionId, "session_id", SessionIdOptions).errorMessage)
    // a valid one is a non-blank string of at most 200 units without NUL ...
    ensures ValidateStringParameter(sessionId, "session_id", SessionIdOptions).Valid? ==>
      sessionId.Str? && !IsBlank(sessionId.s) && JsLength(sessionId.s) <= 200 && NUL !in sessionId.s
    // ... and the variables of the resolved kernel are returned unchanged, or the client's error
    ensures ValidateStringParameter(sessionId, "session_id", SessionIdOptions).Valid? ==>
      match getVariables(ResolveKernelId(listing, sessionId.s))
      case Success(variables) => r == SuccessResponse(variables)
      case Failure(e) => r == ErrorResponse(e.code, e.message)
  {
    var check := ValidateStringParameter(sessionId, "session_id", SessionIdOptions);
    if check.Invalid? then ValidationFailure(check.errorMessage)
    else
      match getVariables(ResolveKernelId(listing, sessionId.s))
      case Success(variables) => SuccessResponse(variables)
      case Failure(e) => Caught(e)
  }

  /** A handle that names no listed session is passed to the server as the kernel id. */
  lemma UnknownHandleIsKernelId(sessionId: string, sessions: seq<Session>,
                                getVariables: string -> Result<seq<Variable>, ClientError>)
    requires ValidateStringParameter(Str(sessionId), "session_id", SessionIdOptions).Valid?
    requires forall i :: 0 <= i < |sessions| ==> sessions[i].id != sessionId
    requires getVariables(sessionId).Success?
    ensures ExecuteGetVariables(Str(sessionId), Some(sessions), getVariables) == SuccessResponse(getVariables(sessionId).value)
  {
  }
}
