/**
 * The `session_connect` tool (tools/session-connect.ts): attach to a session that already exists,
 * found by notebook path or, failing that argument, by kernel id.
 */
module SessionConnect {
  import opened Wrappers
  import opened JsValues
  import opened JsStrings
  import opened Validation
  import opened JupyterTypes
  import opened JupyterErrors
  import opened Responses
  import opened JupyterClient

  /** The arguments the tool reads; an omitted one is `Undefined`. */
  datatype SessionConnectArgs = SessionConnectArgs(notebookPath: JsValue, kernelId: JsValue)

  /** The success payload; `connected` is always true. */
  datatype Connected = Connected(sessionId: string, kernelId: string, notebookPath: string, status: string, connected: bool)

  const PathOptions := Options(required := false, maxLength := 500, allowEmpty := false, allowNull := true)
  const KernelIdOptions := Options(required := false, maxLength := 100, allowEmpty := false, allowNull := true)
  const NeitherGivenMessage := "notebook_path または kernel_id のどちらかを指定してください"

  function NoSessionForPathMessage(path: string): string {
    "指定されたノートブックに関連するセッションが見つかりません: " + path
  }

  function NoSessionForKernelMessage(kernelId: string): string {
    "指定されたカーネルに関連するセッションが見つかりません: " + kernelId
  }

  /** A given argument that passes its check: a non-blank string within the length limit, without NUL. */
  predicate Acceptable(v: JsValue, maxLength: nat) {
    v.Str? && !IsBlank(v.s) && JsLength(v.s) <= maxLength && NUL !in v.s
  }

  /** The argument rules, in order; `None` when the lookup may go ahead. */
  function CheckArguments(args: SessionConnectArgs): (err: Option<string>)
    // at least one of the two must be given
    ensures !Truthy(args.notebookPath) && !Truthy(args.kernelId) ==> err == Some(NeitherGivenMessage)
    // every given argument is checked, the path first
    ensures err.None? <==>
      (Truthy(args.notebookPath) || Truthy(args.kernelId)) &&
      (Truthy(args.notebookPath) ==> Acceptable(args.notebookPath, 500)) &&
      (Truthy(args.kernelId) ==> Acceptable(args.kernelId, 100))
    ensures Truthy(args.notebookPath) && !Acceptable(args.notebookPath, 500) ==>
      err == Some(ValidateStringParameter(args.notebookPath, "notebook_path", PathOptions).errorMessage)
    ensures (!Truthy(args.notebookPath) || Acceptable(args.notebookPath, 500)) && Truthy(args.kernelId) && !Acceptable(args.kernelId, 100) ==>
      err == Some(ValidateStringParameter(args.kernelId, "kernel_id", KernelIdOptions).errorMessage)
  {
    var pathCheck := ValidateStringParameter(args.notebookPath, "notebook_path", PathOptions);
    var kernelCheck := ValidateStringParameter(args.kernelId, "kernel_id", KernelIdOptions);
    if !Truthy(args.notebookPath) && !Truthy(args.kernelId) then Some(NeitherGivenMessage)
    else if Truthy(args.notebookPath) && pathCheck.Invalid? then Some(pathCheck.errorMessage)
    else if Truthy(args.kernelId) && kernelCheck.Invalid? then Some(kernelCheck.errorMessage)
    else None
  }

  function ConnectionTo(session: Session): Connected {
    Connected(session.id, session.kernel.id, session.path, session.kernel.executionState, true)
  }

  /**
   * `executeSessionConnect(args)`: `listing` is what listing the sessions produced, or the error
   * the client threw.
   */
  function ExecuteSessionConnect(args: SessionConnectArgs, listing: Result<seq<Session>, ClientError>): (r: McpResponse<Connected>)
    ensures CheckArguments(args).Some? ==> r == ValidationFailure(CheckArguments(args).value)
    ensures CheckArguments(args).None? && listing.Failure? ==> r == ErrorResponse(listing.error.code, listing.error.message)
    // with a path, the lookup is by path alone, whatever kernel id is also given
    ensures CheckArguments(args).None? && listing.Success? && Truthy(args.notebookPath) ==>
      match GetSessionByPath(listing.value, args.notebookPath.s)
      case None => r == ErrorResponse(SESSION_NOT_FOUND, NoSessionForPathMessage(args.notebookPath.s))
      case Some(session) => r == SuccessResponse(ConnectionTo(session))
    ensures CheckArguments(args).None? && listing.Success? && !Truthy(args.notebookPath) ==>
      match GetSessionByKernelId(listing.value, args.kernelId.s)
      case None => r == ErrorResponse(SESSION_NOT_FOUND, NoSessionForKernelMessage(args.kernelId.s))
      case Some(session) => r == SuccessResponse(ConnectionTo(session))
  {
    match CheckArguments(args)
    case Some(message) => ValidationFailure(message)
    case None =>
      match listing
      case Failure(e) => Caught(e)
      case Success(sessions) =>
        if Truthy(args.notebookPath) then
          match GetSessionByPath(sessions, args.notebookPath.s)
          case None => ErrorResponse(SESSION_NOT_FOUND, NoSessionForPathMessage(args.notebookPath.s))
          case Some(session) => SuccessResponse(ConnectionTo(session))
        else
          match GetSessionByKernelId(sessions, args.kernelId.s)
          case None => ErrorResponse(SESSION_NOT_FOUND, NoSessionForKernelMessage(args.kernelId.s))
          case Some(session) => SuccessResponse(ConnectionTo(session))
  }

  /** A successful connection reports a listed session, with its own ids, path and kernel state. */
  lemma ConnectedToListedSession(args: SessionConnectArgs, sessions: seq<Session>)
    requires ExecuteSessionConnect(args, Success(sessions)).SuccessResponse?
    ensures var c := ExecuteSessionConnect(args, Success(sessions)).data;
      c.connected &&
      exists s :: s in sessions && c == ConnectionTo(s) &&
                  (if Truthy(args.notebookPath) then NormalizedSessionPath(s.path) == NormalizedSessionPath(args.notebookPath.s)
                   else s.kernel.id == args.kernelId.s)
  {
  }

  /** The kernel id is ignored when a notebook path is given: it is checked, but never looked up. */
  lemma PathTakesPrecedence(path: string, k1: string, k2: string, sessions: seq<Session>)
    requires Acceptable(Str(path), 500) && Acceptable(Str(k1), 100) && Acceptable(Str(k2), 100)
    ensures ExecuteSessionConnect(SessionConnectArgs(Str(path), Str(k1)), Success(sessions))
         == ExecuteSessionConnect(SessionConnectArgs(Str(path), Str(k2)), Success(sessions))
  {
  }
}
