/**
 * The `session_delete` tool (tools/session-delete.ts): check the handle with its own chain of
 * checks, then delete the kernel it names. The handle is passed on as given, without resolution.
 */
module SessionDelete {
  import opened Wrappers
  import opened JsValues
  import opened JsStrings
  import opened Validation
  import opened JupyterErrors
  import opened Responses

  /** What the server answers for a deleted kernel. */
  datatype Deleted = Deleted(id: string, status: string)

  /** The success payload. */
  datatype SessionDeleted = SessionDeleted(sessionId: string, status: string)

  const MaxHandleLength := 100

  /** The tool's checks, in order: missing, not a string, blank, longer than 100 units, NUL. */
  function CheckHandle(sessionId: JsValue): (err: Option<string>)
    ensures err.None? <==>
      sessionId.Str? && !IsBlank(sessionId.s) && JsLength(sessionId.s) <= MaxHandleLength && NUL !in sessionId.s
  {
    TrimEmptyIffBlank(if sessionId.Str? then sessionId.s else "");
    if !Truthy(sessionId) then Some(RequiredMessage("session_id"))
    else if !sessionId.Str? then Some(NotStringMessage("session_id"))
    else if Trim(sessionId.s) == "" then Some(EmptyMessage("session_id"))
    else if JsLength(sessionId.s) > MaxHandleLength then Some(TooLongMessage("session_id", MaxHandleLength))
    else if NUL in sessionId.s then Some(IllegalCharMessage("session_id"))
    else None
  }

  /** The hand-written chain is the shared `validateStringParameter` check for a required value of at most 100 units, message for message. */
  lemma SameAsSharedValidation(sessionId: JsValue)
    ensures var shared := ValidateStringParameter(sessionId, "session_id", Options(true, MaxHandleLength, false, true));
      CheckHandle(sessionId) == (if shared.Valid? then None else Some(shared.errorMessage))
  {
    TrimEmptyIffBlank(if sessionId.Str? then sessionId.s else "");
  }

  /**
   * `executeSessionDelete(args)`: `deleteKernel` stands for the server, answering for a kernel id or
   * throwing a client error. The image store is neither read nor changed.
   */
  function ExecuteSessionDelete(sessionId: JsValue, deleteKernel: string -> Result<Deleted, ClientError>): (r: McpResponse<SessionDeleted>)
    ensures CheckHandle(sessionId).Some? ==> r == ValidationFailure(CheckHandle(sessionId).value)
    // the handle itself names the kernel to delete; the answer reports the server's id and status
    ensures CheckHandle(sessionId).None? ==>
      match deleteKernel(sessionId.s)
      case Success(d) => r == SuccessResponse(SessionDeleted(d.id, d.status))
      case Failure(e) => r == ErrorResponse(e.code, e.message)
  {
    match CheckHandle(sessionId)
    case Some(message) => ValidationFailure(message)
    case None =>
      match deleteKernel(sessionId.s)
      case Success(d) => SuccessResponse(SessionDeleted(d.id, d.status))
      case Failure(e) => Caught(e)
  }
}
