/**
 * The decision logic of the HTTP client (jupyter-client/client.ts): how a failed request becomes a
 * `JupyterClientError`, how sessions are looked up by notebook path or kernel id, and how long an
 * execute request may take. The HTTP transport itself is not modelled; what it produced is an input.
 */
module JupyterClient {
  import opened Wrappers
  import opened JsStrings
  import opened JsArrays
  import opened JupyterTypes
  import opened JupyterErrors
  import Numerals

  /** The `error` field of a structured error body, `{ error: { code, message } }`. */
  datatype ApiErrorBody = ApiErrorBody(code: string, message: string)

  /** The response carried by an HTTP error: its status and, when the body had one, its `error` object. */
  datatype HttpResponse = HttpResponse(status: int, error: Option<ApiErrorBody>)

  /**
   * What a failed request threw. `asString` is `String(error)`. A non-Axios value records whether it
   * is an `Error` instance and its message; an Axios error records its transport code, message and response.
   */
  datatype Thrown =
    | NotAxios(isError: bool, message: string, asString: string)
    | Axios(transportCode: Option<string>, message: string, asString: string, response: Option<HttpResponse>)

  /** Transport codes for a refused or unresolvable connection. */
  predicate Unreachable(code: Option<string>) {
    code == Some("ECONNREFUSED") || code == Some("ENOTFOUND")
  }

  /** Transport codes for a request that timed out. */
  predicate TimedOut(code: Option<string>) {
    code == Some("ECONNABORTED") || code == Some("ETIMEDOUT")
  }

  /** `context?.x` as a JavaScript condition: present and not the empty string. */
  predicate Given(x: Option<string>) {
    x.Some? && x.value != ""
  }

  function ConnectFailedMessage(baseUrl: string, detail: string): string {
    "jupyter-server (" + baseUrl + ") への接続に失敗しました: " + detail
  }

  const RequestTimedOutMessage := "リクエストがタイムアウトしました"

  function HttpErrorMessage(status: int): string {
    "HTTP エラー: " + Numerals.IntToString(status)
  }

  /** `handleError(error, context)`: a strict decision list, the first matching case decides. */
  function HandleError(error: Thrown, context: ErrorContext, baseUrl: string): (e: ClientError)
    // anything that is not an Axios error is an internal error carrying its message
    ensures error.NotAxios? ==>
      e == ClientError(Generic, if error.isError then error.message else error.asString, "INTERNAL_ERROR", 500)
    // transport failures are connection errors, whatever response there is
    ensures error.Axios? && (Unreachable(error.transportCode) || TimedOut(error.transportCode)) ==>
      e.kind == Connection && e.code == "CONNECTION_ERROR" && e.statusCode == 503
    ensures error.Axios? && Unreachable(error.transportCode) ==>
      e.message == ConnectFailedMessage(baseUrl, error.message)
    ensures error.Axios? && TimedOut(error.transportCode) ==> e.message == RequestTimedOutMessage
    // from here on: an Axios error with some other transport code
    ensures error.Axios? && !Unreachable(error.transportCode) && !TimedOut(error.transportCode) ==>
      match error.response
      // no response: an internal error with the error's message, or its string form when that is empty
      case None => e == ClientError(Generic, if error.message != "" then error.message else error.asString,
                                    "INTERNAL_ERROR", 500)
      // 401 always means bad credentials, even with a structured body
      case Some(HttpResponse(401, _)) => e == UnauthorizedError(None)
      // a structured body decides the error
      case Some(HttpResponse(status, Some(body))) =>
        e == CreateErrorFromResponse(status, body.code, body.message, context)
      // a bare 404 blames the kernel, else the notebook, named in the context
      case Some(HttpResponse(404, None)) =>
        if Given(context.kernelId) then e == KernelNotFoundError(context.kernelId.value)
        else if Given(context.path) then e == NotebookNotFoundError(context.path.value)
        else e == ClientError(Generic, HttpErrorMessage(404), "HTTP_ERROR", 404)
      // any other status is an HTTP error carrying it
      case Some(HttpResponse(status, None)) =>
        e == ClientError(Generic, HttpErrorMessage(status), "HTTP_ERROR", status)
  {
    match error
    case NotAxios(isError, message, asString) =>
      ClientError(Generic, if isError then message else asString, "INTERNAL_ERROR", 500)
    case Axios(code, message, asString, response) =>
      if Unreachable(code) then ConnectionError(Some(ConnectFailedMessage(baseUrl, message)))
      else if TimedOut(code) then ConnectionError(Some(RequestTimedOutMessage))
      else if response.Some? then
        var status := response.value.status;
        if status == 401 then UnauthorizedError(None)
        else if response.value.error.Some? then
          CreateErrorFromResponse(status, response.value.error.value.code, response.value.error.value.message, context)
        else if status == 404 && Given(context.kernelId) then KernelNotFoundError(context.kernelId.value)
        else if status == 404 && Given(context.path) then NotebookNotFoundError(context.path.value)
        else ClientError(Generic, HttpErrorMessage(status), "HTTP_ERROR", status)
      else ClientError(Generic, if message != "" then message else asString, "INTERNAL_ERROR", 500)
  }

  /** Every error `handleError` yields has one of the fixed statuses, or the status of the response it came from. */
  lemma HandleErrorStatus(error: Thrown, context: ErrorContext, baseUrl: string)
    ensures var e := HandleError(error, context, baseUrl);
      e.statusCode in {400, 401, 404, 408, 500, 503}
      || (error.Axios? && error.response.Some? && e.statusCode == error.response.value.status)
  {
  }

  /** The empty-string context fields count as missing for a bare 404 but are kept by a structured body. */
  lemma EmptyKernelIdContext(statusCode: int, message: string)
    ensures HandleError(Axios(None, message, message, Some(HttpResponse(404, None))), ErrorContext(Some(""), None, None), "").code
      == "HTTP_ERROR"
    ensures HandleError(Axios(None, message, message, Some(HttpResponse(404, Some(ApiErrorBody("KERNEL_NOT_FOUND", message))))),
      ErrorContext(Some(""), None, None), "").message == KernelNotFoundPrefix
  {
  }

  /** `path.replace(/^\//, '')`: the path compared by `getSessionByPath`. */
  function NormalizedSessionPath(path: string): string {
    DropOneLeadingSlash(path)
  }

  /** The test `getSessionByPath` applies to each listed session, given the normalised requested path. */
  function PathMatches(normalizedPath: string): Session -> bool {
    (s: Session) => NormalizedSessionPath(s.path) == normalizedPath
  }

  /** `getSessionByPath(notebookPath)` over the listed sessions: the first whose path agrees up to one leading '/'. */
  function GetSessionByPath(sessions: seq<Session>, notebookPath: string): (r: Option<Session>)
    ensures r.Some? ==> r.value in sessions && NormalizedSessionPath(r.value.path) == NormalizedSessionPath(notebookPath)
    ensures r.None? <==> forall i :: 0 <= i < |sessions| ==>
      NormalizedSessionPath(sessions[i].path) != NormalizedSessionPath(notebookPath)
  {
    Find(sessions, PathMatches(NormalizedSessionPath(notebookPath)))
  }

  /** One leading '/' on either side does not change the lookup. */
  lemma LeadingSlashIgnored(sessions: seq<Session>, notebookPath: string)
    requires notebookPath == [] || notebookPath[0] != '/'
    ensures GetSessionByPath(sessions, "/" + notebookPath) == GetSessionByPath(sessions, notebookPath)
  {
    assert ("/" + notebookPath)[1..] == notebookPath;
  }

  /** The test `getSessionByKernelId` applies to each listed session. */
  function KernelMatches(kernelId: string): Session -> bool {
    (s: Session) => s.kernel.id == kernelId
  }

  /** `getSessionByKernelId(kernelId)` over the listed sessions: the first attached to that kernel. */
  function GetSessionByKernelId(sessions: seq<Session>, kernelId: string): (r: Option<Session>)
    ensures r.Some? ==> r.value in sessions && r.value.kernel.id == kernelId
    ensures r.None? <==> forall i :: 0 <= i < |sessions| ==> sessions[i].kernel.id != kernelId
  {
    Find(sessions, KernelMatches(kernelId))
  }

  /** Among several sessions on one kernel, the first listed one is returned. */
  lemma FirstSessionOfKernel(sessions: seq<Session>, kernelId: string, i: nat)
    requires i < |sessions| && sessions[i].kernel.id == kernelId
    requires forall j :: 0 <= j < i ==> sessions[j].kernel.id != kernelId
    ensures GetSessionByKernelId(sessions, kernelId) == Some(sessions[i])
  {
    FindIsFirst(sessions, KernelMatches(kernelId), i);
  }

  /** The margin added to an execute request's own timeout for the round trip. */
  const CommunicationMarginMs := 5000

  /**
   * The HTTP timeout of an execute request: `timeout * 1000 + 5000` ms when a timeout (in seconds)
   * is given and non-zero, else `None` (the client's default applies).
   */
  function ExecuteRequestTimeoutMs(timeout: Option<int>): (r: Option<int>)
    ensures timeout.None? || timeout == Some(0) ==> r.None?
    // any non-zero timeout, negative ones included, is truthy and gets the margin
    ensures timeout.Some? && timeout.value != 0 ==> r == Some(timeout.value * 1000 + CommunicationMarginMs)
    ensures timeout.Some? && timeout.value > 0 ==> r.Some? && r.value > timeout.value * 1000
  {
    if timeout.Some? && timeout.value != 0 then Some(timeout.value * 1000 + CommunicationMarginMs) else None
  }
}
