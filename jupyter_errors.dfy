/**
 * The client's error taxonomy (jupyter-client/errors.ts): every failure of a backend call is a
 * `JupyterClientError` with a message, a code and an HTTP-like status; the subclasses fix the code
 * and the status. `createErrorFromResponse` turns the backend's structured error body into one.
 */
module JupyterErrors {
  import opened Wrappers
  import opened JsStrings
  import Numerals

  /** The class of the thrown error (its `name`). */
  datatype ErrorKind =
    | Generic | Unauthorized | KernelNotFound | KernelDead | NotebookNotFound
    | InvalidCellIndex | ExecutionTimeout | Connection | Validation

  /** A `JupyterClientError` (or subclass) value. */
  datatype ClientError = ClientError(kind: ErrorKind, message: string, code: string, statusCode: int)

  /** The optional `{ kernelId, path, index }` a request passes along for error messages. */
  datatype ErrorContext = ErrorContext(kernelId: Option<string>, path: Option<string>, index: Option<int>)

  /** A request made without a context. */
  const NoContext := ErrorContext(None, None, None)

  const DefaultUnauthorizedMessage := "認証に失敗しました。トークンを確認してください。"
  const DefaultConnectionMessage := "jupyter-server への接続に失敗しました。"
  const KernelNotFoundPrefix := "カーネルが見つかりません: "
  const KernelDeadPrefix := "カーネルが停止しています: "
  const NotebookNotFoundPrefix := "ノートブックが見つかりません: "
  const InvalidCellIndexPrefix := "セルインデックスが不正です: "

  /** The timeout every `EXECUTION_TIMEOUT` body is reported with, whatever the request asked for. */
  const ReportedTimeoutMs := 30000

  /** The codes `createErrorFromResponse` maps to a subclass, with the status each subclass fixes. */
  const KnownStatus: map<string, int> := map[
    "UNAUTHORIZED" := 401, "KERNEL_NOT_FOUND" := 404, "KERNEL_DEAD" := 400,
    "NOTEBOOK_NOT_FOUND" := 404, "INVALID_CELL_INDEX" := 400, "EXECUTION_TIMEOUT" := 408]

  /** `new UnauthorizedError(message?)`. */
  function UnauthorizedError(message: Option<string>): (e: ClientError)
    ensures e.kind == Unauthorized && e.code == "UNAUTHORIZED" && e.statusCode == 401
    ensures e.message == message.GetOr(DefaultUnauthorizedMessage)
  {
    ClientError(Unauthorized, message.GetOr(DefaultUnauthorizedMessage), "UNAUTHORIZED", 401)
  }

  /** `new KernelNotFoundError(kernelId)`. */
  function KernelNotFoundError(kernelId: string): (e: ClientError)
    ensures e.kind == KernelNotFound && e.code == "KERNEL_NOT_FOUND" && e.statusCode == 404
    ensures EndsWith(e.message, kernelId) && StartsWith(e.message, KernelNotFoundPrefix)
    ensures e.message == KernelNotFoundPrefix + kernelId
  {
    ClientError(KernelNotFound, KernelNotFoundPrefix + kernelId, "KERNEL_NOT_FOUND", 404)
  }

  /** `new KernelDeadError(kernelId)`. */
  function KernelDeadError(kernelId: string): (e: ClientError)
    ensures e.kind == KernelDead && e.code == "KERNEL_DEAD" && e.statusCode == 400
    ensures EndsWith(e.message, kernelId) && StartsWith(e.message, KernelDeadPrefix)
    ensures e.message == KernelDeadPrefix + kernelId
  {
    ClientError(KernelDead, KernelDeadPrefix + kernelId, "KERNEL_DEAD", 400)
  }

  /** `new NotebookNotFoundError(path)`. */
  function NotebookNotFoundError(path: string): (e: ClientError)
    ensures e.kind == NotebookNotFound && e.code == "NOTEBOOK_NOT_FOUND" && e.statusCode == 404
    ensures EndsWith(e.message, path) && StartsWith(e.message, NotebookNotFoundPrefix)
    ensures e.message == NotebookNotFoundPrefix + path
  {
    ClientError(NotebookNotFound, NotebookNotFoundPrefix + path, "NOTEBOOK_NOT_FOUND", 404)
  }

  /** `new InvalidCellIndexError(index)`; the index is printed in decimal. */
  function InvalidCellIndexError(index: int): (e: ClientError)
    ensures e.kind == InvalidCellIndex && e.code == "INVALID_CELL_INDEX" && e.statusCode == 400
    ensures EndsWith(e.message, Numerals.IntToString(index)) && StartsWith(e.message, InvalidCellIndexPrefix)
    ensures e.message == InvalidCellIndexPrefix + Numerals.IntToString(index)
  {
    ClientError(InvalidCellIndex, InvalidCellIndexPrefix + Numerals.IntToString(index), "INVALID_CELL_INDEX", 400)
  }

  /** `new ExecutionTimeoutError(timeoutMs)`. */
  function ExecutionTimeoutError(timeoutMs: nat): (e: ClientError)
    ensures e.kind == ExecutionTimeout && e.code == "EXECUTION_TIMEOUT" && e.statusCode == 408
    ensures e.message == "コード実行がタイムアウトしました（" + Numerals.NatToString(timeoutMs) + "ms）"
  {
    ClientError(ExecutionTimeout, "コード実行がタイムアウトしました（" + Numerals.NatToString(timeoutMs) + "ms）",
      "EXECUTION_TIMEOUT", 408)
  }

  /** `new ConnectionError(message?)`. */
  function ConnectionError(message: Option<string>): (e: ClientError)
    ensures e.kind == Connection && e.code == "CONNECTION_ERROR" && e.statusCode == 503
    ensures e.message == message.GetOr(DefaultConnectionMessage)
  {
    ClientError(Connection, message.GetOr(DefaultConnectionMessage), "CONNECTION_ERROR", 503)
  }

  /** `new ValidationError(message)`. */
  function ValidationError(message: string): (e: ClientError)
    ensures e.kind == Validation && e.code == "VALIDATION_ERROR" && e.statusCode == 400 && e.message == message
  {
    ClientError(Validation, message, "VALIDATION_ERROR", 400)
  }

  /** `createErrorFromResponse(statusCode, errorCode, message, context)`. */
  function CreateErrorFromResponse(statusCode: int, errorCode: string, message: string, context: ErrorContext): (e: ClientError)
    // the code is always the body's code
    ensures e.code == errorCode
    // a known code fixes the status, whatever the response's status was
    ensures errorCode in KnownStatus ==> e.statusCode == KnownStatus[errorCode] && e.kind != Generic
    // an unknown code passes through verbatim as a generic error
    ensures errorCode !in KnownStatus ==> e == ClientError(Generic, message, errorCode, statusCode)
  {
    match errorCode
    case "UNAUTHORIZED" => UnauthorizedError(Some(message))
    case "KERNEL_NOT_FOUND" => KernelNotFoundError(context.kernelId.GetOr("unknown"))
    case "KERNEL_DEAD" => KernelDeadError(context.kernelId.GetOr("unknown"))
    case "NOTEBOOK_NOT_FOUND" => NotebookNotFoundError(context.path.GetOr("unknown"))
    case "INVALID_CELL_INDEX" => InvalidCellIndexError(context.index.GetOr(-1))
    case "EXECUTION_TIMEOUT" => ExecutionTimeoutError(ReportedTimeoutMs)
    case _ => ClientError(Generic, message, errorCode, statusCode)
  }

  /** For a known code the response's status plays no part in the error. */
  lemma KnownCodeIgnoresStatus(s1: int, s2: int, errorCode: string, message: string, context: ErrorContext)
    requires errorCode in KnownStatus
    ensures CreateErrorFromResponse(s1, errorCode, message, context) == CreateErrorFromResponse(s2, errorCode, message, context)
  {
  }

  /** The context value appears at the end of the message, and a missing one reads "unknown" (or -1 for an index). */
  lemma MessageCarriesContext(statusCode: int, message: string, context: ErrorContext)
    ensures EndsWith(CreateErrorFromResponse(statusCode, "KERNEL_NOT_FOUND", message, context).message,
      context.kernelId.GetOr("unknown"))
    ensures EndsWith(CreateErrorFromResponse(statusCode, "KERNEL_DEAD", message, context).message,
      context.kernelId.GetOr("unknown"))
    ensures EndsWith(CreateErrorFromResponse(statusCode, "NOTEBOOK_NOT_FOUND", message, context).message,
      context.path.GetOr("unknown"))
    ensures EndsWith(CreateErrorFromResponse(statusCode, "INVALID_CELL_INDEX", message, context).message,
      Numerals.IntToString(context.index.GetOr(-1)))
  {
  }

  /** An UNAUTHORIZED body keeps the server's message; a timeout body always reports 30000 ms, whatever the message. */
  lemma UnauthorizedAndTimeoutMessages(statusCode: int, message: string, context: ErrorContext)
    ensures CreateErrorFromResponse(statusCode, "UNAUTHORIZED", message, context).message == message
    ensures CreateErrorFromResponse(statusCode, "EXECUTION_TIMEOUT", message, context) ==
      ExecutionTimeoutError(30000)
  {
  }
}
