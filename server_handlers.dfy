/**
 * The server extension's request handlers (jupyter-server/extensions/custom_api/handlers.py): the
 * two reply envelopes, the argument checks of the execute endpoint, and the cell edits of the
 * notebook-cells endpoint, which changes a notebook's list of cells in place and saves it.
 */
module ServerHandlers {
  import opened Wrappers
  import opened JsValues
  import Numerals
  import JupyterErrors
  import JupyterClient
  import opened KernelExecutor

  /** A JSON reply body: `make_response(data)` or `make_error(code, message)`. */
  datatype Body<+T> = DataBody(data: T) | ErrorBody(code: string, message: string)

  /** A reply: the HTTP status and the body. */
  datatype Reply<+T> = Reply(status: int, body: Body<T>)

  /** `make_response(data)`: `{"data": data}`. */
  function MakeResponse<T>(data: T): (b: Body<T>)
    ensures b.DataBody? && b.data == data
  {
    DataBody(data)
  }

  /** `make_error(code, message)`: `{"error": {"code": code, "message": message}}`. */
  function MakeError<T>(code: string, message: string): (b: Body<T>)
    ensures b.ErrorBody? && b.code == code && b.message == message
  {
    ErrorBody(code, message)
  }

  /** `write_success(data)`: status 200. */
  function WriteSuccess<T>(data: T): Reply<T> {
    Reply(200, MakeResponse(data))
  }

  /** `write_error_response(code, message, status)`. */
  function WriteError<T>(code: string, message: string, status: int): Reply<T> {
    Reply(status, MakeError(code, message))
  }

  /** The response the client receives for an error reply: the status and the `error` object of the body. */
  function AsHttpResponse<T>(reply: Reply<T>): JupyterClient.HttpResponse {
    JupyterClient.HttpResponse(reply.status,
      match reply.body
      case ErrorBody(code, message) => Some(JupyterClient.ApiErrorBody(code, message))
      case DataBody(_) => None)
  }

  /**
   * The envelopes fit the client: an error reply with any status but 401 reaches the caller as the
   * error `createErrorFromResponse` builds from its code and message.
   */
  lemma ErrorReplyReachesClient(code: string, message: string, status: int, context: JupyterErrors.ErrorContext,
                                axiosMessage: string, baseUrl: string)
    requires status != 401
    ensures JupyterClient.HandleError(
              JupyterClient.Axios(None, axiosMessage, axiosMessage, Some(AsHttpResponse(WriteError<()>(code, message, status)))),
              context, baseUrl)
         == JupyterErrors.CreateErrorFromResponse(status, code, message, context)
  {
  }

  // ---------------------------------------------------------------------------------------------
  // POST /api/kernels/{kernel_id}/execute
  // ---------------------------------------------------------------------------------------------

  /** The body fields the execute handler reads; a missing one is `Undefined`. */
  datatype ExecuteBody = ExecuteBody(code: JsValue, timeout: JsValue)

  /** The code to run and the timeout the executor receives. */
  datatype ExecuteCall = ExecuteCall(code: string, timeout: JsValue)

  /** The argument checks of `KernelExecuteHandler.post`: code must be present and a string; the empty string is accepted. */
  function CheckExecuteBody(body: ExecuteBody): (r: Result<ExecuteCall, Reply<ExecuteReplyData>>)
    ensures r.Success? <==> body.code.Str?
    ensures r.Success? ==> r.value.code == body.code.s
    // a missing timeout defaults to 30 seconds; any other value is passed on unchecked
    ensures r.Success? ==> r.value.timeout == WithDefault(body.timeout, Num(30))
    ensures body.code.Undefined? || body.code.Null? ==> r == Failure(WriteError("VALIDATION_ERROR", "code is required", 400))
    ensures !(body.code.Undefined? || body.code.Null? || body.code.Str?) ==>
      r == Failure(WriteError("VALIDATION_ERROR", "code must be a string", 400))
  {
    var timeout := WithDefault(body.timeout, Num(30));
    if body.code.Undefined? || body.code.Null? then Failure(WriteError("VALIDATION_ERROR", "code is required", 400))
    else if !body.code.Str? then Failure(WriteError("VALIDATION_ERROR", "code must be a string", 400))
    else Success(ExecuteCall(body.code.s, timeout))
  }

  /** The `data` of an execute reply; a timed-out or crashed run has no outputs, result or images. */
  datatype ExecuteReplyData = ExecuteReplyData(
    success: bool, executionCount: int, outputs: Option<seq<StreamOutput>>, result: Option<string>,
    images: Option<seq<PngImage>>, error: Option<ErrorRecord>, executionTimeMs: int)

  /** The timeout in seconds as Python's arithmetic sees it (`True` is 1); `None` for a value it cannot add to a float. */
  function TimeoutSeconds(timeout: JsValue): Option<int> {
    match timeout
    case Num(n) => Some(n)
    case Bool(b) => Some(if b then 1 else 0)
    case _ => None
  }

  /** Python's `str` of a numeric timeout. */
  function TimeoutText(timeout: JsValue): string {
    match timeout
    case Bool(b) => if b then "True" else "False"
    case Num(n) => Numerals.IntToString(n)
    case _ => ""
  }

  /**
   * The type name in the `TypeError` raised when the deadline is computed from a non-numeric timeout.
   * `Obj` stands for every JSON object and array, so an array is named "dict" where Python says "list".
   */
  function PythonTypeName(v: JsValue): string {
    match v
    case Null | Undefined => "NoneType"
    case Str(_) => "str"
    case _ => "dict"
  }

  /** The message of the `TypeError` raised when the deadline is computed from a non-numeric timeout. */
  function OperandTypeMessage(timeout: JsValue): string {
    "unsupported operand type(s) for +: 'float' and '" + PythonTypeName(timeout) + "'"
  }

  function TimeoutMessage(timeout: JsValue): string {
    "Execution timed out after " + TimeoutText(timeout) + " seconds"
  }

  /**
   * The reply of the execute endpoint. `delivered` is what the kernel publishes before the deadline,
   * `elapsedMs` the measured run time and `traceback` the formatted traceback of a crash.
   */
  function ExecuteEndpoint(kernelExists: bool, kernelId: string, body: ExecuteBody, delivered: seq<IopubMessage>,
                           elapsedMs: int, traceback: seq<string>): (reply: Reply<ExecuteReplyData>)
    ensures !kernelExists ==> reply == WriteError("KERNEL_NOT_FOUND", "Kernel not found: " + kernelId, 404)
    ensures kernelExists && !body.code.Str? ==> reply.status == 400 && reply.body.ErrorBody?
    // a checked request always gets a 200 reply with data, even when the code fails or times out
    ensures kernelExists && body.code.Str? ==> reply.status == 200 && reply.body.DataBody?
    ensures kernelExists && body.code.Str? ==>
      var data := reply.body.data;
      data.executionTimeMs == elapsedMs &&
      (data.success <==> TimeoutSeconds(WithDefault(body.timeout, Num(30))).Some? &&
                         ExecuteOutcome(TimeoutSeconds(WithDefault(body.timeout, Num(30))).value, delivered).Success? &&
                         ExecuteOutcome(TimeoutSeconds(WithDefault(body.timeout, Num(30))).value, delivered).value.error.None?)
    // a timeout Python cannot add to a float is reported as the TypeError it raises, with its traceback
    ensures kernelExists && body.code.Str? && TimeoutSeconds(WithDefault(body.timeout, Num(30))).None? ==>
      reply.body.data == ExecuteReplyData(false, 0, None, None, None,
        Some(ErrorRecord("TypeError", OperandTypeMessage(WithDefault(body.timeout, Num(30))), traceback)), elapsedMs)
    // a run that misses its deadline is reported as a TimeoutError and nothing it produced is relayed
    ensures (kernelExists && body.code.Str? && TimeoutSeconds(WithDefault(body.timeout, Num(30))).Some? &&
      ExecuteOutcome(TimeoutSeconds(WithDefault(body.timeout, Num(30))).value, delivered).Failure?) ==>
      reply.body.data == ExecuteReplyData(false, 0, None, None, None,
        Some(ErrorRecord("TimeoutError", TimeoutMessage(WithDefault(body.timeout, Num(30))), [])), elapsedMs)
    // a run that finishes in time has everything the kernel delivered relayed as collected
    ensures (kernelExists && body.code.Str? && TimeoutSeconds(WithDefault(body.timeout, Num(30))).Some? &&
      ExecuteOutcome(TimeoutSeconds(WithDefault(body.timeout, Num(30))).value, delivered).Success?) ==>
      var c := ExecuteOutcome(TimeoutSeconds(WithDefault(body.timeout, Num(30))).value, delivered).value;
      reply.body.data == ExecuteReplyData(c.success, c.executionCount, Some(c.outputs), c.result, Some(c.images), c.error, elapsedMs)
  {
    if !kernelExists then WriteError("KERNEL_NOT_FOUND", "Kernel not found: " + kernelId, 404)
    else
      match CheckExecuteBody(body)
      case Failure(reply) => reply
      case Success(call) =>
        match TimeoutSeconds(call.timeout)
        case None =>
          WriteSuccess(ExecuteReplyData(false, 0, None, None, None,
            Some(ErrorRecord("TypeError", OperandTypeMessage(call.timeout), traceback)), elapsedMs))
        case Some(seconds) =>
          match ExecuteOutcome(seconds, delivered)
          case Failure(_) =>
            WriteSuccess(ExecuteReplyData(false, 0, None, None, None,
              Some(ErrorRecord("TimeoutError", TimeoutMessage(call.timeout), [])), elapsedMs))
          case Success(c) =>
            WriteSuccess(ExecuteReplyData(c.success, c.executionCount, Some(c.outputs), c.result, Some(c.images), c.error, elapsedMs))
  }

  /**
   * A run with the default timeout whose kernel goes idle with no error before it is a success that
   * reports every stream message received before the idle status, in order.
   */
  lemma CleanRunSucceeds(kernelId: string, code: string, delivered: seq<IopubMessage>, idle: nat, elapsedMs: int, traceback: seq<string>)
    requires idle < |delivered| && IsIdle(delivered[idle]) && forall j :: 0 <= j < idle ==> !IsIdle(delivered[j])
    requires forall j :: 0 <= j < idle ==> !delivered[j].ErrorMessage?
    ensures var reply := ExecuteEndpoint(true, kernelId, ExecuteBody(Str(code), Undefined), delivered, elapsedMs, traceback);
      reply.status == 200 && reply.body.DataBody? && reply.body.data.success &&
      reply.body.data.outputs == Some(StreamOutputs(delivered[..idle]))
  {
    JsArrays.FindIndexAt(delivered, IsIdle, idle);
    var ms := delivered[..idle];
    ErrorIffErrorMessage(ms);
    ReplayOutputs(ms);
  }

  /** With no idle status before the deadline, the reply reports a timeout naming the timeout given. */
  lemma NoIdleReportsTimeout(kernelId: string, code: string, seconds: nat, delivered: seq<IopubMessage>, elapsedMs: int, traceback: seq<string>)
    requires forall j :: 0 <= j < |delivered| ==> !IsIdle(delivered[j])
    ensures var reply := ExecuteEndpoint(true, kernelId, ExecuteBody(Str(code), Num(seconds)), delivered, elapsedMs, traceback);
      reply.body.DataBody? && !reply.body.data.success && reply.body.data.outputs.None? &&
      reply.body.data.error == Some(ErrorRecord("TimeoutError", "Execution timed out after " + Numerals.NatToString(seconds) + " seconds", []))
  {
  }

  // ---------------------------------------------------------------------------------------------
  // PATCH /api/contents/{path}/cells
  // ---------------------------------------------------------------------------------------------

  /** A field of a JSON object as `dict.get` sees it: missing, `null`, or a string. */
  datatype Field = Missing | JsonNull | Text(s: string)

  /** `d.get(key, default)`: the default replaces only a missing key; `null` reads as `None`. */
  function GetOr(f: Field, default: Option<string>): (r: Option<string>)
    ensures f.Missing? ==> r == default
    ensures f.JsonNull? ==> r.None?
    ensures f.Text? ==> r == Some(f.s)
  {
    match f
    case Missing => default
    case JsonNull => None
    case Text(s) => Some(s)
  }

  /** The `cell` object of a cells request. */
  datatype CellFields = CellFields(cellType: Field, source: Field)

  /** The body of a cells request; `None` where the key is missing or `null`. */
  datatype PatchBody = PatchBody(action: Option<string>, cell: Option<CellFields>, index: Option<int>)

  /** The keys only code cells carry: `outputs` and `execution_count`. */
  datatype CodeFields = CodeFields(outputs: seq<string>, executionCount: Option<int>)

  /** A notebook cell: its type and source (`None` for a JSON `null`) and, for code cells, the code-only keys. */
  datatype Cell = Cell(cellType: Option<string>, source: Option<string>, codeFields: Option<CodeFields>)

  /** The new cell of an `add`: type "code" and source "" by default; only a code cell gets empty outputs and no count. */
  function NewCell(fields: CellFields): (c: Cell)
    ensures c.cellType == GetOr(fields.cellType, Some("code")) && c.source == GetOr(fields.source, Some(""))
    ensures c.codeFields.Some? <==> c.cellType == Some("code")
    ensures c.codeFields.Some? ==> c.codeFields.value == CodeFields([], None)
  {
    var cellType := GetOr(fields.cellType, Some("code"));
    Cell(cellType, GetOr(fields.source, Some("")), if cellType == Some("code") then Some(CodeFields([], None)) else None)
  }

  /** The cell after an `update`: the given non-null source and type replace the old ones; nothing else changes. */
  function UpdatedCell(old_: Cell, fields: CellFields): (c: Cell)
    ensures c.codeFields == old_.codeFields
    ensures c.source == if fields.source.Text? then Some(fields.source.s) else old_.source
    ensures c.cellType == if fields.cellType.Text? then Some(fields.cellType.s) else old_.cellType
  {
    Cell(if fields.cellType.Text? then Some(fields.cellType.s) else old_.cellType,
         if fields.source.Text? then Some(fields.source.s) else old_.source,
         old_.codeFields)
  }

  /** Where an `add` puts the new cell: at `index` when 0 <= index <= len, otherwise at the end. */
  function AddPosition(index: Option<int>, len: nat): (p: nat)
    ensures p <= len
    ensures index.Some? && 0 <= index.value <= len ==> p == index.value
    ensures !(index.Some? && 0 <= index.value <= len) ==> p == len
  {
    if index.Some? && 0 <= index.value <= len then index.value else len
  }

  /** An index `update` and `delete` accept. */
  predicate ValidIndex(index: Option<int>, len: nat) {
    index.Some? && 0 <= index.value < len
  }

  function InvalidIndexMessage(index: Option<int>): string {
    "Invalid index: " + (if index.Some? then Numerals.IntToString(index.value) else "None")
  }

  function UnknownActionMessage(action: Option<string>): string {
    "Unknown action: " + action.GetOr("None")
  }

  /** The message Python raises for `cell.get(...)` when the request has no `cell`. */
  const NoCellMessage := "'NoneType' object has no attribute 'get'"

  /** The path the success reply reports. */
  function SavedPath(path: string): string {
    "/" + path
  }

  datatype Saved = Saved(path: string, status: string)

  /** The cell list a request leaves in the notebook, or the error reply it gets (then nothing is saved). */
  function CellsAfter(cells: seq<Cell>, body: PatchBody): (r: Result<seq<Cell>, Reply<Saved>>)
    // add: one more cell, the new one at its position, the others in their order around it
    ensures body.action == Some("add") && body.cell.Some? ==>
      var p := AddPosition(body.index, |cells|);
      r.Success? && |r.value| == |cells| + 1 && r.value[p] == NewCell(body.cell.value) &&
      r.value[..p] == cells[..p] && r.value[p + 1..] == cells[p..]
    // update and delete refuse an index outside the list
    ensures (body.action == Some("update") || body.action == Some("delete")) && !ValidIndex(body.index, |cells|) ==>
      r == Failure(WriteError("INVALID_CELL_INDEX", InvalidIndexMessage(body.index), 400))
    // update: same length, only the indexed cell changes
    ensures body.action == Some("update") && ValidIndex(body.index, |cells|) && body.cell.Some? ==>
      r.Success? && |r.value| == |cells| && r.value[body.index.value] == UpdatedCell(cells[body.index.value], body.cell.value) &&
      forall j :: 0 <= j < |cells| && j != body.index.value ==> r.value[j] == cells[j]
    // delete: exactly the indexed cell is removed, the rest keep their order
    ensures body.action == Some("delete") && ValidIndex(body.index, |cells|) ==>
      r.Success? && |r.value| == |cells| - 1 &&
      r.value[..body.index.value] == cells[..body.index.value] && r.value[body.index.value..] == cells[body.index.value + 1..]
    // an add or an update without a cell object fails inside Python
    ensures (body.action == Some("add") || (body.action == Some("update") && ValidIndex(body.index, |cells|))) && body.cell.None? ==>
      r == Failure(WriteError("INTERNAL_ERROR", NoCellMessage, 500))
    ensures body.action !in {Some("add"), Some("update"), Some("delete")} ==>
      r == Failure(WriteError("VALIDATION_ERROR", UnknownActionMessage(body.action), 400))
  {
    if body.action == Some("add") then
      if body.cell.None? then Failure(WriteError("INTERNAL_ERROR", NoCellMessage, 500))
      else
        var p := AddPosition(body.index, |cells|);
        Success(cells[..p] + [NewCell(body.cell.value)] + cells[p..])
    else if body.action == Some("update") then
      if !ValidIndex(body.index, |cells|) then Failure(WriteError("INVALID_CELL_INDEX", InvalidIndexMessage(body.index), 400))
      else if body.cell.None? then Failure(WriteError("INTERNAL_ERROR", NoCellMessage, 500))
      else Success(cells[body.index.value := UpdatedCell(cells[body.index.value], body.cell.value)])
    else if body.action == Some("delete") then
      if !ValidIndex(body.index, |cells|) then Failure(WriteError("INVALID_CELL_INDEX", InvalidIndexMessage(body.index), 400))
      else Success(cells[..body.index.value] + cells[body.index.value + 1..])
    else Failure(WriteError("VALIDATION_ERROR", UnknownActionMessage(body.action), 400))
  }

  /** Deleting the cell just added at a valid position gives the original list back. */
  lemma AddThenDeleteRestores(cells: seq<Cell>, fields: CellFields, index: int)
    requires 0 <= index <= |cells|
    ensures var added := CellsAfter(cells, PatchBody(Some("add"), Some(fields), Some(index)));
      added.Success? && CellsAfter(added.value, PatchBody(Some("delete"), None, Some(index))) == Success(cells)
  {
    var added := CellsAfter(cells, PatchBody(Some("add"), Some(fields), Some(index))).value;
    assert added == cells[..index] + [NewCell(fields)] + cells[index..];
    assert added[..index] + added[index + 1..] == cells;
  }

  /** An update that gives neither a source nor a type leaves the notebook's cells as they were. */
  lemma EmptyUpdateChangesNothing(cells: seq<Cell>, index: int)
    requires 0 <= index < |cells|
    ensures CellsAfter(cells, PatchBody(Some("update"), Some(CellFields(Missing, JsonNull)), Some(index))) == Success(cells)
  {
    assert cells[index := UpdatedCell(cells[index], CellFields(Missing, JsonNull))] == cells;
  }

  /**
   * A notebook as the contents manager holds it: its path, its type ("notebook" for notebooks) and
   * its saved list of cells.
   */
  class NotebookFile {
    const path: string
    var kind: string
    var cells: seq<Cell>

    constructor(path: string, kind: string, cells: seq<Cell>)
      ensures this.path == path && this.kind == kind && this.cells == cells
    {
      this.path := path;
      this.kind := kind;
      this.cells := cells;
    }

    /**
     * `ContentsCellsHandler.patch`: edit a copy of the cell list, then store it back and save; a
     * refused request saves nothing.
     */
    method Patch(body: PatchBody) returns (reply: Reply<Saved>)
      modifies this
      ensures kind == old(kind)
      // a file that is not a notebook is refused
      ensures old(kind) != "notebook" ==>
        reply == WriteError("VALIDATION_ERROR", "Not a notebook", 400) && cells == old(cells)
      ensures old(kind) == "notebook" ==>
        match CellsAfter(old(cells), body)
        case Success(edited) => cells == edited && reply == WriteSuccess(Saved(SavedPath(path), "updated"))
        case Failure(error) => cells == old(cells) && reply == error
    {
      if kind != "notebook" {
        reply := WriteError("VALIDATION_ERROR", "Not a notebook", 400);
        return;
      }
      var edited := cells;
      if body.action == Some("add") {
        if body.cell.None? {
          reply := WriteError("INTERNAL_ERROR", NoCellMessage, 500);
          return;
        }
        var newCell := NewCell(body.cell.value);
        if body.index.Some? && 0 <= body.index.value <= |edited| {
          edited := edited[..body.index.value] + [newCell] + edited[body.index.value..];
        } else {
          edited := edited + [newCell];
        }
      } else if body.action == Some("update") {
        if body.index.None? || body.index.value < 0 || body.index.value >= |edited| {
          reply := WriteError("INVALID_CELL_INDEX", InvalidIndexMessage(body.index), 400);
          return;
        }
        if body.cell.None? {
          reply := WriteError("INTERNAL_ERROR", NoCellMessage, 500);
          return;
        }
        var i := body.index.value;
        if body.cell.value.source.Text? {
          edited := edited[i := edited[i].(source := Some(body.cell.value.source.s))];
        }
        if body.cell.value.cellType.Text? {
          edited := edited[i := edited[i].(cellType := Some(body.cell.value.cellType.s))];
        }
      } else if body.action == Some("delete") {
        if body.index.None? || body.index.value < 0 || body.index.value >= |edited| {
          reply := WriteError("INVALID_CELL_INDEX", InvalidIndexMessage(body.index), 400);
          return;
        }
        edited := edited[..body.index.value] + edited[body.index.value + 1..];
      } else {
        reply := WriteError("VALIDATION_ERROR", UnknownActionMessage(body.action), 400);
        return;
      }
      cells := edited;
      reply := WriteSuccess(Saved(SavedPath(path), "updated"));
    }
  }
}
