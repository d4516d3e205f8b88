/**
 * The `notebook_add_cell` tool (tools/notebook-add-cell.ts): check the notebook path, the cell type,
 * the source and the optional position, then ask the server to add the cell.
 */
module NotebookAddCell {
  import opened Wrappers
  import opened JsValues
  import opened JupyterTypes
  import opened JupyterErrors
  import opened Responses
  import Numerals
  import ServerHandlers

  /** The arguments the tool reads; an omitted one is `Undefined`. */
  datatype AddCellArgs = AddCellArgs(notebookPath: JsValue, cellType: JsValue, source: JsValue, position: JsValue)

  /** The success payload; an absent position is left out of the JSON. */
  datatype CellAdded = CellAdded(notebookPath: string, cellType: string, position: Option<int>, message: string)

  const PathRequiredMessage := "notebook_path パラメータは必須です"
  const CellTypeMessage := "cell_type パラメータは必須で、'code' または 'markdown' である必要があります"
  const SourceRequiredMessage := "source パラメータは必須です"
  const PositionMessage := "position パラメータは 0 以上の数値である必要があります"

  function AddedMessage(notebookPath: string, cellType: string, position: Option<int>): string {
    "ノートブック \"" + notebookPath + "\" の"
      + (if position.Some? then "位置 " + Numerals.IntToString(position.value) + " に" else "末尾に")
      + cellType + " セルを追加しました"
  }

  /** The request for accepted arguments, or the validation response, checked in the source's order. */
  function PlanAddCell(args: AddCellArgs): (r: Result<CellOperationRequest, McpResponse<CellAdded>>)
    ensures !(args.notebookPath.Str? && args.notebookPath.s != "") ==> r == Failure(ValidationFailure(PathRequiredMessage))
    ensures args.notebookPath.Str? && args.notebookPath.s != "" && args.cellType != Str("code") && args.cellType != Str("markdown") ==>
      r == Failure(ValidationFailure(CellTypeMessage))
    // an empty source is refused like a missing one
    ensures (args.notebookPath.Str? && args.notebookPath.s != "" && args.cellType in {Str("code"), Str("markdown")} &&
             !(args.source.Str? && args.source.s != "")) ==> r == Failure(ValidationFailure(SourceRequiredMessage))
    // a given position must be a number and not negative; `null` counts as given
    ensures r.Success? <==>
      args.notebookPath.Str? && args.notebookPath.s != "" && args.cellType in {Str("code"), Str("markdown")} &&
      args.source.Str? && args.source.s != "" && (args.position.Undefined? || (args.position.Num? && args.position.n >= 0))
    ensures r.Failure? ==> r.error.ErrorResponse? && r.error.code == VALIDATION_ERROR
    ensures r.Success? ==>
      r.value == CellOperationRequest("add", Some(CellSpec(args.cellType.s, args.source.s)),
                                      if args.position.Num? then Some(args.position.n) else None)
  {
    if !Truthy(args.notebookPath) || !args.notebookPath.Str? then Failure(ValidationFailure(PathRequiredMessage))
    else if !Truthy(args.cellType) || (args.cellType != Str("code") && args.cellType != Str("markdown")) then
      Failure(ValidationFailure(CellTypeMessage))
    else if !Truthy(args.source) || !args.source.Str? then Failure(ValidationFailure(SourceRequiredMessage))
    else if !args.position.Undefined? && (!args.position.Num? || args.position.n < 0) then Failure(ValidationFailure(PositionMessage))
    else
      Success(CellOperationRequest("add", Some(CellSpec(args.cellType.s, args.source.s)),
                                   if args.position.Num? then Some(args.position.n) else None))
  }

  /**
   * `executeNotebookAddCell(args)`: `operateCell` stands for the server's PATCH on the notebook's
   * cells, succeeding or throwing a client error.
   */
  function ExecuteNotebookAddCell(args: AddCellArgs, operateCell: (string, CellOperationRequest) -> Result<(), ClientError>): (r: McpResponse<CellAdded>)
    ensures PlanAddCell(args).Failure? ==> r == PlanAddCell(args).error
    ensures PlanAddCell(args).Success? ==>
      var request := PlanAddCell(args).value;
      match operateCell(args.notebookPath.s, request)
      case Success(_) =>
        r == SuccessResponse(CellAdded(args.notebookPath.s, args.cellType.s, request.index,
                                       AddedMessage(args.notebookPath.s, args.cellType.s, request.index)))
      case Failure(e) => r == ErrorResponse(e.code, e.message)
  {
    match PlanAddCell(args)
    case Failure(response) => response
    case Success(request) =>
      match operateCell(args.notebookPath.s, request)
      case Success(_) =>
        SuccessResponse(CellAdded(args.notebookPath.s, args.cellType.s, request.index,
                                  AddedMessage(args.notebookPath.s, args.cellType.s, request.index)))
      case Failure(e) => Caught(e)
  }

  /** A refused call never reaches the server. */
  lemma RejectionIgnoresServer(args: AddCellArgs, op1: (string, CellOperationRequest) -> Result<(), ClientError>,
                               op2: (string, CellOperationRequest) -> Result<(), ClientError>)
    requires PlanAddCell(args).Failure?
    ensures ExecuteNotebookAddCell(args, op1) == ExecuteNotebookAddCell(args, op2)
  {
  }

  /** The body the server reads from a request: the cell's two keys are present strings. */
  function AsPatchBody(request: CellOperationRequest): ServerHandlers.PatchBody {
    ServerHandlers.PatchBody(
      Some(request.action),
      match request.cell
      case Some(c) => Some(ServerHandlers.CellFields(ServerHandlers.Text(c.cellType), ServerHandlers.Text(c.source)))
      case None => None,
      request.index)
  }

  /**
   * Across the two halves: a request the tool sends puts a cell of the requested type and source into
   * the notebook, at the requested position when it is within the list and at the end otherwise
   * (then the tool still reports the requested position).
   */
  lemma AcceptedRequestAddsCell(args: AddCellArgs, cells: seq<ServerHandlers.Cell>)
    requires PlanAddCell(args).Success?
    ensures var after := ServerHandlers.CellsAfter(cells, AsPatchBody(PlanAddCell(args).value));
      var p := if args.position.Num? && args.position.n <= |cells| then args.position.n else |cells|;
      after.Success? && |after.value| == |cells| + 1 &&
      after.value[p].cellType == Some(args.cellType.s) && after.value[p].source == Some(args.source.s) &&
      (after.value[p].codeFields.Some? <==> args.cellType == Str("code"))
  {
  }
}
