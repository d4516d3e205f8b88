/**
 * The records jupyter-server returns that the adapter inspects (jupyter-client/types.ts): kernels
 * and notebook sessions. Only the fields the modelled code reads are kept.
 */
module JupyterTypes {
  import opened Wrappers

  /** A kernel as listed or created: its id, kernel name, status and start time. */
  datatype Kernel = Kernel(id: string, name: string, status: string, startedAt: string)

  /** The kernel a notebook session is attached to. */
  datatype SessionKernel = SessionKernel(id: string, name: string, executionState: string)

  /** A notebook session: a session id, the notebook path and name, and its kernel. */
  datatype Session = Session(id: string, path: string, name: string, kernel: SessionKernel)

  /** `{ code, timeout? }`: the body of an execute request; the timeout is in seconds. */
  datatype ExecuteRequest = ExecuteRequest(code: string, timeout: Option<int>)

  /** One captured stream chunk: `type` is the stream name ("stdout" or "stderr"). */
  datatype Output = Output(stream: string, text: string)

  /** An image captured from the kernel's rich output: `data` is base64 text. */
  datatype ImageOutput = ImageOutput(id: string, mimeType: string, data: string, width: Option<int>, height: Option<int>)

  /** A Python exception raised by the executed code. */
  datatype ExecutionError = ExecutionError(errorType: string, message: string, traceback: seq<string>)

  /** What the server answers for an execute request. `result` is the `text/plain` form of the last value. */
  datatype ExecuteResult = ExecuteResult(
    success: bool, executionCount: int, outputs: seq<Output>, result: Option<string>,
    images: seq<ImageOutput>, executionTimeMs: int, error: Option<ExecutionError>)

  /** An entry of a kernel's variable listing (its value, when sent, is not modelled). */
  datatype Variable = Variable(name: string, varType: string, size: Option<string>, memoryBytes: Option<int>)

  /** A DataFrame column and its dtype. */
  datatype Column = Column(name: string, dtype: string)

  /** A DataFrame row, each cell shown as text. */
  type Row = map<string, string>

  /**
   * The details of one variable. The DataFrame fields are meaningful only when `varType` is
   * "DataFrame"; `head` is absent when the server did not send one.
   */
  datatype VariableDetail = VariableDetail(
    name: string, varType: string, memoryBytes: Option<int>,
    shape: (int, int), columns: seq<Column>, head: Option<seq<Row>>)

  /** The cell of a cell operation request: its type and its source. */
  datatype CellSpec = CellSpec(cellType: string, source: string)

  /** A cell operation: "add", "update" or "delete", the cell, and the index (absent means the end for "add"). */
  datatype CellOperationRequest = CellOperationRequest(action: string, cell: Option<CellSpec>, index: Option<int>)
}
