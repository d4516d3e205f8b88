/**
 * The `get_dataframe_info` tool (tools/get-dataframe-info.ts): validate the handle and the variable
 * name, look the variable up on the resolved kernel, refuse anything that is not a DataFrame, and
 * reshape the DataFrame's columns, dtypes and (optionally) its first rows.
 */
module GetDataframeInfo {
  import opened Wrappers
  import opened JsValues
  import opened JsStrings
  import opened Validation
  import opened JupyterTypes
  import opened JupyterErrors
  import opened Responses
  import opened SessionResolver

  /** The arguments the tool reads; an omitted one is `Undefined`. */
  datatype DataframeArgs = DataframeArgs(sessionId: JsValue, variableName: JsValue, includeHead: JsValue, headRows: JsValue)

  /** The success payload (the `describe` statistics are not modelled). */
  datatype DataframeInfo = DataframeInfo(
    name: string, shape: (int, int), columns: seq<string>, dtypes: map<string, string>,
    head: Option<seq<Row>>, memoryBytes: Option<int>)

  const SessionIdOptions := Options(required := true, maxLength := 200, allowEmpty := false, allowNull := true)
  const VariableNameOptions := Options(required := true, maxLength := 100, allowEmpty := false, allowNull := true)
  const DefaultHeadRows := 5

  /** The variable lookup the tool decides to make: which kernel, which variable. */
  datatype LookupCall = LookupCall(kernelId: string, variableName: string)

  /** The validation chain and, when it passes, the lookup to make. */
  function PlanGetDataframeInfo(args: DataframeArgs, listing: Option<seq<Session>>): (p: Result<LookupCall, McpResponse<DataframeInfo>>)
    ensures p.Failure? ==> p.error.ErrorResponse? && p.error.code == VALIDATION_ERROR
    // the handle is checked first, then the variable name
    ensures ValidateStringParameter(args.sessionId, "session_id", SessionIdOptions).Invalid? ==>
      p == Failure(ValidationFailure(ValidateStringParameter(args.sessionId, "session_id", SessionIdOptions).errorMessage))
    ensures (ValidateStringParameter(args.sessionId, "session_id", SessionIdOptions).Valid? &&
      ValidateStringParameter(args.variableName, "variable_name", VariableNameOptions).Invalid?) ==>
      p == Failure(ValidationFailure(ValidateStringParameter(args.variableName, "variable_name", VariableNameOptions).errorMessage))
    ensures p.Success? <==>
      args.sessionId.Str? && !IsBlank(args.sessionId.s) && JsLength(args.sessionId.s) <= 200 && NUL !in args.sessionId.s &&
      args.variableName.Str? && !IsBlank(args.variableName.s) && JsLength(args.variableName.s) <= 100 && NUL !in args.variableName.s
    // the variable is looked up by name on the resolved kernel
    ensures p.Success? ==> p.value == LookupCall(ResolveKernelId(listing, args.sessionId.s), args.variableName.s)
  {
    var sessionCheck := ValidateStringParameter(args.sessionId, "session_id", SessionIdOptions);
    var nameCheck := ValidateStringParameter(args.variableName, "variable_name", VariableNameOptions);
    if sessionCheck.Invalid? then Failure(ValidationFailure(sessionCheck.errorMessage))
    else if nameCheck.Invalid? then Failure(ValidationFailure(nameCheck.errorMessage))
    else Success(LookupCall(ResolveKernelId(listing, args.sessionId.s), args.variableName.s))
  }

  function NotDataFrameMessage(variableName: string, varType: string): string {
    "Variable '" + variableName + "' is not a DataFrame (type: " + varType + ")"
  }

  /** `columns.map(col => col.name)`. */
  function ColumnNames(columns: seq<Column>): (names: seq<string>)
    ensures |names| == |columns| && forall i :: 0 <= i < |columns| ==> names[i] == columns[i].name
  {
    seq(|columns|, i requires 0 <= i < |columns| => columns[i].name)
  }

  /** `Object.fromEntries(columns.map(col => [col.name, col.dtype]))`: a later column overwrites an earlier one of the same name. */
  function Dtypes(columns: seq<Column>): (dtypes: map<string, string>)
    ensures dtypes.Keys == set c | c in columns :: c.name
  {
    if columns == [] then map[]
    else
      var init := columns[..|columns| - 1];
      var last := columns[|columns| - 1];
      var d := Dtypes(init)[last.name := last.dtype];
      assert columns == init + [last];
      d
  }

  /** Each column name maps to the dtype of the last column carrying it; with distinct names, to its own dtype. */
  lemma {:induction false} DtypeOfLastOccurrence(columns: seq<Column>, i: nat)
    requires i < |columns|
    requires forall j :: i < j < |columns| ==> columns[j].name != columns[i].name
    ensures columns[i].name in Dtypes(columns) && Dtypes(columns)[columns[i].name] == columns[i].dtype
    decreases |columns|
  {
    if i < |columns| - 1 {
      var init := columns[..|columns| - 1];
      assert columns[|columns| - 1].name != columns[i].name;
      DtypeOfLastOccurrence(init, i);
    }
  }

  /** The number `Math.min` sees for `head_rows` (after the default 5): null and false count 0, strings and objects are NaN, which `slice` reads as 0. */
  function HeadRowsNumber(headRows: JsValue): int {
    match headRows
    case Num(n) => n
    case Bool(b) => if b then 1 else 0
    case Undefined => DefaultHeadRows
    case _ => 0
  }

  /** Where `slice(0, end)` stops on a list of `len` elements: a negative end counts back from the end. */
  function SliceEnd(end: int, len: nat): (k: nat)
    ensures k <= len
  {
    if end < 0 then (if len + end < 0 then 0 else len + end)
    else if end > len then len else end
  }

  /** The head as the source computes it: `head.slice(0, Math.min(headRows, head.length))`. */
  function HeadSliceAsWritten(head: seq<Row>, headRows: int): (r: seq<Row>)
    ensures |r| <= |head| && r == head[..|r|]
  {
    head[..SliceEnd(if headRows < |head| then headRows else |head|, |head|)]
  }

  /** A negative `head_rows` does not give an empty head: `slice` counts it back from the end, dropping only the last rows. */
  lemma NegativeHeadRowsDropsTail(head: seq<Row>)
    requires |head| >= 2
    ensures HeadSliceAsWritten(head, -1) == head[..|head| - 1] && HeadSliceAsWritten(head, -1) != []
  {
  }

  /** The head the tool means to return: the first `min(headRows, len)` rows, and none for a non-positive count. */
  function LimitHead(head: seq<Row>, headRows: int): (r: seq<Row>)
    ensures |r| <= |head| && r == head[..|r|]
    ensures |r| == if headRows <= 0 then 0 else if headRows < |head| then headRows else |head|
  {
    if headRows <= 0 then [] else if headRows < |head| then head[..headRows] else head
  }

  /** For every non-negative count the source's slice and the intended prefix agree. */
  lemma LimitHeadAgreesWhenNonNegative(head: seq<Row>, headRows: int)
    requires headRows >= 0
    ensures HeadSliceAsWritten(head, headRows) == LimitHead(head, headRows)
  {
  }

  /** The DataFrame reshaped for the answer. */
  function DataframeResponse(v: VariableDetail, includeHead: JsValue, headRows: JsValue): (info: DataframeInfo)
    ensures info.name == v.name && info.shape == v.shape && info.memoryBytes == v.memoryBytes
    // columns in their original order, dtypes keyed by column name
    ensures info.columns == ColumnNames(v.columns) && info.dtypes == Dtypes(v.columns)
    // a head only when asked for (the default) and sent, cut to the requested number of rows
    ensures info.head.Some? <==> Truthy(WithDefault(includeHead, Bool(true))) && v.head.Some?
    ensures info.head.Some? ==> info.head.value == LimitHead(v.head.value, HeadRowsNumber(headRows))
    // for every non-negative count this is exactly the source's slice; only a negative count differs
    ensures info.head.Some? && HeadRowsNumber(headRows) >= 0 ==>
      info.head.value == HeadSliceAsWritten(v.head.value, HeadRowsNumber(headRows))
  {
    var head := if Truthy(WithDefault(includeHead, Bool(true))) && v.head.Some?
                then Some(LimitHead(v.head.value, HeadRowsNumber(headRows))) else None;
    DataframeInfo(v.name, v.shape, ColumnNames(v.columns), Dtypes(v.columns), head, v.memoryBytes)
  }

  /** By default a head of at most five rows is included. */
  lemma DefaultHeadIsFiveRows(v: VariableDetail)
    requires v.head.Some?
    ensures var info := DataframeResponse(v, Undefined, Undefined);
      info.head.Some? && info.head.value == v.head.value[..if |v.head.value| < 5 then |v.head.value| else 5]
  {
  }

  /**
   * `executeGetDataframeInfo(args)`: `listing` is what listing the sessions produced (`None` if it
   * failed) and `getVariable` stands for the server, answering for a kernel id and a variable name.
   */
  function ExecuteGetDataframeInfo(args: DataframeArgs, listing: Option<seq<Session>>,
                                   getVariable: (string, string) -> Result<VariableDetail, ClientError>): (r: McpResponse<DataframeInfo>)
    ensures PlanGetDataframeInfo(args, listing).Failure? ==> r == PlanGetDataframeInfo(args, listing).error
    ensures PlanGetDataframeInfo(args, listing).Success? ==>
      var call := PlanGetDataframeInfo(args, listing).value;
      match getVariable(call.kernelId, call.variableName)
      case Failure(e) => r == ErrorResponse(e.code, e.message)
      // anything but a DataFrame is refused, naming the variable and its type
      case Success(v) =>
        if v.varType != "DataFrame" then r == ErrorResponse(INVALID_VARIABLE_TYPE, NotDataFrameMessage(call.variableName, v.varType))
        else r == SuccessResponse(DataframeResponse(v, args.includeHead, args.headRows))
  {
    match PlanGetDataframeInfo(args, listing)
    case Failure(response) => response
    case Success(call) =>
      match getVariable(call.kernelId, call.variableName)
      case Failure(e) => Caught(e)
      case Success(v) =>
        if v.varType != "DataFrame" then ErrorResponse(INVALID_VARIABLE_TYPE, NotDataFrameMessage(call.variableName, v.varType))
        else SuccessResponse(DataframeResponse(v, args.includeHead, args.headRows))
  }
}
