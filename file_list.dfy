/**
 * The `file_list` tool (tools/file-list.ts): list a workspace directory. The directory argument
 * defaults to the root, is validated, then normalised: no parent-directory step, no NUL, leading
 * '/' removed, and the empty result meaning the root "/".
 */
module FileList {
  import opened Wrappers
  import opened JsValues
  import opened JsStrings
  import opened Validation
  import opened JupyterErrors
  import opened Responses

  const ParentStepMessage := "パスに '..' を含めることはできません"
  const IllegalCharMessage := "パスに不正な文字が含まれています"
  const TooLongPathMessage := "パスが長すぎます（最大500文字）"
  const MaxNormalizedLength := 500
  const Root := "/"

  /** `normalizeFilePath(path)`: the normalised directory, or the message it throws. */
  function NormalizeFilePath(path: string): (r: Result<string, string>)
    // refusals, in order: a parent step, a NUL, more than 500 units
    ensures r.Failure? <==> Includes(path, "..") || NUL in path || JsLength(path) > MaxNormalizedLength
    ensures Includes(path, "..") ==> r == Failure(ParentStepMessage)
    ensures !Includes(path, "..") && NUL in path ==> r == Failure(IllegalCharMessage)
    // the result is the root, or a path without a leading '/' that is the input minus its leading slashes
    ensures r.Success? ==>
      r.value == Root ||
      (r.value != "" && r.value[0] != '/' && EndsWith(path, r.value) &&
       forall i :: 0 <= i < |path| - |r.value| ==> path[i] == '/')
    // only slashes (or nothing) normalise to the root
    ensures r.Success? ==> (r.value == Root <==> forall i :: 0 <= i < |path| ==> path[i] == '/')
  {
    if Includes(path, "..") then Failure(ParentStepMessage)
    else if NUL in path then Failure(IllegalCharMessage)
    else if JsLength(path) > MaxNormalizedLength then Failure(TooLongPathMessage)
    else
      var normalized := DropLeadingSlashes(path);
      if normalized == "" then Success(Root)
      else
        assert path[|path| - |normalized|] == normalized[0];
        Success(normalized)
  }

  /** A path made only of slashes, "" and "///" included, names the root. */
  lemma SlashesNameRoot(path: string)
    requires |path| <= MaxNormalizedLength
    requires forall i :: 0 <= i < |path| ==> path[i] == '/'
    ensures NormalizeFilePath(path) == Success(Root)
  {
    forall i | 0 <= i <= |path| - 2 ensures !OccursAt(path, "..", i) {
      assert path[i] == '/';
    }
    assert NUL !in path by {
      forall i | 0 <= i < |path| ensures path[i] != NUL {
        assert path[i] == '/';
      }
    }
    JsLengthBasicPlane(path);
  }

  /** Every check a path passes, its suffix passes too. */
  lemma SuffixPassesChecks(prefix: string, r: string)
    requires !Includes(prefix + r, "..") && NUL !in prefix + r && JsLength(prefix + r) <= MaxNormalizedLength
    ensures !Includes(r, "..") && NUL !in r && JsLength(r) <= MaxNormalizedLength
  {
    if Includes(r, "..") { IncludesInSuffix(prefix, r, ".."); }
    assert NUL !in r by { forall i | 0 <= i < |r| ensures r[i] != NUL { assert r[i] == (prefix + r)[|prefix| + i]; } }
    JsLengthAppend(prefix, r);
  }

  /** A normalised path other than the root is accepted again and left as it is. */
  lemma NormalizedIsFixed(path: string, r: string)
    requires NormalizeFilePath(path) == Success(r) && r != Root
    ensures NormalizeFilePath(r) == Success(r)
  {
    var k := |path| - |r|;
    assert r != "" && r[0] != '/' && EndsWith(path, r);
    assert path == path[..k] + r;
    SuffixPassesChecks(path[..k], r);
    UnslashedIsFixed(r);
  }

  /** An accepted path without a leading '/' normalises to itself. */
  lemma UnslashedIsFixed(r: string)
    requires !Includes(r, "..") && NUL !in r && JsLength(r) <= MaxNormalizedLength
    requires r != "" && r[0] != '/'
    ensures NormalizeFilePath(r) == Success(r)
  {
    assert DropLeadingSlashes(r) == r;
  }

  /** Normalising twice changes nothing: every accepted path normalises to a fixed point. */
  lemma NormalizeIdempotent(path: string)
    requires NormalizeFilePath(path).Success?
    ensures NormalizeFilePath(NormalizeFilePath(path).value) == NormalizeFilePath(path)
  {
    var r := NormalizeFilePath(path).value;
    if r == Root {
      SlashesNameRoot(Root);
    } else {
      NormalizedIsFixed(path, r);
    }
  }

  /** The arguments the tool reads; an omitted one is `Undefined`. */
  datatype FileListArgs = FileListArgs(sessionId: JsValue, path: JsValue)

  /** A directory entry (the size, when sent, is not modelled). */
  datatype ContentItem = ContentItem(name: string, itemType: string, modifiedAt: string)

  /** The success payload: the normalised directory and its entries. */
  datatype Listing = Listing(path: string, contents: seq<ContentItem>)

  const SessionIdOptions := Options(required := true, maxLength := 100, allowEmpty := false, allowNull := true)
  const PathOptions := Options(required := false, maxLength := 100, allowEmpty := true, allowNull := true)

  /** How the `catch` branch answers a thrown error with message `message` and code `code`. */
  function Classify(message: string, code: string): (r: McpResponse<Listing>)
    // a message mentioning '..' is a validation error; any other keeps its code
    ensures Includes(message, "'..'") ==> r == ErrorResponse(VALIDATION_ERROR, message)
    ensures !Includes(message, "'..'") ==> r == ErrorResponse(code, message)
  {
    if Includes(message, "'..'") then ErrorResponse(VALIDATION_ERROR, message) else ErrorResponse(code, message)
  }

  /**
   * `executeFileList(args)`: `listContents` stands for the server, answering for a directory or
   * throwing a client error. A plain `Error` thrown by `normalizeFilePath` has no code (INTERNAL_ERROR).
   */
  function ExecuteFileList(args: FileListArgs, listContents: string -> Result<seq<ContentItem>, ClientError>): (r: McpResponse<Listing>)
    ensures ValidateStringParameter(args.sessionId, "session_id", SessionIdOptions).Invalid? ==>
      r == ValidationFailure(ValidateStringParameter(args.sessionId, "session_id", SessionIdOptions).errorMessage)
    ensures ValidateStringParameter(args.sessionId, "session_id", SessionIdOptions).Valid? && args.path.Str? ==>
      // a directory of more than 100 units is refused before normalisation
      (JsLength(args.path.s) > 100 ==> r == ValidationFailure(TooLongMessage("path", 100))) &&
      // otherwise it is normalised and listed
      (ValidateStringParameter(args.path, "path", PathOptions).Valid? ==>
        match NormalizeFilePath(args.path.s)
        case Failure(message) => r == Classify(message, INTERNAL_ERROR)
        case Success(dir) =>
          match listContents(dir)
          case Success(items) => r == SuccessResponse(Listing(dir, items))
          case Failure(e) => r == Classify(e.message, e.code))
    // a directory the validator refuses (not a string, NUL, too long) gets the validator's message
    ensures (ValidateStringParameter(args.sessionId, "session_id", SessionIdOptions).Valid? &&
             ValidateStringParameter(Coalesce(args.path, Str(Root)), "path", PathOptions).Invalid?) ==>
              r == ValidationFailure(ValidateStringParameter(Coalesce(args.path, Str(Root)), "path", PathOptions).errorMessage)
  {
    ListDirectory(args.sessionId, Coalesce(args.path, Str(Root)), listContents)
  }

  /** The body of `executeFileList` once an omitted or null directory has become the root. */
  function ListDirectory(sessionId: JsValue, path: JsValue, listContents: string -> Result<seq<ContentItem>, ClientError>): McpResponse<Listing>
    requires !path.Undefined? && !path.Null?
  {
    var sessionCheck := ValidateStringParameter(sessionId, "session_id", SessionIdOptions);
    var pathCheck := ValidateStringParameter(path, "path", PathOptions);
    if sessionCheck.Invalid? then ValidationFailure(sessionCheck.errorMessage)
    else if pathCheck.Invalid? then ValidationFailure(pathCheck.errorMessage)
    else
      match NormalizeFilePath(path.s)
      case Failure(message) => Classify(message, INTERNAL_ERROR)
      case Success(dir) =>
        match listContents(dir)
        case Success(items) => SuccessResponse(Listing(dir, items))
        case Failure(e) => Classify(e.message, e.code)
  }

  /** An omitted or null directory means the root. */
  lemma OmittedPathIsRoot(sessionId: JsValue, listContents: string -> Result<seq<ContentItem>, ClientError>)
    ensures ExecuteFileList(FileListArgs(sessionId, Undefined), listContents)
         == ExecuteFileList(FileListArgs(sessionId, Str(Root)), listContents)
    ensures ExecuteFileList(FileListArgs(sessionId, Null), listContents)
         == ExecuteFileList(FileListArgs(sessionId, Str(Root)), listContents)
  {
  }

  /**
   * Validation leaves only the parent-step refusal of `normalizeFilePath` reachable: the NUL and
   * 500-unit checks are already excluded, so a normalisation failure is always a VALIDATION_ERROR.
   */
  lemma NormalizationFailureIsParentStep(sessionId: JsValue, path: string)
    requires ValidateStringParameter(Str(path), "path", PathOptions).Valid?
    requires NormalizeFilePath(path).Failure?
    ensures NormalizeFilePath(path) == Failure(ParentStepMessage)
    ensures Classify(ParentStepMessage, INTERNAL_ERROR) == ValidationFailure(ParentStepMessage)
  {
    var m := ParentStepMessage;
    assert OccursAt(m, "'..'", 4) by { assert m[4..8] == "'..'"; }
  }
}
