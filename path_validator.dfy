/**
 * The notebook-path check (utils/path-validator.ts): a relative path to a `.ipynb` file, with no
 * parent-directory step, no NUL and at most 255 UTF-16 units. The checks run in a fixed order and
 * the first one that fails names the error.
 */
module PathValidator {
  import opened Wrappers
  import opened JsStrings
  import opened Validation

  const EmptyPathMessage := "パスが空です"
  const ParentStepMessage := "パスに '..' を含めることはできません"
  const AbsolutePathMessage := "絶対パスは使用できません"
  const IllegalCharMessage := "パスに不正な文字が含まれています"
  const NotNotebookMessage := "ノートブックパスは '.ipynb' で終わる必要があります"
  const TooLongMessage := "パスが長すぎます（最大255文字）"
  const MaxPathLength := 255

  /** `validateNotebookPath(path)`: `None` when it returns, `Some(message)` when it throws. */
  function ValidateNotebookPath(path: string): (err: Option<string>)
    // a path is accepted exactly when it passes every check
    ensures err.None? <==>
      !IsBlank(path) && !Includes(path, "..") && !StartsWith(path, "/") && NUL !in path &&
      EndsWith(path, ".ipynb") && JsLength(path) <= MaxPathLength
    // the first failing check decides the message
    ensures IsBlank(path) ==> err == Some(EmptyPathMessage)
    ensures !IsBlank(path) && Includes(path, "..") ==> err == Some(ParentStepMessage)
    ensures !IsBlank(path) && !Includes(path, "..") && StartsWith(path, "/") ==> err == Some(AbsolutePathMessage)
    ensures !IsBlank(path) && !Includes(path, "..") && !StartsWith(path, "/") && NUL in path ==>
      err == Some(IllegalCharMessage)
    ensures (!IsBlank(path) && !Includes(path, "..") && !StartsWith(path, "/") && NUL !in path &&
      !EndsWith(path, ".ipynb")) ==> err == Some(NotNotebookMessage)
    ensures (!IsBlank(path) && !Includes(path, "..") && !StartsWith(path, "/") && NUL !in path &&
      EndsWith(path, ".ipynb") && JsLength(path) > MaxPathLength) ==> err == Some(TooLongMessage)
  {
    TrimEmptyIffBlank(path);
    if path == "" || Trim(path) == "" then Some(EmptyPathMessage)
    else if Includes(path, "..") then Some(ParentStepMessage)
    else if StartsWith(path, "/") then Some(AbsolutePathMessage)
    else if NUL in path then Some(IllegalCharMessage)
    else if !EndsWith(path, ".ipynb") then Some(NotNotebookMessage)
    else if JsLength(path) > MaxPathLength then Some(TooLongMessage)
    else None
  }

  /** An absolute path with a parent step is reported for the parent step, the earlier check. */
  lemma ParentStepReportedFirst()
    ensures ValidateNotebookPath("/../a.ipynb") == Some(ParentStepMessage)
  {
    assert OccursAt("/../a.ipynb", "..", 1);
    assert !IsJsWhitespace("/../a.ipynb"[0]);
  }

  /** A character of a plain relative path: a lower-case letter or a '/'. */
  predicate PlainChar(c: char) {
    'a' <= c <= 'z' || c == '/'
  }

  /** A stem of plain characters that starts with a letter, with ".ipynb" appended, passes every check but the length. */
  lemma PlainPathChecks(stem: string)
    requires stem != [] && 'a' <= stem[0] <= 'z'
    requires forall i :: 0 <= i < |stem| ==> PlainChar(stem[i])
    ensures var path := stem + ".ipynb";
      !IsBlank(path) && !Includes(path, "..") && !StartsWith(path, "/") && NUL !in path &&
      EndsWith(path, ".ipynb") && JsLength(path) == |path|
  {
    var path := stem + ".ipynb";
    assert !IsBlank(path) by {
      assert path[0] == stem[0];
    }
    assert !Includes(path, "..") by {
      forall i | 0 <= i <= |path| - 2
        ensures !OccursAt(path, "..", i)
      {
        if i < |stem| { assert path[i] == stem[i]; } else { assert path[i + 1] != '.'; }
      }
    }
    assert !StartsWith(path, "/") by {
      assert path[0] == stem[0];
    }
    assert NUL !in path && forall i :: 0 <= i < |path| ==> path[i] as int <= 0xFFFF by {
      forall i | 0 <= i < |path| ensures path[i] != NUL && path[i] as int <= 0xFFFF {
        if i < |stem| { assert path[i] == stem[i]; }
      }
    }
    assert EndsWith(path, ".ipynb") by {
      assert path[|path| - 6..] == ".ipynb";
    }
    JsLengthBasicPlane(path);
  }

  /** A plain relative notebook path of at most 255 characters is accepted. */
  lemma PlainPathAccepted(stem: string)
    requires stem != [] && 'a' <= stem[0] <= 'z' && |stem| <= MaxPathLength - 6
    requires forall i :: 0 <= i < |stem| ==> PlainChar(stem[i])
    ensures ValidateNotebookPath(stem + ".ipynb").None?
  {
    PlainPathChecks(stem);
  }

  /**
   * The length check comes last: a plain path long enough to exceed 255 characters passes every
   * other check and is reported too long.
   */
  lemma LongPathReportedTooLong(stem: string)
    requires stem != [] && 'a' <= stem[0] <= 'z' && |stem| > MaxPathLength - 6
    requires forall i :: 0 <= i < |stem| ==> PlainChar(stem[i])
    ensures ValidateNotebookPath(stem + ".ipynb") == Some(TooLongMessage)
  {
    var path := stem + ".ipynb";
    PlainPathChecks(stem);
    TrimEmptyIffBlank(path);
    assert path != "" && Trim(path) != "";
    assert JsLength(path) > MaxPathLength;
  }
}
