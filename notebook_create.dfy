/**
 * The `notebook_create` tool (tools/notebook-create.ts): derive the notebook's file name and full
 * path from `name` and the directory `path`, and ask the server to create it.
 */
module NotebookCreate {
  import opened Wrappers
  import opened JsValues
  import opened JsStrings
  import opened JupyterErrors
  import opened Responses

  const Extension := ".ipynb"

  /** The notebook's file name: `name`, with ".ipynb" appended unless it already ends so. */
  function NotebookName(name: string): (n: string)
    ensures EndsWith(n, Extension)
    ensures EndsWith(name, Extension) ==> n == name
    ensures !EndsWith(name, Extension) ==> n == name + Extension
  {
    if EndsWith(name, Extension) then name
    else
      assert (name + Extension)[|name|..] == Extension;
      name + Extension
  }

  /** Naming is idempotent: a notebook name is its own name. */
  lemma NotebookNameIdempotent(name: string)
    ensures NotebookName(NotebookName(name)) == NotebookName(name)
  {
  }

  /** Dropping the extension that was added gives the name back. */
  lemma NotebookNameInvertible(name: string)
    requires !EndsWith(name, Extension)
    ensures NotebookName(name)[..|name|] == name
  {
  }

  /** The directory with exactly one '/' guaranteed at its end. */
  function WithTrailingSlash(path: string): (d: string)
    ensures EndsWith(d, "/") && StartsWith(d, path)
    ensures EndsWith(path, "/") ==> d == path
  {
    if EndsWith(path, "/") then path
    else
      assert (path + "/")[..|path|] == path;
      path + "/"
  }

  /** The path handed to the server: the name alone in the root, else the directory, a '/', the name. */
  function FullPath(path: string, notebookName: string): (full: string)
    ensures path == "/" || path == "" ==> full == notebookName
    ensures path != "/" && path != "" ==> full == WithTrailingSlash(path) + notebookName && StartsWith(full, path)
    ensures EndsWith(full, notebookName)
  {
    var dir := WithTrailingSlash(path);
    if dir == "/" then notebookName
    else
      assert (dir + notebookName)[..|path|] == dir[..|path|];
      assert (dir + notebookName)[|dir + notebookName| - |notebookName|..] == notebookName;
      dir + notebookName
  }

  /** The arguments the tool reads; an omitted one is `Undefined`. */
  datatype NotebookCreateArgs = NotebookCreateArgs(name: JsValue, path: JsValue)

  /** What the server answers for a created file. */
  datatype Created = Created(path: string, createdAt: string)

  /** The success payload. */
  datatype NotebookCreated = NotebookCreated(path: string, createdAt: string, message: string)

  const NameRequiredMessage := "name パラメータは必須です"

  /** The message of the `TypeError` thrown when the directory is not a string and has no `endsWith`. */
  const PathNotStringMessage := "path.endsWith is not a function"

  function CreatedMessage(notebookName: string): string {
    "ノートブック \"" + notebookName + "\" を作成しました"
  }

  /**
   * `executeNotebookCreate(args)`: `createNotebook` stands for the server, answering for a full
   * path or throwing a client error.
   */
  function ExecuteNotebookCreate(args: NotebookCreateArgs, createNotebook: string -> Result<Created, ClientError>): (r: McpResponse<NotebookCreated>)
    // a missing, empty or non-string name is refused before anything else
    ensures !(args.name.Str? && args.name.s != "") ==> r == ValidationFailure(NameRequiredMessage)
    // the directory defaults to the root
    ensures args.name.Str? && args.name.s != "" && (args.path.Undefined? || args.path.Null?) ==>
      match createNotebook(NotebookName(args.name.s))
      case Success(c) => r == SuccessResponse(NotebookCreated(c.path, c.createdAt, CreatedMessage(NotebookName(args.name.s))))
      case Failure(e) => r == ErrorResponse(e.code, e.message)
    ensures args.name.Str? && args.name.s != "" && args.path.Str? ==>
      match createNotebook(FullPath(args.path.s, NotebookName(args.name.s)))
      case Success(c) => r == SuccessResponse(NotebookCreated(c.path, c.createdAt, CreatedMessage(NotebookName(args.name.s))))
      case Failure(e) => r == ErrorResponse(e.code, e.message)
    // a directory that is not a string makes the path construction throw
    ensures args.name.Str? && args.name.s != "" && !(args.path.Undefined? || args.path.Null? || args.path.Str?) ==>
      r == ErrorResponse(INTERNAL_ERROR, PathNotStringMessage)
  {
    var path := Coalesce(args.path, Str("/"));
    if !Truthy(args.name) || !args.name.Str? then ValidationFailure(NameRequiredMessage)
    else if !path.Str? then ErrorResponse(INTERNAL_ERROR, PathNotStringMessage)
    else
      var notebookName := NotebookName(args.name.s);
      match createNotebook(FullPath(path.s, notebookName))
      case Success(c) => SuccessResponse(NotebookCreated(c.path, c.createdAt, CreatedMessage(notebookName)))
      case Failure(e) => Caught(e)
  }

  /** In the root, a bare name gains the extension and nothing else. */
  lemma RootExample()
    ensures FullPath("/", NotebookName("analysis")) == "analysis.ipynb"
  {
    assert "analysis"[8 - 6..] != Extension by { assert "analysis"[2] != Extension[0]; }
    assert NotebookName("analysis") == "analysis.ipynb";
  }

  /** A directory without a trailing '/' gains one; a name with the extension is kept. */
  lemma DirectoryExample()
    ensures FullPath("work", NotebookName("a.ipynb")) == "work/a.ipynb"
  {
    assert "a.ipynb"[1..] == Extension;
    assert NotebookName("a.ipynb") == "a.ipynb";
    assert "work"[3..] != "/" by { assert "work"[3] == 'k'; }
    assert WithTrailingSlash("work") == "work/";
  }
}
