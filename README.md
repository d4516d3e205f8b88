# Jupyter data-analysis adapter, modelled in Dafny

The system is an MCP adapter (`jupyter-mcp`, TypeScript) that lets an AI client run Python in Jupyter
kernels, inspect variables and DataFrames, manage notebooks and fetch plots, plus a Jupyter server
extension (`jupyter-server`, Python) that the adapter calls over HTTP. This project models the decision
logic and bookkeeping of both halves and proves what they promise:

- **Image locators** (`UriUtils`): the `jupyter://sessions/<session>/images/<id>.<ext>` codec, its MIME
  table and the anchored extraction pattern, with the build-then-extract round trip.
- **Image store** (`ImageStore`): a class whose fields are the image map, the insertion order of its
  keys (a JavaScript `Map` iterates in that order) and the per-session counters. `Store`,
  `ListBySession` and `DeleteBySession` are methods with loops, proved against specification
  functions. A class invariant says that each session's images are labelled `matplotlib output [1]`,
  `[2]` and so on, with no gap.
- **Image resources and the image tool** (`ImageResources`, `GetImageResource`): the resource listing
  with its prefix filter, the resource read, and the tool accessor. These are shown to agree with each
  other and with the store.
- **Session handles** (`SessionResolver`, `SessionFormatter`): resolving a handle to a kernel id, and the
  kernel-to-session mapping that makes the fallback sound.
- **Client errors** (`JupyterErrors`, `JupyterClient`): the error kinds with their fixed codes and
  statuses, `createErrorFromResponse`, the `handleError` decision list, the session look-ups and the
  request-timeout arithmetic.
- **Tool handlers** (`Validation`, `PathValidator`, `FileList`, `NotebookCreate`, `NotebookAddCell`,
  `ExecuteCode`, `GetVariables`, `GetDataframeInfo`, `SessionConnect`, `SessionDelete`):
  - the ordered validation chains, and for each the exact set of inputs it accepts;
  - the request each tool sends;
  - the shaping of the reply.
- **Server extension** (`ServerHandlers`, `KernelExecutor`):
  - the reply envelopes;
  - the checks of the execute endpoint;
  - the cell add/update/delete of the cells PATCH endpoint, as a `NotebookFile` class whose `Patch`
    method edits its cell list;
  - the iopub message loop of `KernelExecutor.execute`, as a `while` method proved against a fold over
    the messages.
- **Cross-stack lemmas**:
  - an error reply from the server reaches the adapter as the error `createErrorFromResponse` builds;
  - an add-cell request the tool sends puts the requested cell into the notebook.

Backend calls (session listing, code execution, variable look-up, contents operations) are function
parameters or inputs. A failed call is a `Failure` carrying the client error it would throw.
JavaScript values whose type is checked at run time are a small `JsValue` datatype with JavaScript
truthiness. String lengths are UTF-16 code units, as `.length` counts them.

## Model

| member | source | states |
|---|---|---|
| UriUtils.ExtensionFromMimeType | jupyter-mcp/src/image-store/uri-utils.ts:25-34 | png, jpeg, svg+xml and gif map to png, jpg, svg and gif; every other MIME type gives "png"; the extension is never empty and holds no '.' or '/' |
| UriUtils.BuildResourceUri | jupyter-mcp/src/image-store/uri-utils.ts:44-47 | the locator is the scheme, the session, "images/", the id, a dot and the MIME type's extension, so it always starts with "jupyter://sessions/" |
| UriUtils.BuildResourceUriFromImage | jupyter-mcp/src/image-store/uri-utils.ts:55-57 | an image's locator is the one built from its session, id and MIME type |
| UriUtils.ExtractImageIdFromUri | jupyter-mcp/src/image-store/uri-utils.ts:65-68 | any id returned is non-empty and dot-free, and the input has the anchored pattern's shape with that id |
| UriUtils.ExtractIffMatches | jupyter-mcp/src/image-store/uri-utils.ts:17 | extraction yields an id exactly when the string matches the pattern with that id: a session without '/', a dot-free id and a dot-free extension |
| UriUtils.RoundTrip | jupyter-mcp/src/image-store/uri-utils.ts:44-68 | for a session without '/' and an id without '.', extracting from a built locator returns the id |
| UriUtils.SessionAndExtensionIgnored | jupyter-mcp/src/image-store/uri-utils.ts:17 | locators that differ only in the session segment or the extension extract the same id |
| UriUtils.RejectsSecondDot | jupyter-mcp/src/image-store/uri-utils.ts:17 | a tail after "images/" with two dots is rejected |
| UriUtils.RejectedExamples | jupyter-mcp/src/image-store/uri-utils.ts:65-68 | the empty string, a wrong scheme, a missing images segment and a missing extension give no id |
| UriUtils.AcceptedExample | jupyter-mcp/src/image-store/uri-utils.ts:65-68 | the locator of img-2 as an svg yields "img-2" |
| ImageStore.DescriptionInjective | jupyter-mcp/src/image-store/index.ts:46 | different ordinals give different descriptions |
| ImageStore.NumberedAt | jupyter-mcp/src/image-store/index.ts:35-46 | the i-th label of a session numbered up to n is "matplotlib output [i+1]" |
| ImageStore.StoreKeepsInv | jupyter-mcp/src/image-store/index.ts:35-60 | adding an image under a fresh id with the next description appends it to the listing and keeps the invariant |
| ImageStore.DeleteKeepsInv | jupyter-mcp/src/image-store/index.ts:109-126 | removing exactly a session's keys and its counter deletes that session's images from the listing, keeps the rest in order and keeps the invariant |
| ImageStore.DeleteSessionKeys | jupyter-mcp/src/image-store/index.ts:111-125 | the keys collected in key order are exactly the keys of that session's images, and deleting them keeps the invariant |
| ImageStore.DeleteUnknownSessionChangesNothing | jupyter-mcp/src/image-store/index.ts:109-126 | for a session without images, no key is collected and the session has no counter, so deleting it changes nothing |
| ImageStore.ImageStore.constructor | jupyter-mcp/src/image-store/index.ts:18-21 | the store starts empty, with no counters, and satisfies the invariant |
| ImageStore.ImageStore.Store | jupyter-mcp/src/image-store/index.ts:30-68 | adds exactly one image, with the supplied fields and the session's next description, at the end of the insertion order; only that session's counter moves, by one; the reply holds the built locator, the MIME type and the same description |
| ImageStore.ImageStore.Get | jupyter-mcp/src/image-store/index.ts:76-84 | yields nothing exactly when the locator is malformed or its id is not stored; otherwise the stored image with the extracted id, whatever the session segment |
| ImageStore.ImageStore.StoredIsRetrievable | jupyter-mcp/src/image-store/index.ts:49-84 | the locator built for a stored image leads back to exactly that image |
| ImageStore.ImageStore.ListedIsStored | jupyter-mcp/src/image-store/index.ts:60 | every listed image is the one stored under its own id |
| ImageStore.ImageStore.InListAll | jupyter-mcp/src/image-store/index.ts:60 | every stored image is listed |
| ImageStore.ImageStore.ListBySession | jupyter-mcp/src/image-store/index.ts:92-102 | returns exactly the session's images in insertion order; their number is the session's counter, and they are labelled [1] up to it |
| ImageStore.ImageStore.SessionImageIds | jupyter-mcp/src/image-store/index.ts:111-117 | collects, in key order, exactly the ids whose image belongs to the session |
| ImageStore.ImageStore.DeleteImages | jupyter-mcp/src/image-store/index.ts:120-122 | removes exactly the given ids from the map and the key order and leaves the counters alone |
| ImageStore.ImageStore.DeleteBySession | jupyter-mcp/src/image-store/index.ts:109-126 | removes exactly the session's images, keeps all others in order, clears only that counter (so the next store is numbered [1]) and keeps the invariant |
| ImageStore.ImageStore.DeletedSessionIsEmpty | jupyter-mcp/src/image-store/index.ts:109-126 | after the deletion the session lists nothing and every other session lists what it did before |
| ImageResources.ResourceOf | jupyter-mcp/src/resources/images.ts:52-62 | an entry's uri is the image's locator; its name and description are the image's description; its MIME type is the image's |
| ImageResources.WithPrefixMembers | jupyter-mcp/src/resources/images.ts:44-49 | an image survives the filter exactly when its rebuilt locator starts with the prefix |
| ImageResources.WithSharedPrefix | jupyter-mcp/src/resources/images.ts:44-49 | a prefix that every image's locator starts with filters nothing out |
| ImageResources.WithEmptyPrefix | jupyter-mcp/src/resources/images.ts:44-49 | the empty prefix filters nothing out |
| ImageResources.Resources | jupyter-mcp/src/resources/images.ts:52-62 | one entry per image, in the same order |
| ImageResources.ListResources | jupyter-mcp/src/resources/images.ts:39-65 | without a prefix (or with an empty one) one entry per stored image in store order; with a prefix only the matching images, in order |
| ImageResources.ListedIffPrefix | jupyter-mcp/src/resources/images.ts:44-62 | an image's entry is listed under a prefix when its locator starts with it, and every listed entry comes from such a stored image |
| ImageResources.ReadResource | jupyter-mcp/src/resources/images.ts:74-92 | fails with "Image not found: uri" exactly when the store finds nothing, malformed or unknown alike; otherwise one item with the uri, the MIME type and the stored data |
| ImageResources.ListedIsReadable | jupyter-mcp/src/resources/images.ts:52-92 | for a session without '/' and a dot-free id, every listed uri reads back the image's MIME type and data |
| GetImageResource.CheckUri | jupyter-mcp/src/tools/get-image-resource.ts:32-36 | accepts exactly a non-blank string of at most 500 units without NUL |
| GetImageResource.ExecuteGetImageResource | jupyter-mcp/src/tools/get-image-resource.ts:26-79 | a rejected argument gives VALIDATION_ERROR without a lookup; a valid but malformed or unknown locator gives NOT_FOUND naming it; otherwise the stored image's MIME type, data, width and height; the store is only read |
| GetImageResource.AgreesWithReadResource | jupyter-mcp/src/tools/get-image-resource.ts:50-65 | the tool succeeds on a valid locator exactly when the resource read does, and returns the same data |
| SessionResolver.ResolveKernelId | jupyter-mcp/src/utils/session-resolver.ts:17-36 | a failed listing or an unmatched handle gives the handle back; otherwise the kernel of a session with that id |
| SessionResolver.ResolvesToFirstMatch | jupyter-mcp/src/utils/session-resolver.ts:20-26 | the kernel is that of the first session whose id matches |
| SessionResolver.HandleOrListedKernel | jupyter-mcp/src/utils/session-resolver.ts:17-36 | the result is the handle or the kernel of a listed session |
| SessionResolver.KernelHandleResolvesToKernel | jupyter-mcp/src/utils/session-resolver.ts:28-30 | the handle handed out for a kernel-only session resolves to that kernel, since only session ids are compared |
| SessionFormatter.KernelToSessionInfo | jupyter-mcp/src/utils/session-formatter.ts:25-41 | session and kernel ids are both the kernel's id; status and creation time are copied; the kernel name is present exactly when asked for |
| SessionFormatter.KernelRecoverable | jupyter-mcp/src/utils/session-formatter.ts:25-41 | with the default flag the kernel can be rebuilt from its session record |
| SessionFormatter.KernelsToSessionList | jupyter-mcp/src/utils/session-formatter.ts:50-57 | same length and order, each kernel mapped as above |
| SessionFormatter.ListedHandlesAreKernelIds | jupyter-mcp/src/utils/session-formatter.ts:50-57 | every listed handle is its kernel's id |
| ExecuteCode.CheckCode | jupyter-mcp/src/tools/execute-code.ts:76-104 | accepts exactly a string of at most 1,000,000 units without NUL; the empty string passes |
| ExecuteCode.CheckTimeout | jupyter-mcp/src/tools/execute-code.ts:107-128 | accepts exactly an omitted timeout or a number with 0 < t <= 300 |
| ExecuteCode.PlanExecuteCode | jupyter-mcp/src/tools/execute-code.ts:55-146 | the call is made exactly when session id, code and timeout all pass, checked in that order, each failure stated with its own message (the session id's, the code's, the timeout's); it runs the defaulted code and timeout on the resolved kernel |
| ExecuteCode.OmittedArgumentsDefault | jupyter-mcp/src/tools/execute-code.ts:58 | omitted code and timeout run "" with 30 seconds |
| ExecuteCode.StreamTextsMembers | jupyter-mcp/src/tools/execute-code.ts:151-158 | a text is among a stream's texts exactly when some chunk of that stream carries it; StreamTextsAppend adds that the order is kept |
| ExecuteCode.JoinAppend | jupyter-mcp/src/tools/execute-code.ts:151-158 | joining distributes over concatenation |
| ExecuteCode.StreamTextsAppend | jupyter-mcp/src/tools/execute-code.ts:151-158 | filtering a stream's texts distributes over concatenation |
| ExecuteCode.JoinStreamAppend | jupyter-mcp/src/tools/execute-code.ts:151-158 | a stream's joined text over two runs of output is the two joined texts in order |
| ExecuteCode.StreamsCoverAllText | jupyter-mcp/src/tools/execute-code.ts:151-158 | when every chunk is stdout or stderr, the two joined streams hold every character |
| ExecuteCode.ShapeExecuteResult | jupyter-mcp/src/tools/execute-code.ts:149-187 | success joins the stdout and stderr texts in order and passes result, images and time through; failure reports the error type (EXECUTION_ERROR when empty) and message verbatim, or EXECUTION_ERROR without an error object; a thrown client error keeps its code and message |
| ExecuteCode.ExecuteExecuteCode | jupyter-mcp/src/tools/execute-code.ts:55-188 | a rejected argument is answered by its validation error; otherwise the shaped result of running the planned call |
| ExecuteCode.RejectionIgnoresServer | jupyter-mcp/src/tools/execute-code.ts:60-128 | when a check fails the answer is a VALIDATION_ERROR and does not depend on the backend |
| GetVariables.ExecuteGetVariables | jupyter-mcp/src/tools/get-variables.ts:53-91 | an invalid handle gives its validation error; a valid one is a non-blank string of at most 200 units, and the resolved kernel's variables come back unchanged or the client's error |
| GetVariables.UnknownHandleIsKernelId | jupyter-mcp/src/tools/get-variables.ts:29-48 | a handle that names no session is used as the kernel id |
| GetDataframeInfo.PlanGetDataframeInfo | jupyter-mcp/src/tools/get-dataframe-info.ts:38-81 | the look-up goes ahead exactly when both arguments pass, handle first, each failure carrying that argument's validation message; it uses the resolved kernel and the variable name |
| GetDataframeInfo.ColumnNames | jupyter-mcp/src/tools/get-dataframe-info.ts:117 | the column names in their original order |
| GetDataframeInfo.Dtypes | jupyter-mcp/src/tools/get-dataframe-info.ts:118-120 | the keys are exactly the column names |
| GetDataframeInfo.DtypeOfLastOccurrence | jupyter-mcp/src/tools/get-dataframe-info.ts:118-120 | each name maps to the dtype of its last column, as `Object.fromEntries` keeps the last entry |
| GetDataframeInfo.HeadSliceAsWritten | jupyter-mcp/src/tools/get-dataframe-info.ts:128-131 | the slice as written is always a prefix of the head |
| GetDataframeInfo.NegativeHeadRowsDropsTail | jupyter-mcp/src/tools/get-dataframe-info.ts:128-131 | head_rows = -1 keeps all rows but the last, not none |
| GetDataframeInfo.LimitHead | jupyter-mcp/src/tools/get-dataframe-info.ts:126-133 | the head is the prefix of length min(head_rows, len), and empty for head_rows <= 0 |
| GetDataframeInfo.LimitHeadAgreesWhenNonNegative | jupyter-mcp/src/tools/get-dataframe-info.ts:128-131 | for head_rows >= 0 the corrected head is the slice as written |
| GetDataframeInfo.DataframeResponse | jupyter-mcp/src/tools/get-dataframe-info.ts:95-133 | name, shape and memory copied; columns and dtypes from the columns; a head only when include_head holds (default true) and one was sent, cut by the corrected LimitHead; for every head_rows >= 0 that head is exactly the source's slice |
| GetDataframeInfo.DefaultHeadIsFiveRows | jupyter-mcp/src/tools/get-dataframe-info.ts:30-35 | with both options omitted the head is the first five rows |
| GetDataframeInfo.ExecuteGetDataframeInfo | jupyter-mcp/src/tools/get-dataframe-info.ts:27-142 | invalid arguments are refused before any look-up; anything but a DataFrame gives INVALID_VARIABLE_TYPE naming the variable and its type; otherwise the shaped response; the head is the one DataframeResponse states |
| SessionConnect.CheckArguments | jupyter-mcp/src/tools/session-connect.ts:32-63 | neither argument gives the "one of the two" error; otherwise passes exactly when every given argument is a non-blank string within its limit (500 for the path, 100 for the kernel) without NUL, the path checked first, and a refused argument gives its own validation message |
| SessionConnect.ExecuteSessionConnect | jupyter-mcp/src/tools/session-connect.ts:26-101 | with a path the lookup is by path alone, otherwise by kernel id; no match gives SESSION_NOT_FOUND naming what was asked; a match gives its ids, path and state with connected true |
| SessionConnect.ConnectedToListedSession | jupyter-mcp/src/tools/session-connect.ts:65-94 | a successful connection describes a listed session that matches the path up to a leading '/', or the kernel id |
| SessionConnect.PathTakesPrecedence | jupyter-mcp/src/tools/session-connect.ts:68-86 | with a path given, the kernel id makes no difference |
| SessionDelete.CheckHandle | jupyter-mcp/src/tools/session-delete.ts:27-63 | accepts exactly a non-blank string of at most 100 units without NUL |
| SessionDelete.SameAsSharedValidation | jupyter-mcp/src/tools/session-delete.ts:27-63 | the hand-written chain gives the same messages, in the same order, as the shared validator |
| SessionDelete.ExecuteSessionDelete | jupyter-mcp/src/tools/session-delete.ts:21-79 | a rejected handle gives its validation error; otherwise the handle itself names the kernel to delete, and the reply carries the server's id and status or the client's error |
| Validation.ValidateStringParameter | jupyter-mcp/src/utils/validation.ts:21-88 | valid exactly when the value is absent and allowed to be, or a string that is non-blank (or empty where allowed), within maxLength and free of NUL; each check's message in order |
| Validation.RequiredValidIsString | jupyter-mcp/src/utils/validation.ts:42-85 | a required value that passes is a non-empty string within the limit without NUL |
| JupyterErrors.UnauthorizedError | jupyter-mcp/src/jupyter-client/errors.ts:22-27 | code UNAUTHORIZED, status 401, the given or default message |
| JupyterErrors.KernelNotFoundError | jupyter-mcp/src/jupyter-client/errors.ts:32-37 | code KERNEL_NOT_FOUND, status 404, message the fixed prefix followed by the kernel id |
| JupyterErrors.KernelDeadError | jupyter-mcp/src/jupyter-client/errors.ts:42-47 | code KERNEL_DEAD, status 400, message the fixed prefix followed by the kernel id |
| JupyterErrors.NotebookNotFoundError | jupyter-mcp/src/jupyter-client/errors.ts:52-57 | code NOTEBOOK_NOT_FOUND, status 404, message the fixed prefix followed by the path |
| JupyterErrors.InvalidCellIndexError | jupyter-mcp/src/jupyter-client/errors.ts:62-67 | code INVALID_CELL_INDEX, status 400, message the fixed prefix followed by the index in decimal |
| JupyterErrors.ExecutionTimeoutError | jupyter-mcp/src/jupyter-client/errors.ts:72-81 | code EXECUTION_TIMEOUT, status 408, message naming the timeout in milliseconds |
| JupyterErrors.ConnectionError | jupyter-mcp/src/jupyter-client/errors.ts:86-91 | code CONNECTION_ERROR, status 503, the given or default message |
| JupyterErrors.ValidationError | jupyter-mcp/src/jupyter-client/errors.ts:96-101 | code VALIDATION_ERROR, status 400, the given message |
| JupyterErrors.CreateErrorFromResponse | jupyter-mcp/src/jupyter-client/errors.ts:106-128 | the code is always the body's code; a known code fixes kind and status; an unknown code passes code, status and message through as a generic error |
| JupyterErrors.KnownCodeIgnoresStatus | jupyter-mcp/src/jupyter-client/errors.ts:112-124 | for a known code the response status makes no difference |
| JupyterErrors.MessageCarriesContext | jupyter-mcp/src/jupyter-client/errors.ts:115-122 | kernel, notebook and cell-index errors name the context value, or "unknown" / -1 when it is missing |
| JupyterErrors.UnauthorizedAndTimeoutMessages | jupyter-mcp/src/jupyter-client/errors.ts:113-124 | UNAUTHORIZED keeps the server's message; EXECUTION_TIMEOUT always reports 30000 ms |
| JupyterClient.HandleError | jupyter-mcp/src/jupyter-client/client.ts:282-345 | a non-Axios error is INTERNAL_ERROR/500; transport codes give CONNECTION_ERROR first; 401 is always UNAUTHORIZED; a structured body goes to createErrorFromResponse; a bare 404 blames the kernel, else the notebook, else HTTP_ERROR; other statuses are HTTP_ERROR; no response is INTERNAL_ERROR |
| JupyterClient.HandleErrorStatus | jupyter-mcp/src/jupyter-client/client.ts:282-345 | the status is one of the fixed ones or the response's own |
| JupyterClient.EmptyKernelIdContext | jupyter-mcp/src/jupyter-client/client.ts:315-331 | an empty kernel id counts as absent for a bare 404 but is kept by the structured-body path |
| JupyterClient.GetSessionByPath | jupyter-mcp/src/jupyter-client/client.ts:138-146 | yields a listed session whose path matches up to one leading '/', and nothing exactly when none does |
| JupyterClient.LeadingSlashIgnored | jupyter-mcp/src/jupyter-client/client.ts:141-143 | a request with one leading '/' finds the same session as without |
| JupyterClient.GetSessionByKernelId | jupyter-mcp/src/jupyter-client/client.ts:149-152 | yields a listed session of that kernel, and nothing exactly when none is |
| JupyterClient.FirstSessionOfKernel | jupyter-mcp/src/jupyter-client/client.ts:149-152 | the session found is the first one of that kernel |
| JupyterClient.ExecuteRequestTimeoutMs | jupyter-mcp/src/jupyter-client/client.ts:160 | no HTTP timeout for a missing or zero timeout; otherwise, for every non-zero timeout including a negative one, the timeout in milliseconds plus 5000 |
| PathValidator.ValidateNotebookPath | jupyter-mcp/src/utils/path-validator.ts:15-45 | accepted exactly when non-blank, without "..", not absolute, without NUL, ending in ".ipynb" and at most 255 units; each failing check, taken in that order, gives its own message |
| PathValidator.ParentStepReportedFirst | jupyter-mcp/src/utils/path-validator.ts:22-29 | "/../a.ipynb" reports the '..' error, not the absolute-path one |
| PathValidator.PlainPathChecks | jupyter-mcp/src/utils/path-validator.ts:17-40 | a plain lower-case stem with ".ipynb" passes every check but the length |
| PathValidator.PlainPathAccepted | jupyter-mcp/src/utils/path-validator.ts:15-45 | such a path of at most 255 units is accepted |
| PathValidator.LongPathReportedTooLong | jupyter-mcp/src/utils/path-validator.ts:42-44 | such a path over 255 units reports the too-long error |
| FileList.NormalizeFilePath | jupyter-mcp/src/tools/file-list.ts:33-58 | refuses "..", NUL and over 500 units in that order; the result is "/" exactly for an all-slash input, else the input minus its leading slashes |
| FileList.SlashesNameRoot | jupyter-mcp/src/tools/file-list.ts:50-55 | "", "/" and any run of slashes normalise to "/" |
| FileList.SuffixPassesChecks | jupyter-mcp/src/tools/file-list.ts:35-47 | a suffix of an accepted path is accepted |
| FileList.NormalizedIsFixed | jupyter-mcp/src/tools/file-list.ts:50-57 | a normalised path other than "/" normalises to itself |
| FileList.NormalizeIdempotent | jupyter-mcp/src/tools/file-list.ts:33-58 | normalising twice gives what normalising once gives |
| FileList.Classify | jupyter-mcp/src/tools/file-list.ts:109-119 | a message mentioning '..' is a VALIDATION_ERROR; any other keeps its code |
| FileList.ExecuteFileList | jupyter-mcp/src/tools/file-list.ts:63-121 | an invalid handle is refused; a directory the validator refuses (not a string, over 100 units, containing NUL) gets the validator's message before any normalising; an accepted one is normalised and listed, or the failure classified |
| FileList.OmittedPathIsRoot | jupyter-mcp/src/tools/file-list.ts:81 | an omitted or null path lists "/" |
| FileList.NormalizationFailureIsParentStep | jupyter-mcp/src/tools/file-list.ts:84-113 | a path that passes validation can only fail normalisation on "..", which is reported as VALIDATION_ERROR |
| NotebookCreate.NotebookName | jupyter-mcp/src/tools/notebook-create.ts:23 | the name always ends in ".ipynb" and is left unchanged when it already does |
| NotebookCreate.NotebookNameIdempotent | jupyter-mcp/src/tools/notebook-create.ts:23 | adding the extension twice changes nothing |
| NotebookCreate.NotebookNameInvertible | jupyter-mcp/src/tools/notebook-create.ts:23 | the given name is a prefix of the notebook name |
| NotebookCreate.WithTrailingSlash | jupyter-mcp/src/tools/notebook-create.ts:26 | ends in '/', extends the path, and is the path itself when it already ends in '/' |
| NotebookCreate.FullPath | jupyter-mcp/src/tools/notebook-create.ts:26-27 | "/" or "" gives the bare name; otherwise the path with one '/' ensured, then the name |
| NotebookCreate.ExecuteNotebookCreate | jupyter-mcp/src/tools/notebook-create.ts:10-56 | a missing, empty or non-string name is refused without a call; the directory defaults to "/"; the reply carries the server's path and time, or the client's error |
| NotebookCreate.RootExample | jupyter-mcp/src/tools/notebook-create.ts:15-27 | "analysis" in "/" is created as "analysis.ipynb" |
| NotebookCreate.DirectoryExample | jupyter-mcp/src/tools/notebook-create.ts:26-27 | "a.ipynb" in "work" is created as "work/a.ipynb" |
| NotebookAddCell.PlanAddCell | jupyter-mcp/src/tools/notebook-add-cell.ts:20-58 | path, cell type ("code" or "markdown"), non-empty source and position (a number >= 0 when given) are checked in that order; the request is "add" with that cell and the position as index |
| NotebookAddCell.ExecuteNotebookAddCell | jupyter-mcp/src/tools/notebook-add-cell.ts:10-90 | a refused request makes no call; otherwise the reply echoes path, type and position or gives the client's error |
| NotebookAddCell.RejectionIgnoresServer | jupyter-mcp/src/tools/notebook-add-cell.ts:20-47 | a refused request's answer does not depend on the backend |
| NotebookAddCell.AcceptedRequestAddsCell | jupyter-mcp/src/tools/notebook-add-cell.ts:51-58 | the request the tool sends adds one cell of the requested type and source, at the position when it lies within the list and at the end otherwise; only code cells get outputs |
| ServerHandlers.MakeResponse | jupyter-server/extensions/custom_api/handlers.py:20-22 | the body carries the data |
| ServerHandlers.MakeError | jupyter-server/extensions/custom_api/handlers.py:25-27 | the body carries the code and the message |
| ServerHandlers.ErrorReplyReachesClient | jupyter-server/extensions/custom_api/handlers.py:76-78 | an error reply with any status but 401 reaches the adapter as the error built from its code and message |
| ServerHandlers.CheckExecuteBody | jupyter-server/extensions/custom_api/handlers.py:246-258 | accepts exactly a string code, the empty one included; a missing or null code is "code is required", any other "code must be a string", both 400; the timeout defaults to 30 |
| ServerHandlers.ExecuteEndpoint | jupyter-server/extensions/custom_api/handlers.py:241-291 | an unknown kernel is a 404; a refused body a 400; every checked request gets a 200 with the measured time; it succeeds exactly when the timeout is numeric and the run ends without an error; a non-numeric timeout gives the TypeError reply with its traceback, a missed deadline the TimeoutError reply with nothing relayed, and a finished run relays every collected field |
| ServerHandlers.CleanRunSucceeds | jupyter-server/extensions/custom_api/handlers.py:263-267 | a run that reaches idle without an error message succeeds with the stream outputs read before idle |
| ServerHandlers.NoIdleReportsTimeout | jupyter-server/extensions/custom_api/handlers.py:268-279 | a run that never reaches idle reports a TimeoutError with the seconds and an empty traceback |
| ServerHandlers.GetOr | jupyter-server/extensions/custom_api/handlers.py:514-515 | a missing key gives the default, an explicit null gives None |
| ServerHandlers.NewCell | jupyter-server/extensions/custom_api/handlers.py:513-520 | type defaults to "code" and source to ""; only code cells get empty outputs and no execution count |
| ServerHandlers.UpdatedCell | jupyter-server/extensions/custom_api/handlers.py:531-534 | only a source or type given in the request replaces the old one |
| ServerHandlers.AddPosition | jupyter-server/extensions/custom_api/handlers.py:522-525 | the index when 0 <= index <= len, else the end |
| ServerHandlers.CellsAfter | jupyter-server/extensions/custom_api/handlers.py:510-544 | add inserts one cell at its position with the others in order; update and delete refuse an index outside the list; update changes only that cell; delete removes exactly it; an unknown action is refused |
| ServerHandlers.AddThenDeleteRestores | jupyter-server/extensions/custom_api/handlers.py:512-540 | deleting at the index just added restores the list |
| ServerHandlers.EmptyUpdateChangesNothing | jupyter-server/extensions/custom_api/handlers.py:527-534 | an update without a source or type leaves the list as it was |
| ServerHandlers.NotebookFile.constructor | jupyter-server/extensions/custom_api/handlers.py:505 | the file has the given path, kind and cells |
| ServerHandlers.NotebookFile.Patch | jupyter-server/extensions/custom_api/handlers.py:495-553 | a non-notebook is refused and nothing is saved; otherwise the cells become the edited list and the reply names "/" + path, or the error reply leaves them unchanged |
| KernelExecutor.ExecuteOutcome | jupyter-server/extensions/custom_api/kernel_executor.py:46-66 | times out exactly when the timeout is not positive or no idle status arrives; otherwise the result of the messages before the first idle status |
| KernelExecutor.Execute | jupyter-server/extensions/custom_api/kernel_executor.py:48-109 | the loop returns exactly the outcome above |
| KernelExecutor.ErrorIffErrorMessage | jupyter-server/extensions/custom_api/kernel_executor.py:95-109 | an error is recorded exactly when an error message was read, so success means no error message |
| KernelExecutor.LastErrorWins | jupyter-server/extensions/custom_api/kernel_executor.py:95-100 | the recorded error is the last one, with defaults "Error", "Unknown error" and [] |
| KernelExecutor.LastCountWins | jupyter-server/extensions/custom_api/kernel_executor.py:68-80 | the execution count is that of the last execute_input or execute_result, 0 when it has none |
| KernelExecutor.LastResultWins | jupyter-server/extensions/custom_api/kernel_executor.py:79-83 | the result is the text/plain of the last execute_result that has one |
| KernelExecutor.StreamOutputsAppend | jupyter-server/extensions/custom_api/kernel_executor.py:71-77 | the outputs of two runs of messages are concatenated in order |
| KernelExecutor.ReplayOutputs | jupyter-server/extensions/custom_api/kernel_executor.py:71-77 | the outputs are the stream messages in arrival order, named "stdout" and with "" by default |
| KernelExecutor.ImageIdInjective | jupyter-server/extensions/custom_api/kernel_executor.py:90 | different image numbers give different ids |
| KernelExecutor.ImagesNumbered | jupyter-server/extensions/custom_api/kernel_executor.py:85-93 | the n-th image has id "img-" plus n+1 padded to three digits and type image/png |
| KernelExecutor.ImageIdsDistinct | jupyter-server/extensions/custom_api/kernel_executor.py:85-93 | the images of one run have distinct ids |
| KernelExecutor.IgnoresMessagesAfterIdle | jupyter-server/extensions/custom_api/kernel_executor.py:64-66 | messages after the first idle status change nothing |
| Numerals.Pad3Injective | jupyter-server/extensions/custom_api/kernel_executor.py:90 | three-digit zero padding keeps numbers apart |
| JsStrings.TrimEmptyIffBlank | jupyter-mcp/src/utils/validation.ts:64 | `trim()` gives "" exactly for an all-white-space string |
| JsArrays.FindIsFirst | jupyter-mcp/src/utils/session-resolver.ts:21 | `find` returns the first element that passes the test |
| JsValues.WithDefault | jupyter-mcp/src/tools/execute-code.ts:58 | a destructuring default replaces `undefined` only, so `null` is kept |
| JsValues.Coalesce | jupyter-mcp/src/tools/file-list.ts:81 | `??` replaces `undefined` and `null` |

## Left out

- HTTP transport, the axios instance, environment and token handling, and the thin client wrappers: backend answers are inputs or function parameters.
- Kernel I/O and the clock in the executor: the message stream up to the deadline is a finite sequence `delivered`. A timeout means no idle status in it. The measured time and the formatted traceback are parameters.
- `randomUUID()` and `new Date()` in the image store: the fresh id and the time are parameters, and the id must not be in use.
- `validate_path` (it resolves paths on the file system), the contents manager's load and save, and the `FileNotFoundError` → NOTEBOOK_NOT_FOUND and generic-exception replies of the cells PATCH handler, apart from the failure that a missing `cell` object causes.
- JSON serialisation of replies: a reply is a success/error datatype.
- Floating point: numbers are integers, so fractional timeouts, NaN and the DataFrame `describe` statistics are not modelled.
- `listAll` is called by the resource listing but not defined by the image store. It is modelled as `ListAll`: all images in insertion order.
- The image store's private copies of the extension table and the locator pattern, and the private copies of the resolver in execute-code and get-variables. They are identical to the shared ones, so the model uses the shared ones.
- The INVALID_URI catch branch of the image tool is unreachable, because the store's `get` never throws.
- The re-check of `session_id` inside execute-code's `try` block is unreachable after validation.
- The NUL and 500-unit checks of `normalizeFilePath` cannot fail through the tool, because validation refuses those paths first.
- session-create, session-list, server wiring, type-only files and configuration: single backend calls or plumbing.
- Session deletion does not touch the image store in the source, and the model keeps it that way: a deleted session's images stay stored.
- UriUtils.ExtensionFromMimeType: does not model `mapping[mimeType]` finding inherited object keys such as "toString".
- GetDataframeInfo.HeadRowsNumber: does not model JavaScript's coercion of numeric strings such as "3" by `Math.min`; every non-numeric value other than a boolean counts as 0.
- ServerHandlers.CellsAfter: index values that are not integers (strings, floats) are left out.
- KernelExecutor.Execute: a field of an iopub message that is JSON null (`execution_count`, `image/png`, `text/plain`, `name`, `text`, `ename`, `evalue`, `traceback`) is read as absent, so the default applies; the source keeps `None` there.
- KernelExecutor.Execute: iopub messages are not filtered by the request's message id, as in the source.
- GetDataframeInfo.DataframeResponse: a negative head_rows gives an empty head, the corrected LimitHead; the source's slice keeps all but the last -head_rows rows (see Findings). For head_rows >= 0 the contract states that the head is the source's slice.
- GetDataframeInfo.ExecuteGetDataframeInfo: inherits the corrected head of DataframeResponse for a negative head_rows.
- ServerHandlers.PythonTypeName: every JSON object or array timeout is named "dict" in the timeout error; Python names an array "list". The value type has no separate array case.
- NotebookAddCell.ExecuteNotebookAddCell: the tool reports the requested position even when the server appends at the end. AcceptedRequestAddsCell states where the cell actually goes.

## Findings

| source | as written | input that shows it | evidently intended | confidence | as-written member | corrected member |
|---|---|---|---|---|---|---|
| jupyter-mcp/src/tools/get-dataframe-info.ts:128-131 | `head.slice(0, Math.min(head_rows, head.length))` with an unchecked `head_rows` | `head_rows = -1` on a 3-row head returns 2 rows, because `slice` counts a negative end back from the end | at most `head_rows` rows: none for a non-positive value | medium, not executed | GetDataframeInfo.NegativeHeadRowsDropsTail | GetDataframeInfo.LimitHead |
