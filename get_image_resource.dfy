/** The `get_image_resource` tool (tools/get-image-resource.ts): validate, one store read, then answer. */
module GetImageResource {
  import opened Wrappers
  import opened JsValues
  import opened JsStrings
  import opened ImageTypes
  import opened ImageStore
  import opened Validation
  import opened Responses
  import ImageResources

  /** The success payload: `{ mime_type, data, width, height }`. */
  datatype ImageData = ImageData(mimeType: string, data: string, width: Option<int>, height: Option<int>)

  /** `{ required: true, maxLength: 500, allowEmpty: false }` over the defaults. */
  const UriOptions := Options(required := true, maxLength := 500, allowEmpty := false, allowNull := true)

  /** The argument check: a non-blank string of at most 500 characters without NUL. */
  function CheckUri(resourceUri: JsValue): (r: ValidationResult)
    ensures r.Valid? <==>
      resourceUri.Str? && resourceUri.s != "" && !IsBlank(resourceUri.s)
      && JsLength(resourceUri.s) <= 500 && NUL !in resourceUri.s
  {
    ValidateStringParameter(resourceUri, "resource_uri", UriOptions)
  }

  function NotFoundMessage(uri: string): string {
    "指定されたリソースURIの画像が見つかりません: " + uri
  }

  /**
   * `executeGetImageResource(args)` with `resource_uri` as given. The store is only read. The
   * catch branch of the source is not reachable, because `get` never throws.
   */
  function ExecuteGetImageResource(store: ImageStore, resourceUri: JsValue): (r: McpResponse<ImageData>)
    reads store
    requires store.Valid()
    // an argument that fails the check is answered before the store is consulted
    ensures CheckUri(resourceUri).Invalid? ==> r == ErrorResponse(VALIDATION_ERROR, CheckUri(resourceUri).errorMessage)
    ensures r.ErrorResponse? && r.code == VALIDATION_ERROR ==> CheckUri(resourceUri).Invalid?
    // a valid string that is malformed or unknown: NOT_FOUND
    ensures r.ErrorResponse? && r.code == NOT_FOUND <==>
      resourceUri.Str? && CheckUri(resourceUri).Valid?
      && store.Get(resourceUri.s).None?
    ensures r.ErrorResponse? && r.code == NOT_FOUND ==> r.message == NotFoundMessage(resourceUri.s)
    // otherwise the stored image's fields
    ensures r.SuccessResponse? ==>
      resourceUri.Str? && store.Get(resourceUri.s).Some?
      && var image := store.Get(resourceUri.s).value;
         r.data == ImageData(image.mimeType, image.data, image.width, image.height)
  {
    var uriValidation := CheckUri(resourceUri);
    if uriValidation.Invalid? then
      ErrorResponse(VALIDATION_ERROR, uriValidation.errorMessage)
    else
      var validatedResourceUri := resourceUri.s;
      match store.Get(validatedResourceUri)
      case None => ErrorResponse(NOT_FOUND, NotFoundMessage(validatedResourceUri))
      case Some(image) => SuccessResponse(ImageData(image.mimeType, image.data, image.width, image.height))
  }

  /**
   * The tool and `resources/read` agree: whenever the tool succeeds, the resource read succeeds on
   * the same locator with the tool's data as its blob; for an argument that passes the check, the
   * two succeed together.
   */
  lemma AgreesWithReadResource(store: ImageStore, uri: string)
    requires store.Valid()
    ensures var r := ExecuteGetImageResource(store, Str(uri));
      && (r.SuccessResponse? ==>
            ImageResources.ReadResource(store, uri)
              == Success([ImageResources.BlobContents(uri, r.data.mimeType, r.data.data)]))
      && (CheckUri(Str(uri)).Valid? ==>
            (r.SuccessResponse? <==> ImageResources.ReadResource(store, uri).Success?))
  {
  }
}
