/**
 * The MCP resource handlers over the image store (resources/images.ts): `resources/list` and
 * `resources/read`. Neither changes the store.
 */
module ImageResources {
  import opened Wrappers
  import opened JsStrings
  import opened ImageTypes
  import opened UriUtils
  import opened ImageStore

  /** One entry of `resources/list`. */
  datatype Resource = Resource(uri: string, name: string, mimeType: string, description: string)

  /** One item of `resources/read`: the locator, the MIME type and the base64 payload. */
  datatype BlobContents = BlobContents(uri: string, mimeType: string, blob: string)

  /**
   * The listing entry of one image. Its locator is rebuilt from the image's session, id and MIME
   * type; the listing's private copy of the extension table equals the shared one.
   */
  function ResourceOf(image: StoredImage): (r: Resource)
    ensures r.uri == BuildResourceUri(image.sessionId, image.id, image.mimeType)
    ensures r.name == image.description && r.description == image.description && r.mimeType == image.mimeType
  {
    var uri := BuildResourceUri(image.sessionId, image.id, image.mimeType);
    Resource(uri, image.description, image.mimeType, image.description)
  }

  /** The images whose rebuilt locator starts with `prefix`, in order. */
  function WithPrefix(images: seq<StoredImage>, prefix: string): (r: seq<StoredImage>)
    ensures |r| <= |images|
  {
    if images == [] then []
    else
      var last := images[|images| - 1];
      WithPrefix(images[..|images| - 1], prefix)
        + (if StartsWith(ResourceOf(last).uri, prefix) then [last] else [])
  }

  lemma {:induction false} WithPrefixMembers(images: seq<StoredImage>, prefix: string)
    ensures forall x :: x in WithPrefix(images, prefix) <==> x in images && StartsWith(ResourceOf(x).uri, prefix)
  {
    if images != [] {
      WithPrefixMembers(images[..|images| - 1], prefix);
      assert images == images[..|images| - 1] + [images[|images| - 1]];
    }
  }

  /** A prefix every locator starts with filters nothing out. */
  lemma {:induction false} WithSharedPrefix(images: seq<StoredImage>, prefix: string)
    requires forall i :: 0 <= i < |images| ==> StartsWith(ResourceOf(images[i]).uri, prefix)
    ensures WithPrefix(images, prefix) == images
  {
    if images != [] {
      var init, last := images[..|images| - 1], images[|images| - 1];
      assert images == init + [last];
      WithSharedPrefix(init, prefix);
    }
  }

  /** Every image's locator starts with the empty prefix, so the empty prefix keeps everything. */
  lemma WithEmptyPrefix(images: seq<StoredImage>)
    ensures WithPrefix(images, "") == images
  {
    forall i | 0 <= i < |images| ensures StartsWith(ResourceOf(images[i]).uri, "") {
      StartsWithEmpty(ResourceOf(images[i]).uri);
    }
    WithSharedPrefix(images, "");
  }

  function Resources(images: seq<StoredImage>): (r: seq<Resource>)
    ensures |r| == |images|
    ensures forall i :: 0 <= i < |images| ==> r[i] == ResourceOf(images[i])
  {
    seq(|images|, i requires 0 <= i < |images| => ResourceOf(images[i]))
  }

  /**
   * `listResources(uriPrefix?)` over the store's images in insertion order. An absent or empty
   * prefix is falsy in the source and lists everything.
   */
  function ListResources(store: ImageStore, uriPrefix: Option<string>): (r: seq<Resource>)
    reads store
    ensures uriPrefix.None? || uriPrefix.value == "" ==> r == Resources(store.ListAll())
    ensures uriPrefix.Some? ==> r == Resources(WithPrefix(store.ListAll(), uriPrefix.value))
  {
    var allImages := store.ListAll();
    if uriPrefix.Some? && uriPrefix.value != "" then
      Resources(WithPrefix(allImages, uriPrefix.value))
    else
      if uriPrefix.Some? then WithEmptyPrefix(allImages); Resources(allImages)
      else Resources(allImages)
  }

  /** With a prefix, an image is listed exactly when its rebuilt locator starts with the prefix. */
  lemma ListedIffPrefix(store: ImageStore, prefix: string, image: StoredImage)
    ensures ResourceOf(image) in ListResources(store, Some(prefix))
      <== image in store.ListAll() && StartsWith(ResourceOf(image).uri, prefix)
    ensures (exists x :: x in store.ListAll() && StartsWith(ResourceOf(x).uri, prefix) && ResourceOf(x) == ResourceOf(image))
      <== ResourceOf(image) in ListResources(store, Some(prefix))
  {
    var listed := WithPrefix(store.ListAll(), prefix);
    WithPrefixMembers(store.ListAll(), prefix);
    if image in store.ListAll() && StartsWith(ResourceOf(image).uri, prefix) {
      var i :| 0 <= i < |listed| && listed[i] == image;
      assert Resources(listed)[i] == ResourceOf(image);
    }
    if ResourceOf(image) in ListResources(store, Some(prefix)) {
      var i :| 0 <= i < |listed| && Resources(listed)[i] == ResourceOf(image);
      assert listed[i] in listed;
    }
  }

  /** `readResource(uri)`: one content item for a stored image, otherwise the error `Image not found: <uri>`. */
  function ReadResource(store: ImageStore, uri: string): (r: Result<seq<BlobContents>, string>)
    reads store
    requires store.Valid()
    ensures r.Failure? <==> store.Get(uri).None?
    ensures r.Failure? ==> r.error == "Image not found: " + uri
    ensures r.Success? ==> r.value == [BlobContents(uri, store.Get(uri).value.mimeType, store.Get(uri).value.data)]
  {
    match store.Get(uri)
    case None => Failure("Image not found: " + uri)
    case Some(image) => Success([BlobContents(uri, image.mimeType, image.data)])
  }

  /**
   * Every locator the listing hands out (it lists `ResourceOf` of stored images) can be read back,
   * and yields that image's MIME type and payload.
   */
  lemma ListedIsReadable(store: ImageStore, image: StoredImage)
    requires store.Valid() && image in store.ListAll()
    requires SessionSegment(image.sessionId) && DotFreeSegment(image.id)
    ensures ReadResource(store, ResourceOf(image).uri)
      == Success([BlobContents(ResourceOf(image).uri, image.mimeType, image.data)])
  {
    store.ListedIsStored(image);
    store.StoredIsRetrievable(image, image.mimeType);
  }
}
