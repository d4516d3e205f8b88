/**
 * The image locator codec (image-store/uri-utils.ts): builds
 * `jupyter://sessions/<session>/images/<id>.<ext>` and extracts `<id>` back with the anchored
 * pattern `^jupyter://sessions/[^/]+/images/([^.]+)\.[^.]+$`, written here as an explicit tokenizer.
 */
module UriUtils {
  import opened Wrappers
  import opened JsStrings
  import opened ImageTypes

  const ResourceUriScheme: string := "jupyter://sessions"

  /** The fixed text before the session segment: the scheme and a '/'. */
  const SchemePrefix: string := "jupyter://sessions/"

  /** The fixed text between the '/' that ends the session segment and the image id. */
  const ImagesSegment: string := "images/"

  /** The MIME types with their own extension. */
  const ExtensionTable: map<string, string> :=
    map["image/png" := "png", "image/jpeg" := "jpg", "image/svg+xml" := "svg", "image/gif" := "gif"]

  /** A segment matched by `[^/]+`. */
  predicate SessionSegment(x: string) {
    x != "" && '/' !in x
  }

  /** A segment matched by `[^.]+`. */
  predicate DotFreeSegment(x: string) {
    x != "" && '.' !in x
  }

  /** `getExtensionFromMimeType`: the table entry, or "png" for every other MIME type. */
  function ExtensionFromMimeType(mimeType: string): (ext: string)
    ensures DotFreeSegment(ext) && '/' !in ext
    ensures mimeType in ExtensionTable ==> ext == ExtensionTable[mimeType]
    ensures mimeType !in ExtensionTable ==> ext == "png"
  {
    if mimeType in ExtensionTable then ExtensionTable[mimeType] else "png"
  }

  /** The locator text for a session segment, an id and an extension. */
  function Compose(sessionId: string, imageId: string, ext: string): string {
    SchemePrefix + (sessionId + ("/" + (ImagesSegment + (imageId + ("." + ext)))))
  }

  /** The string is a locator for `imageId` in the sense of the anchored pattern. */
  ghost predicate MatchesPattern(uri: string, imageId: string) {
    DotFreeSegment(imageId) &&
    exists s, ext :: SessionSegment(s) && DotFreeSegment(ext) && uri == Compose(s, imageId, ext)
  }

  /** `buildResourceUri(sessionId, imageId, mimeType)`. */
  function BuildResourceUri(sessionId: string, imageId: string, mimeType: string): (uri: string)
    ensures StartsWith(uri, SchemePrefix)
    ensures uri == Compose(sessionId, imageId, ExtensionFromMimeType(mimeType))
  {
    var extension := ExtensionFromMimeType(mimeType);
    var uri := ResourceUriScheme + "/" + sessionId + "/images/" + imageId + "." + extension;
    assert ResourceUriScheme + "/" == SchemePrefix;
    assert "/images/" == "/" + ImagesSegment;
    assert uri == Compose(sessionId, imageId, extension);
    uri
  }

  /** `buildResourceUriFromImage(image)`. */
  function BuildResourceUriFromImage(image: StoredImage): (uri: string)
    ensures uri == BuildResourceUri(image.sessionId, image.id, image.mimeType)
  {
    BuildResourceUri(image.sessionId, image.id, image.mimeType)
  }

  /** `s` with the prefix `p` removed, when `s` starts with `p`. */
  function StripPrefix(s: string, p: string): (r: Option<string>)
    ensures r.Some? <==> StartsWith(s, p)
    ensures r.Some? ==> s == p + r.value
  {
    if StartsWith(s, p) then Some(s[|p|..]) else None
  }

  /** Splits `s` around the first occurrence of `c`. */
  function SplitAtFirst(s: string, c: char): (r: Option<(string, string)>)
    ensures r.None? <==> c !in s
    ensures r.Some? ==> c !in r.value.0 && s == r.value.0 + ([c] + r.value.1)
  {
    if s == [] then None
    else if s[0] == c then Some(([], s[1..]))
    else
      match SplitAtFirst(s[1..], c)
      case None => None
      case Some((a, b)) =>
        assert s == [s[0]] + s[1..];
        Some(([s[0]] + a, b))
  }

  lemma SplitAtFirstOf(a: string, c: char, b: string)
    requires c !in a
    ensures SplitAtFirst(a + ([c] + b), c) == Some((a, b))
  {
    var r := SplitAtFirst(a + ([c] + b), c).value;
    SplitUnique(a, b, r.0, r.1, c);
  }

  /** Two splits of one string before a first `c` are the same split. */
  lemma SplitUnique(x: string, y: string, x': string, y': string, c: char)
    requires c !in x && c !in x' && x + ([c] + y) == x' + ([c] + y')
    ensures x == x' && y == y'
  {
    var s := x + ([c] + y);
    assert s == x' + ([c] + y');
    assert forall i :: 0 <= i < |x'| ==> s[i] == x'[i];
    assert forall i :: 0 <= i < |x| ==> s[i] == x[i];
    assert s[|x|] == c && s[|x'|] == c;
    assert |x| == |x'|;
    assert x == s[..|x|] == x';
    assert y == s[|x| + 1..] == y';
  }

  /** A string with `c` at position |x| splits at or before that position. */
  lemma SplitAtFirstNoLater(x: string, c: char, y: string)
    ensures SplitAtFirst(x + ([c] + y), c).Some?
    ensures var r := SplitAtFirst(x + ([c] + y), c).value;
      |r.0| <= |x| && r.1 == (x + ([c] + y))[|r.0| + 1..] && r.0 == (x + ([c] + y))[..|r.0|]
  {
    var s := x + ([c] + y);
    assert s[|x|] == c;
    var r := SplitAtFirst(s, c).value;
    assert s == r.0 + ([c] + r.1);
  }

  /** `extractImageIdFromUri(resourceUri)`: the captured id, or `None` where the pattern does not match. */
  function ExtractImageIdFromUri(uri: string): (r: Option<string>)
    ensures r.Some? ==> MatchesPattern(uri, r.value)
  {
    match StripPrefix(uri, SchemePrefix)
    case None => None
    case Some(rest) =>
      match SplitAtFirst(rest, '/')
      case None => None
      case Some((session, afterSession)) =>
        match StripPrefix(afterSession, ImagesSegment)
        case None => None
        case Some(tail) =>
          match SplitAtFirst(tail, '.')
          case None => None
          case Some((id, ext)) =>
            if session == [] || id == [] || !DotFreeSegment(ext) then None
            else
              assert uri == Compose(session, id, ext);
              Some(id)
  }

  /** Every string of the pattern's shape yields its id segment: the session and the extension do not matter. */
  lemma ExtractComposed(s: string, imageId: string, ext: string)
    requires SessionSegment(s) && DotFreeSegment(imageId) && DotFreeSegment(ext)
    ensures ExtractImageIdFromUri(Compose(s, imageId, ext)) == Some(imageId)
  {
    var tail := imageId + ("." + ext);
    var afterSession := ImagesSegment + tail;
    var rest := s + ("/" + afterSession);
    assert StripPrefix(Compose(s, imageId, ext), SchemePrefix) == Some(rest);
    SplitAtFirstOf(s, '/', afterSession);
    assert StripPrefix(afterSession, ImagesSegment) == Some(tail);
    SplitAtFirstOf(imageId, '.', ext);
  }

  /** The tokenizer accepts exactly the strings of the pattern, and captures their id segment. */
  lemma ExtractIffMatches(uri: string, imageId: string)
    ensures ExtractImageIdFromUri(uri) == Some(imageId) <==> MatchesPattern(uri, imageId)
  {
    if MatchesPattern(uri, imageId) {
      var s, ext :| SessionSegment(s) && DotFreeSegment(ext) && uri == Compose(s, imageId, ext);
      ExtractComposed(s, imageId, ext);
    }
  }

  /** Round trip: the id of a locator built from a valid session and id is extracted unchanged. */
  lemma RoundTrip(sessionId: string, imageId: string, mimeType: string)
    requires SessionSegment(sessionId) && DotFreeSegment(imageId)
    ensures ExtractImageIdFromUri(BuildResourceUri(sessionId, imageId, mimeType)) == Some(imageId)
  {
    ExtractComposed(sessionId, imageId, ExtensionFromMimeType(mimeType));
  }

  /** Locators that differ only in the session segment or the extension carry the same id. */
  lemma SessionAndExtensionIgnored(s1: string, s2: string, imageId: string, e1: string, e2: string)
    requires SessionSegment(s1) && SessionSegment(s2) && DotFreeSegment(imageId)
    requires DotFreeSegment(e1) && DotFreeSegment(e2)
    ensures ExtractImageIdFromUri(Compose(s1, imageId, e1)) == ExtractImageIdFromUri(Compose(s2, imageId, e2))
  {
    ExtractComposed(s1, imageId, e1);
    ExtractComposed(s2, imageId, e2);
  }

  /** A tail after "images/" holding two or more dots is refused, whatever surrounds it. */
  lemma RejectsSecondDot(s: string, a: string, b: string, c: string)
    requires SessionSegment(s)
    ensures ExtractImageIdFromUri(SchemePrefix + (s + ("/" + (ImagesSegment + (a + ("." + (b + ("." + c)))))))).None?
  {
    var tail := a + ("." + (b + ("." + c)));
    var uri := SchemePrefix + (s + ("/" + (ImagesSegment + tail)));
    assert StripPrefix(uri, SchemePrefix) == Some(s + ("/" + (ImagesSegment + tail)));
    SplitAtFirstOf(s, '/', ImagesSegment + tail);
    assert StripPrefix(ImagesSegment + tail, ImagesSegment) == Some(tail);
    SplitAtFirstNoLater(a, '.', b + ("." + c));
    var r := SplitAtFirst(tail, '.').value;
    assert tail[|a| + 1 + |b|] == '.';
    assert r.1[|a| - |r.0| + |b|] == '.';
    assert !DotFreeSegment(r.1);
  }

  /** The strings the source's tests reject: the empty string, a wrong scheme, a missing images segment, no extension. */
  lemma RejectedExamples()
    ensures ExtractImageIdFromUri("").None?
    ensures ExtractImageIdFromUri("http://sessions/session-1/images/img-1.png").None?
    ensures ExtractImageIdFromUri("jupyter://sessions/img-1.png").None?
    ensures ExtractImageIdFromUri("jupyter://sessions/session-1/images/img-1").None?
  {
    var noScheme := "http://sessions/session-1/images/img-1.png";
    assert noScheme[0] != SchemePrefix[0];
    var noImages := "jupyter://sessions/img-1.png";
    assert noImages == SchemePrefix + "img-1.png";
    assert '/' !in "img-1.png";
    var noExt := "jupyter://sessions/session-1/images/img-1";
    assert noExt == SchemePrefix + ("session-1" + ("/" + (ImagesSegment + "img-1")));
    SplitAtFirstOf("session-1", '/', ImagesSegment + "img-1");
    assert '.' !in "img-1";
  }

  /** A locator from the source's tests, with its id. */
  lemma AcceptedExample()
    ensures ExtractImageIdFromUri("jupyter://sessions/session-1/images/img-2.svg") == Some("img-2")
  {
    assert "jupyter://sessions/session-1/images/img-2.svg" == Compose("session-1", "img-2", "svg");
    ExtractComposed("session-1", "img-2", "svg");
  }
}
