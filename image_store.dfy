/**
 * The in-memory image store (image-store/index.ts): images by id in a JavaScript `Map`, which
 * iterates in insertion order, and a per-session counter that numbers the image descriptions.
 */
module ImageStore {
  import opened Wrappers
  import opened ImageTypes
  import opened UriUtils
  import Numerals

  /** The label of the n-th image of a session: `matplotlib output [n]`. */
  function Description(n: nat): string {
    "matplotlib output [" + Numerals.NatToString(n) + "]"
  }

  /** Different ordinals give different labels. */
  lemma DescriptionInjective(a: nat, b: nat)
    ensures Description(a) == Description(b) ==> a == b
  {
    if Description(a) == Description(b) {
      var da, db := Numerals.NatToString(a), Numerals.NatToString(b);
      assert "matplotlib output [" + da == Description(a)[..|Description(a)| - 1];
      assert "matplotlib output [" + db == Description(b)[..|Description(b)| - 1];
      assert da == ("matplotlib output [" + da)[19..];
      assert db == ("matplotlib output [" + db)[19..];
      Numerals.NatToStringInjective(a, b);
    }
  }

  // ---------------------------------------------------------------------------
  // Key order
  // ---------------------------------------------------------------------------

  /** No key occurs twice. */
  predicate Distinct(keys: seq<string>) {
    keys == [] || (Distinct(keys[..|keys| - 1]) && keys[|keys| - 1] !in keys[..|keys| - 1])
  }

  /** The keys as a set. */
  function KeySet(keys: seq<string>): (r: set<string>)
    ensures |r| <= |keys|
  {
    if keys == [] then {} else KeySet(keys[..|keys| - 1]) + {keys[|keys| - 1]}
  }

  lemma {:induction false} KeySetMembers(keys: seq<string>)
    ensures forall k :: k in KeySet(keys) <==> k in keys
  {
    if keys != [] {
      KeySetMembers(keys[..|keys| - 1]);
      assert keys == keys[..|keys| - 1] + [keys[|keys| - 1]];
    }
  }

  lemma KeySetAppend(keys: seq<string>, k: string)
    ensures KeySet(keys + [k]) == KeySet(keys) + {k}
    ensures Distinct(keys + [k]) <==> Distinct(keys) && k !in keys
  {
    assert (keys + [k])[..|keys|] == keys;
  }

  /** The keys outside `removed`, in order. */
  function FilterOut(keys: seq<string>, removed: set<string>): (r: seq<string>)
    ensures |r| <= |keys|
  {
    if keys == [] then []
    else
      var k := keys[|keys| - 1];
      FilterOut(keys[..|keys| - 1], removed) + (if k !in removed then [k] else [])
  }

  lemma {:induction false} FilterOutMembers(keys: seq<string>, removed: set<string>)
    ensures forall k :: k in FilterOut(keys, removed) <==> k in keys && k !in removed
  {
    if keys != [] {
      var init, k := keys[..|keys| - 1], keys[|keys| - 1];
      FilterOutMembers(init, removed);
      assert keys == init + [k];
    }
  }

  lemma {:induction false} FilterOutKeySet(keys: seq<string>, removed: set<string>)
    ensures KeySet(FilterOut(keys, removed)) == KeySet(keys) - removed
  {
    if keys != [] {
      var init, k := keys[..|keys| - 1], keys[|keys| - 1];
      FilterOutKeySet(init, removed);
      var fi := FilterOut(init, removed);
      if k !in removed {
        assert FilterOut(keys, removed) == fi + [k];
        KeySetAppend(fi, k);
      } else {
        assert FilterOut(keys, removed) == fi;
      }
    }
  }

  lemma {:induction false} FilterOutNothing(keys: seq<string>)
    ensures FilterOut(keys, {}) == keys
  {
    if keys != [] {
      FilterOutNothing(keys[..|keys| - 1]);
    }
  }

  lemma {:induction false} FilterOutDistinct(keys: seq<string>, removed: set<string>)
    requires Distinct(keys)
    ensures Distinct(FilterOut(keys, removed))
  {
    if keys != [] {
      var init, k := keys[..|keys| - 1], keys[|keys| - 1];
      FilterOutDistinct(init, removed);
      var fi := FilterOut(init, removed);
      if k !in removed {
        FilterOutMembers(init, removed);
        assert k !in init;
        assert FilterOut(keys, removed) == fi + [k];
        KeySetAppend(fi, k);
      } else {
        assert FilterOut(keys, removed) == fi;
      }
    }
  }

  /** Removing one more key from a filtered key list is filtering by the larger set. */
  lemma {:induction false} FilterOutOneMore(keys: seq<string>, removed: set<string>, k: string)
    ensures FilterOut(FilterOut(keys, removed), {k}) == FilterOut(keys, removed + {k})
  {
    if keys != [] {
      var init := keys[..|keys| - 1];
      FilterOutOneMore(init, removed, k);
      var f := FilterOut(keys, removed);
      var fi := FilterOut(init, removed);
      if keys[|keys| - 1] !in removed {
        assert f[..|f| - 1] == fi;
      } else {
        assert f == fi;
      }
    }
  }

  // ---------------------------------------------------------------------------
  // Specification functions over snapshots of the store
  // ---------------------------------------------------------------------------

  /** The map's values in the order of `keys` (keys missing from the map are skipped). */
  function Entries(keys: seq<string>, m: map<string, StoredImage>): (r: seq<StoredImage>)
    ensures |r| <= |keys|
  {
    if keys == [] then []
    else
      var k := keys[|keys| - 1];
      Entries(keys[..|keys| - 1], m) + (if k in m then [m[k]] else [])
  }

  /** The images of session `s`, in order. */
  function OfSession(images: seq<StoredImage>, s: string): (r: seq<StoredImage>)
    ensures |r| <= |images|
  {
    if images == [] then []
    else
      var last := images[|images| - 1];
      OfSession(images[..|images| - 1], s) + (if last.sessionId == s then [last] else [])
  }

  /** The images of every session but `s`, in order. */
  function NotOfSession(images: seq<StoredImage>, s: string): (r: seq<StoredImage>)
    ensures |r| <= |images|
  {
    if images == [] then []
    else
      var last := images[|images| - 1];
      NotOfSession(images[..|images| - 1], s) + (if last.sessionId != s then [last] else [])
  }

  /** The keys whose image belongs to session `s`. */
  function SessionKeys(keys: seq<string>, m: map<string, StoredImage>, s: string): (r: seq<string>)
    ensures |r| <= |keys|
  {
    if keys == [] then []
    else
      var k := keys[|keys| - 1];
      SessionKeys(keys[..|keys| - 1], m, s) + (if k in m && m[k].sessionId == s then [k] else [])
  }

  /** `OfSession` and `NotOfSession` keep exactly the images of, and of other than, `s`. */
  lemma {:induction false} SessionFilterMembers(images: seq<StoredImage>, s: string)
    ensures forall x :: x in OfSession(images, s) <==> x in images && x.sessionId == s
    ensures forall x :: x in NotOfSession(images, s) <==> x in images && x.sessionId != s
  {
    if images != [] {
      SessionFilterMembers(images[..|images| - 1], s);
      assert images == images[..|images| - 1] + [images[|images| - 1]];
    }
  }

  lemma {:induction false} SessionKeysMembers(keys: seq<string>, m: map<string, StoredImage>, s: string)
    ensures forall k :: k in KeySet(SessionKeys(keys, m, s)) <==> k in keys && k in m && m[k].sessionId == s
  {
    if keys != [] {
      var init, k := keys[..|keys| - 1], keys[|keys| - 1];
      SessionKeysMembers(init, m, s);
      assert keys == init + [k];
      var si := SessionKeys(init, m, s);
      if k in m && m[k].sessionId == s {
        assert SessionKeys(keys, m, s) == si + [k];
        KeySetAppend(si, k);
      } else {
        assert SessionKeys(keys, m, s) == si;
      }
    }
  }

  lemma {:induction false} InEntries(keys: seq<string>, m: map<string, StoredImage>, k: string)
    requires k in keys && k in m
    ensures m[k] in Entries(keys, m)
  {
    if keys[|keys| - 1] != k {
      InEntries(keys[..|keys| - 1], m, k);
    }
  }

  lemma {:induction false} EntriesStored(keys: seq<string>, m: map<string, StoredImage>, x: StoredImage)
    requires forall k :: k in m ==> m[k].id == k
    requires x in Entries(keys, m)
    ensures x.id in m && m[x.id] == x
  {
    var init, k := keys[..|keys| - 1], keys[|keys| - 1];
    if x !in Entries(init, m) {
      assert k in m && x == m[k];
    } else {
      EntriesStored(init, m, x);
    }
  }

  /** `Entries` reads the map only at the listed keys. */
  lemma {:induction false} EntriesFrame(keys: seq<string>, m: map<string, StoredImage>, m': map<string, StoredImage>)
    requires forall k :: k in keys ==> (k in m <==> k in m') && (k in m ==> m[k] == m'[k])
    ensures Entries(keys, m) == Entries(keys, m')
  {
    if keys != [] {
      EntriesFrame(keys[..|keys| - 1], m, m');
    }
  }

  lemma EntriesAppend(keys: seq<string>, m: map<string, StoredImage>, k: string, x: StoredImage)
    requires k !in keys
    ensures Entries(keys + [k], m[k := x]) == Entries(keys, m) + [x]
  {
    assert (keys + [k])[..|keys|] == keys;
    EntriesFrame(keys, m, m[k := x]);
  }

  lemma OfSessionAppend(images: seq<StoredImage>, x: StoredImage, s: string)
    ensures OfSession(images + [x], s) == OfSession(images, s) + (if x.sessionId == s then [x] else [])
  {
    assert (images + [x])[..|images|] == images;
  }

  lemma {:induction false} SessionKeysStep(keys: seq<string>, i: nat, m: map<string, StoredImage>, s: string)
    requires i < |keys|
    ensures SessionKeys(keys[..i + 1], m, s)
      == SessionKeys(keys[..i], m, s) + (if keys[i] in m && m[keys[i]].sessionId == s then [keys[i]] else [])
  {
    assert keys[..i + 1][..i] == keys[..i];
  }

  lemma {:induction false} OfSessionEntriesStep(keys: seq<string>, i: nat, m: map<string, StoredImage>, s: string)
    requires i < |keys| && keys[i] in m
    ensures OfSession(Entries(keys[..i + 1], m), s)
      == OfSession(Entries(keys[..i], m), s) + (if m[keys[i]].sessionId == s then [m[keys[i]]] else [])
  {
    assert keys[..i + 1][..i] == keys[..i];
    OfSessionAppend(Entries(keys[..i], m), m[keys[i]], s);
  }

  /** The values in key order of the map without the removed keys are the other sessions' images. */
  lemma {:induction false} EntriesAfterDelete(keys: seq<string>, m: map<string, StoredImage>, removed: set<string>, s: string)
    requires forall k :: k in keys ==> k in m && (k in removed <==> m[k].sessionId == s)
    ensures Entries(FilterOut(keys, removed), m - removed) == NotOfSession(Entries(keys, m), s)
  {
    if keys != [] {
      var init, k := keys[..|keys| - 1], keys[|keys| - 1];
      EntriesAfterDelete(init, m, removed, s);
      var fi := FilterOut(init, removed);
      var ei := Entries(init, m);
      assert Entries(keys, m) == ei + [m[k]];
      assert Entries(keys, m)[..|ei|] == ei;
      if k !in removed {
        assert FilterOut(keys, removed) == fi + [k];
        assert (fi + [k])[..|fi|] == fi;
        assert Entries(fi + [k], m - removed) == Entries(fi, m - removed) + [m[k]];
      } else {
        assert FilterOut(keys, removed) == fi;
      }
    }
  }

  /** Keeping the other sessions' images does not change any other session's images, and leaves none of `s`. */
  lemma {:induction false} OfSessionAfterDelete(images: seq<StoredImage>, s: string, t: string)
    ensures OfSession(NotOfSession(images, s), t) == if t == s then [] else OfSession(images, t)
  {
    if images != [] {
      var init, x := images[..|images| - 1], images[|images| - 1];
      OfSessionAfterDelete(init, s, t);
      var ni := NotOfSession(init, s);
      if x.sessionId != s {
        assert NotOfSession(images, s) == ni + [x];
        OfSessionAppend(ni, x, t);
      } else {
        assert NotOfSession(images, s) == ni;
      }
    }
  }

  // ---------------------------------------------------------------------------
  // Labels and counters
  // ---------------------------------------------------------------------------

  /** `sessionCounters.get(s) || 0`. */
  function Counter(counters: map<string, nat>, s: string): nat {
    if s in counters then counters[s] else 0
  }

  /** The descriptions of `images`, in order. */
  function Labels(images: seq<StoredImage>): (r: seq<string>)
    ensures |r| == |images|
    ensures forall i :: 0 <= i < |images| ==> r[i] == images[i].description
  {
    seq(|images|, i requires 0 <= i < |images| => images[i].description)
  }

  /** `["matplotlib output [1]", ..., "matplotlib output [n]"]`. */
  function Numbered(n: nat): (r: seq<string>)
    ensures |r| == n
  {
    if n == 0 then [] else Numbered(n - 1) + [Description(n)]
  }

  lemma {:induction false} NumberedAt(n: nat, i: nat)
    requires i < n
    ensures Numbered(n)[i] == Description(i + 1)
  {
    if i < n - 1 {
      NumberedAt(n - 1, i);
    }
  }

  // ---------------------------------------------------------------------------
  // The invariant, on the values of the store's fields
  // ---------------------------------------------------------------------------

  /** The key order lists each id of the map once, and every image is filed under its own id. */
  ghost predicate KeysInv(images: map<string, StoredImage>, keys: seq<string>) {
    && Distinct(keys)
    && images.Keys == KeySet(keys)
    && (forall k :: k in images ==> images[k].id == k)
  }

  /**
   * A session has a counter exactly when it has images; its images, in insertion order, are
   * labelled [1], [2], ... up to the counter, with no gap.
   */
  ghost predicate SessionInv(all: seq<StoredImage>, counters: map<string, nat>) {
    && (forall s :: s in counters ==> counters[s] > 0)
    && (forall s {:trigger OfSession(all, s)} :: Labels(OfSession(all, s)) == Numbered(Counter(counters, s)))
  }

  ghost predicate StoreInv(images: map<string, StoredImage>, keys: seq<string>, counters: map<string, nat>) {
    KeysInv(images, keys) && SessionInv(Entries(keys, images), counters)
  }

  lemma MapMinusOneMore(m: map<string, StoredImage>, removed: set<string>, k: string)
    ensures (m - removed) - {k} == m - (removed + {k})
  {
  }

  lemma KeyIsStored(images: map<string, StoredImage>, keys: seq<string>, i: nat)
    requires KeysInv(images, keys) && i < |keys|
    ensures keys[i] in images
  {
    KeySetMembers(keys);
    assert keys[i] in keys;
  }

  lemma KeysInvAfterStore(images: map<string, StoredImage>, keys: seq<string>, x: StoredImage)
    requires KeysInv(images, keys) && x.id !in images
    ensures x.id !in keys
    ensures KeysInv(images[x.id := x], keys + [x.id])
  {
    KeySetMembers(keys);
    KeySetAppend(keys, x.id);
  }

  lemma SessionInvAfterStore(all: seq<StoredImage>, counters: map<string, nat>, x: StoredImage)
    requires SessionInv(all, counters)
    requires x.description == Description(Counter(counters, x.sessionId) + 1)
    ensures SessionInv(all + [x], counters[x.sessionId := Counter(counters, x.sessionId) + 1])
  {
    var counters' := counters[x.sessionId := Counter(counters, x.sessionId) + 1];
    forall s ensures Labels(OfSession(all + [x], s)) == Numbered(Counter(counters', s)) {
      OfSessionAppend(all, x, s);
      var o := OfSession(all, s);
      if s == x.sessionId {
        assert Labels(o + [x]) == Labels(o) + [x.description];
      }
    }
  }

  /** Storing a fresh image labelled with the next ordinal of its session keeps the invariant. */
  lemma StoreKeepsInv(images: map<string, StoredImage>, keys: seq<string>, counters: map<string, nat>, x: StoredImage)
    requires StoreInv(images, keys, counters) && x.id !in images
    requires x.description == Description(Counter(counters, x.sessionId) + 1)
    ensures Entries(keys + [x.id], images[x.id := x]) == Entries(keys, images) + [x]
    ensures StoreInv(images[x.id := x], keys + [x.id], counters[x.sessionId := Counter(counters, x.sessionId) + 1])
  {
    KeysInvAfterStore(images, keys, x);
    EntriesAppend(keys, images, x.id, x);
    SessionInvAfterStore(Entries(keys, images), counters, x);
  }

  lemma KeysInvAfterDelete(images: map<string, StoredImage>, keys: seq<string>, removed: set<string>)
    requires KeysInv(images, keys)
    ensures KeysInv(images - removed, FilterOut(keys, removed))
  {
    FilterOutDistinct(keys, removed);
    FilterOutKeySet(keys, removed);
  }

  lemma SessionInvAfterDelete(all: seq<StoredImage>, counters: map<string, nat>, s: string)
    requires SessionInv(all, counters)
    ensures SessionInv(NotOfSession(all, s), counters - {s})
  {
    forall t ensures Labels(OfSession(NotOfSession(all, s), t)) == Numbered(Counter(counters - {s}, t)) {
      OfSessionAfterDelete(all, s, t);
    }
  }

  /** Dropping a session's keys, images and counter keeps the invariant. */
  lemma DeleteKeepsInv(images: map<string, StoredImage>, keys: seq<string>, counters: map<string, nat>, removed: set<string>, s: string)
    requires StoreInv(images, keys, counters)
    requires forall k :: k in removed <==> k in images && images[k].sessionId == s
    ensures Entries(FilterOut(keys, removed), images - removed) == NotOfSession(Entries(keys, images), s)
    ensures StoreInv(images - removed, FilterOut(keys, removed), counters - {s})
  {
    KeySetMembers(keys);
    EntriesAfterDelete(keys, images, removed, s);
    KeysInvAfterDelete(images, keys, removed);
    SessionInvAfterDelete(Entries(keys, images), counters, s);
  }

  /** Deleting the keys of a session's images, found in key order, keeps the invariant. */
  lemma DeleteSessionKeys(images: map<string, StoredImage>, keys: seq<string>, counters: map<string, nat>, s: string)
    requires StoreInv(images, keys, counters)
    ensures var removed := KeySet(SessionKeys(keys, images, s));
      && removed == (set k | k in images && images[k].sessionId == s)
      && Entries(FilterOut(keys, removed), images - removed) == NotOfSession(Entries(keys, images), s)
      && StoreInv(images - removed, FilterOut(keys, removed), counters - {s})
  {
    var removed := KeySet(SessionKeys(keys, images, s));
    assert forall k :: k in removed <==> k in images && images[k].sessionId == s by {
      SessionKeysMembers(keys, images, s);
      KeySetMembers(keys);
    }
    DeleteKeepsInv(images, keys, counters, removed, s);
  }

  /** A session none of whose images is listed has no images to select. */
  lemma {:induction false} OfAbsentSession(images: seq<StoredImage>, s: string)
    requires forall i :: 0 <= i < |images| ==> images[i].sessionId != s
    ensures OfSession(images, s) == []
  {
    if images != [] {
      OfAbsentSession(images[..|images| - 1], s);
    }
  }

  /** A session none of whose images is stored has no keys to collect. */
  lemma {:induction false} KeysOfAbsentSession(keys: seq<string>, m: map<string, StoredImage>, s: string)
    requires forall k :: k in m ==> m[k].sessionId != s
    ensures SessionKeys(keys, m, s) == []
  {
    if keys != [] {
      KeysOfAbsentSession(keys[..|keys| - 1], m, s);
    }
  }

  /** Deleting a session without images finds nothing to delete and no counter to clear. */
  lemma DeleteUnknownSessionChangesNothing(images: map<string, StoredImage>, keys: seq<string>,
    counters: map<string, nat>, s: string)
    requires StoreInv(images, keys, counters)
    requires forall i :: 0 <= i < |Entries(keys, images)| ==> Entries(keys, images)[i].sessionId != s
    ensures SessionKeys(keys, images, s) == []
    ensures s !in counters
  {
    var all := Entries(keys, images);
    KeySetMembers(keys);
    forall k | k in images
      ensures images[k].sessionId != s
    {
      InEntries(keys, images, k);
    }
    KeysOfAbsentSession(keys, images, s);
    OfAbsentSession(all, s);
    assert |Numbered(Counter(counters, s))| == |Labels(OfSession(all, s))| == 0;
  }

  // ---------------------------------------------------------------------------
  // The store
  // ---------------------------------------------------------------------------

  class ImageStore {
    /** Images by id. */
    var images: map<string, StoredImage>
    /** The ids in the order they were inserted: the iteration order of the source's `Map`. */
    var keys: seq<string>
    /** The last ordinal handed out per session. */
    var sessionCounters: map<string, nat>

    function CounterOf(s: string): nat
      reads this
    {
      Counter(sessionCounters, s)
    }

    /** Every stored image, in insertion order (the accessor the resource listing calls as `listAll`). */
    function ListAll(): seq<StoredImage>
      reads this
    {
      Entries(keys, images)
    }

    ghost predicate Valid()
      reads this
    {
      StoreInv(images, keys, sessionCounters)
    }

    constructor ()
      ensures Valid() && images == map[] && keys == [] && sessionCounters == map[]
    {
      images := map[];
      keys := [];
      sessionCounters := map[];
    }

    /**
     * `store(sessionId, imageData)`. The id the source draws from `randomUUID()` and the clock
     * reading from `new Date()` are parameters; the id must not be in use.
     */
    method Store(sessionId: string, imageData: ImageOutput, imageId: string, createdAt: int) returns (ref: ImageReference)
      requires Valid() && imageId !in images
      modifies this
      ensures Valid()
      ensures var stored := StoredImage(imageId, sessionId, imageData.mimeType, imageData.data, imageData.width,
                                        imageData.height, createdAt, Description(old(CounterOf(sessionId)) + 1));
        && images == old(images)[imageId := stored]
        && keys == old(keys) + [imageId]
        && ListAll() == old(ListAll()) + [stored]
        && ref == ImageReference(BuildResourceUri(sessionId, imageId, imageData.mimeType), imageData.mimeType, stored.description)
      ensures sessionCounters == old(sessionCounters)[sessionId := old(CounterOf(sessionId)) + 1]
    {
      var currentCount := if sessionId in sessionCounters then sessionCounters[sessionId] else 0;
      var newCount := currentCount + 1;
      assert newCount == CounterOf(sessionId) + 1;
      sessionCounters := sessionCounters[sessionId := newCount];

      // the store's private `getExtension` has the same table as `getExtensionFromMimeType`
      var resourceUri := BuildResourceUri(sessionId, imageId, imageData.mimeType);
      var description := Description(newCount);

      var storedImage := StoredImage(imageId, sessionId, imageData.mimeType, imageData.data, imageData.width,
                                     imageData.height, createdAt, description);
      StoreKeepsInv(images, keys, old(sessionCounters), storedImage);
      images := images[imageId := storedImage];
      keys := keys + [imageId];
      ref := ImageReference(resourceUri, imageData.mimeType, description);
    }

    /** `get(resourceUri)`: the image whose id the locator carries; the session segment is not consulted. */
    function Get(resourceUri: string): (r: Option<StoredImage>)
      reads this
      requires Valid()
      ensures r.Some? ==> r.value in ListAll() && ExtractImageIdFromUri(resourceUri) == Some(r.value.id)
      ensures r.None? <==> ExtractImageIdFromUri(resourceUri).None? || ExtractImageIdFromUri(resourceUri).value !in images
    {
      match ExtractImageIdFromUri(resourceUri)
      case None => None
      case Some(imageId) =>
        if imageId in images then
          InListAll(imageId);
          Some(images[imageId])
        else None
    }

    /** Every listed image is the one filed under its own id. */
    lemma ListedIsStored(image: StoredImage)
      requires Valid() && image in ListAll()
      ensures image.id in images && images[image.id] == image
    {
      KeySetMembers(keys);
      EntriesStored(keys, images, image);
    }

    lemma InListAll(k: string)
      requires Valid() && k in images
      ensures images[k] in ListAll()
    {
      KeySetMembers(keys);
      InEntries(keys, images, k);
    }

    /**
     * A locator built for a stored image leads back to it; with `Store`'s postcondition this is
     * the store-then-get round trip.
     */
    lemma StoredIsRetrievable(image: StoredImage, mimeType: string)
      requires Valid() && image.id in images && images[image.id] == image
      requires SessionSegment(image.sessionId) && DotFreeSegment(image.id)
      ensures Get(BuildResourceUri(image.sessionId, image.id, mimeType)) == Some(image)
    {
      RoundTrip(image.sessionId, image.id, mimeType);
    }

    /** `listBySession(sessionId)`: the session's images, in insertion order. */
    method ListBySession(sessionId: string) returns (result: seq<StoredImage>)
      requires Valid()
      ensures result == OfSession(ListAll(), sessionId)
      ensures forall x :: x in result <==> x in ListAll() && x.sessionId == sessionId
      ensures |result| == CounterOf(sessionId)
      ensures Labels(result) == Numbered(CounterOf(sessionId))
    {
      KeySetMembers(keys);
      result := [];
      var i := 0;
      while i < |keys|
        invariant 0 <= i <= |keys|
        invariant result == OfSession(Entries(keys[..i], images), sessionId)
      {
        assert keys[i] in keys;
        var image := images[keys[i]];
        OfSessionEntriesStep(keys, i, images, sessionId);
        if image.sessionId == sessionId {
          result := result + [image];
        }
        i := i + 1;
      }
      assert keys[..i] == keys;
      SessionFilterMembers(ListAll(), sessionId);
    }

    /** The first loop of `deleteBySession`: the ids of the session's images, in key order. */
    method SessionImageIds(sessionId: string) returns (imageIds: seq<string>)
      requires KeysInv(images, keys)
      ensures imageIds == SessionKeys(keys, images, sessionId)
      ensures forall k :: k in KeySet(imageIds) <==> k in images && images[k].sessionId == sessionId
    {
      imageIds := [];
      var i := 0;
      while i < |keys|
        invariant 0 <= i <= |keys|
        invariant imageIds == SessionKeys(keys[..i], images, sessionId)
      {
        KeyIsStored(images, keys, i);
        SessionKeysStep(keys, i, images, sessionId);
        if images[keys[i]].sessionId == sessionId {
          imageIds := imageIds + [keys[i]];
        }
        i := i + 1;
      }
      assert keys[..i] == keys;
      SessionKeysMembers(keys, images, sessionId);
      KeySetMembers(keys);
    }

    /** The second loop of `deleteBySession`: `Map.delete` of each id in turn. */
    method DeleteImages(imageIds: seq<string>)
      modifies this
      ensures images == old(images) - KeySet(imageIds)
      ensures keys == FilterOut(old(keys), KeySet(imageIds))
      ensures sessionCounters == old(sessionCounters)
    {
      ghost var removed: set<string> := {};
      FilterOutNothing(keys);
      assert images == old(images) - removed;
      var j := 0;
      while j < |imageIds|
        invariant 0 <= j <= |imageIds|
        invariant removed == KeySet(imageIds[..j])
        invariant images == old(images) - removed
        invariant keys == FilterOut(old(keys), removed)
        invariant sessionCounters == old(sessionCounters)
      {
        var imageId := imageIds[j];
        assert imageIds[..j + 1] == imageIds[..j] + [imageId];
        KeySetAppend(imageIds[..j], imageId);
        FilterOutOneMore(old(keys), removed, imageId);
        MapMinusOneMore(old(images), removed, imageId);
        images := images - {imageId};
        keys := FilterOut(keys, {imageId});
        removed := removed + {imageId};
        j := j + 1;
      }
      assert imageIds[..j] == imageIds;
    }

    /** `deleteBySession(sessionId)`: drops every image of the session and its counter; nothing else changes. */
    method DeleteBySession(sessionId: string)
      requires Valid()
      modifies this
      ensures Valid()
      ensures ListAll() == NotOfSession(old(ListAll()), sessionId)
      ensures images == old(images) - set k | k in old(images) && old(images)[k].sessionId == sessionId
      ensures sessionCounters == old(sessionCounters) - {sessionId}
    {
      DeleteSessionKeys(images, keys, sessionCounters, sessionId);
      var imageIdsToDelete := SessionImageIds(sessionId);
      DeleteImages(imageIdsToDelete);
      sessionCounters := sessionCounters - {sessionId};
    }

    /** After `DeleteBySession(s)` the session has no images and no counter, and other sessions keep theirs. */
    lemma DeletedSessionIsEmpty(all0: seq<StoredImage>, s: string)
      requires Valid() && ListAll() == NotOfSession(all0, s)
      ensures OfSession(ListAll(), s) == []
      ensures forall t :: t != s ==> OfSession(ListAll(), t) == OfSession(all0, t)
    {
      forall t ensures OfSession(ListAll(), t) == if t == s then [] else OfSession(all0, t) {
        OfSessionAfterDelete(all0, s, t);
      }
    }
  }
}
