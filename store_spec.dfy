/**
 * The state of rph::TextureStore as a value, and each of its operations as a
 * function from the old state to the new state and the returned TextureRef.
 * The class in texture_store.dfy is proved to follow these functions step by
 * step; store_properties.dfy proves what the source promises about them.
 */
module StoreSpec {
  import opened Containers
  import opened Cinder

  /**
   * The five containers of TextureStore.h:82-91, plus the source of fresh
   * texture objects:
   *   refs      - mTextureRefs, the collectable cache;
   *   pinned    - mTextureRefsNonGarbageCollectable;
   *   loading   - mLoadingQueue, the keys in flight;
   *   queue     - mQueue, the worker's FIFO of keys;
   *   surfaces  - mSurfaces, decoded surfaces waiting to become textures;
   *   nextTex   - the next object Texture::create returns.
   */
  datatype Store = Store(
    refs: map<Key, TexId>,
    pinned: map<Key, TexId>,
    loading: seq<Key>,
    queue: seq<Key>,
    surfaces: map<Key, Surface>,
    nextTex: TexId)

  /** What the constructor leaves behind (TextureStore.cpp:41-48). */
  const Empty: Store := Store(map[], map[], [], [], map[], 0)

  /** An operation's new state together with the TextureRef it returns (None for NULL). */
  datatype Outcome = Outcome(store: Store, tex: Option<TexId>)

  /** The worker's view of one pass through its loop. */
  datatype WorkerEvent =
    | BackedOff             // more than 5 surfaces buffered: `continue` before popping
    | Idle                  // mQueue empty: wait_and_pop_front would block
    | NotFound(key: Key)    // every source threw: `if(!succeeded) continue`
    | DecodeFailed(key: Key)  // ci::Surface(image) threw: the catch at line 307
    | Delivered(key: Key)   // mSurfaces.push(url, surface)

  datatype Step = Step(store: Store, event: WorkerEvent)

  /** A directory result: the new state and the vector of TextureRefs. */
  datatype Batch = Batch(store: Store, texs: seq<Option<TexId>>)

  /** The fetch loop of a directory: complete is false once fetch returned NULL. */
  datatype FetchBatch = FetchBatch(store: Store, texs: seq<TexId>, complete: bool)

  /** Most surfaces the buffer holds: the worker pushes only when size() <= 5. */
  const MaxBufferedSurfaces: nat := 6

  /**
   * What holds in every reachable state. Apart from the deduplication of the
   * queues it is never checked by the source; it is what the source's updates
   * happen to keep.
   */
  ghost predicate Inv(s: Store) {
    && NoDup(s.queue)
    && (forall k :: k in s.queue ==> k in s.loading)
    && (forall k :: k in s.surfaces ==> k in s.loading)
    && (forall k :: k in s.queue ==> k !in s.surfaces)
    && (forall k :: k in s.pinned ==> k in s.refs && s.refs[k] == s.pinned[k])
    && (forall k :: k in s.refs ==> s.refs[k] < s.nextTex)
    && (forall k1, k2 :: k1 in s.refs && k2 in s.refs && k1 != k2 ==> s.refs[k1] != s.refs[k2])
    && |s.surfaces| <= MaxBufferedSurfaces
  }

  /** isLoading: membership in mLoadingQueue (TextureStore.cpp:65-67). */
  predicate IsLoading(s: Store, url: Key) {
    url in s.loading
  }

  /** isLoaded: membership in mTextureRefs (TextureStore.cpp:69-71). */
  predicate IsLoaded(s: Store, url: Key) {
    url in s.refs
  }

  /**
   * TextureRef::use_count() of texture t: one for its mTextureRefs entry, one
   * more when the pinned map holds it too, and the copies held outside. Under
   * Inv each texture object sits under one key only, so this is exact.
   */
  function UseCount(t: TexId, pinned: map<Key, TexId>, holders: TexId -> nat): (n: nat)
    ensures n >= 1
    ensures n >= 2 <==> t in pinned.Values || holders(t) > 0
  {
    1 + (if t in pinned.Values then 1 else 0) + holders(t)
  }

  /** garbageCollect: what is left of mTextureRefs (TextureStore.cpp:312-323). */
  function Collect(refs: map<Key, TexId>, pinned: map<Key, TexId>, holders: TexId -> nat): (r: map<Key, TexId>)
    ensures forall k :: k in r <==> k in refs && UseCount(refs[k], pinned, holders) >= 2
    ensures forall k :: k in r ==> r[k] == refs[k]
  {
    map k | k in refs && UseCount(refs[k], pinned, holders) >= 2 :: refs[k]
  }

  /** garbageCollect on the whole state: only the cache changes, and it only shrinks. */
  function GarbageCollect(s: Store, holders: TexId -> nat): (r: Store)
    ensures r.refs.Keys <= s.refs.Keys
    ensures forall k :: k in r.refs ==> r.refs[k] == s.refs[k]
    ensures r.pinned == s.pinned && r.loading == s.loading && r.queue == s.queue
    ensures r.surfaces == s.surfaces && r.nextTex == s.nextTex
  {
    s.(refs := Collect(s.refs, s.pinned, holders))
  }

  /**
   * The surface path shared by load and fetch: pop the surface, drop the key
   * from mLoadingQueue, collect if asked, then cache a new texture; pinned
   * too when pin holds.
   */
  function Claim(s: Store, w: World, url: Key, pin: bool, runGC: bool): (r: Outcome)
    requires url in s.surfaces
    ensures r.tex == Some(s.nextTex) && r.store.nextTex == s.nextTex + 1
    ensures url in r.store.refs && r.store.refs[url] == s.nextTex
    ensures pin ==> url in r.store.pinned && r.store.pinned[url] == s.nextTex
    ensures !pin ==> r.store.pinned == s.pinned
    ensures r.store.surfaces.Keys == s.surfaces.Keys - {url} && url !in r.store.loading
    ensures r.store.queue == s.queue
  {
    var s1 := s.(surfaces := TryPop(s.surfaces, url).0, loading := Erase(s.loading, url));
    var s2 := if runGC then GarbageCollect(s1, w.holders) else s1;
    var t := s2.nextTex;
    var s3 := s2.(refs := s2.refs[url := t], nextTex := t + 1,
                  pinned := if pin then s2.pinned[url := t] else s2.pinned);
    Outcome(s3, Some(t))
  }

  /** A texture made from an image a source opened; pinned when not collectable. */
  function CacheNew(s: Store, url: Key, isGarbageCollectable: bool): (r: Outcome)
    ensures r.tex == Some(s.nextTex) && r.store.nextTex == s.nextTex + 1
    ensures r.store.refs.Keys == s.refs.Keys + {url} && r.store.refs[url] == s.nextTex
    ensures forall k :: k in s.refs && k != url ==> r.store.refs[k] == s.refs[k]
    ensures !isGarbageCollectable ==> url in r.store.pinned && r.store.pinned[url] == s.nextTex
    ensures isGarbageCollectable ==> r.store.pinned == s.pinned
    ensures r.store.loading == s.loading && r.store.queue == s.queue && r.store.surfaces == s.surfaces
  {
    var t := s.nextTex;
    Outcome(s.(refs := s.refs[url := t], nextTex := t + 1,
               pinned := if !isGarbageCollectable then s.pinned[url := t] else s.pinned),
            Some(t))
  }

  /** TextureStore::load (TextureStore.cpp:73-141). */
  function Load(s: Store, w: World, url: Key, isGarbageCollectable: bool := true,
                runGarbageCollector: bool := true): (r: Outcome)
    ensures r.tex.Some? ==> url in r.store.refs && r.store.refs[url] == r.tex.value
    ensures r.tex.None? ==> url !in r.store.refs
    ensures r.store.queue == s.queue && r.store.surfaces.Keys <= s.surfaces.Keys
    ensures r.store.pinned.Keys <= s.pinned.Keys + {url}
  {
    if url in s.refs then Outcome(s, Some(s.refs[url]))
    else if url in s.surfaces then Claim(s, w, url, false, runGarbageCollector)
    else if FirstOpen(w.open, LoadChain, url).Some? then CacheNew(s, url, isGarbageCollectable)
    else Outcome(GarbageCollect(s, w.holders), None)
  }

  /** TextureStore::fetch (TextureStore.cpp:176-209). */
  function Fetch(s: Store, w: World, url: Key, isGarbageCollectable: bool := true,
                 runGarbageCollector: bool := true): (r: Outcome)
    ensures r.tex.Some? ==> url in r.store.refs && r.store.refs[url] == r.tex.value
    ensures r.tex.None? <==> url !in s.refs && url !in s.surfaces
    ensures r.tex.None? ==> url !in r.store.refs && url in r.store.loading && r.store.surfaces == s.surfaces
  {
    if url in s.refs then Outcome(s, Some(s.refs[url]))
    else if url in s.surfaces then Claim(s, w, url, !isGarbageCollectable, runGarbageCollector)
    else
      var (loading, added) := PushBack(s.loading, url);
      var queue := if added then PushBack(s.queue, url).0 else s.queue;
      Outcome(s.(loading := loading, queue := queue), None)
  }

  /** One pass through the while loop of loadImagesThreadFn (TextureStore.cpp:260-308). */
  function WorkerStep(s: Store, w: World): (r: Step)
    ensures r.store.refs == s.refs && r.store.pinned == s.pinned &&
            r.store.loading == s.loading && r.store.nextTex == s.nextTex
    ensures !r.event.Delivered? ==> r.store.surfaces == s.surfaces
  {
    if |s.surfaces| > 5 then Step(s, BackedOff)
    else if s.queue == [] then Step(s, Idle)
    else
      var url := s.queue[0];
      var s1 := s.(queue := s.queue[1..]);
      var image := FirstOpen(w.open, WorkerChain, url);
      if image.None? then Step(s1, NotFound(url))
      else
        var surface := w.decode(image.value);
        if surface.None? then Step(s1, DecodeFailed(url))
        else
          Step(s1.(surfaces := s1.surfaces[url := surface.value]), Delivered(url))
  }

  /** How many copies of texture t a vector of TextureRefs holds. */
  function Copies(texs: seq<Option<TexId>>, t: TexId): (n: nat)
    ensures n > 0 <==> Some(t) in texs
  {
    multiset(texs)[Some(t)]
  }

  /**
   * The world as a directory loop sees it: besides the copies held outside,
   * the loop's own vector of TextureRefs holds a copy of each texture in it,
   * and garbageCollect counts those through use_count().
   */
  function Holding(w: World, texs: seq<Option<TexId>>): (r: World)
    ensures r.open == w.open && r.decode == w.decode
  {
    var outside := w.holders;
    w.(holders := (t: TexId) => (outside(t) + Copies(texs, t)) as nat)
  }

  /**
   * The for loop of loadImageDirectory: load each image file with GC off,
   * appending the result to the vector acc, whose copies the collection at
   * TextureStore.cpp:135 sees.
   */
  function LoadEntries(s: Store, w: World, dir: string, entries: seq<Entry>,
                       isGarbageCollectable: bool, acc: seq<Option<TexId>>): (r: Batch)
    ensures |r.texs| == |acc| + |ImageFiles(entries)|
    ensures r.texs[..|acc|] == acc
    decreases |entries|
  {
    if entries == [] then Batch(s, acc)
    else if IsImageFile(entries[0]) then
      assert |ImageFiles(entries)| == 1 + |ImageFiles(entries[1..])|;
      var o := Load(s, Holding(w, acc), EntryKey(dir, entries[0].name), isGarbageCollectable, false);
      var r := LoadEntries(o.store, w, dir, entries[1..], isGarbageCollectable, acc + [o.tex]);
      assert r.texs[..|acc|] == r.texs[..|acc| + 1][..|acc|];
      r
    else LoadEntries(s, w, dir, entries[1..], isGarbageCollectable, acc)
  }

  /**
   * TextureStore::loadImageDirectory (TextureStore.cpp:143-173). A listing of
   * None stands for a directory that exists neither as given nor under the
   * resource path; dir is the path that was found.
   */
  function LoadImageDirectory(s: Store, w: World, dir: string, listing: Option<seq<Entry>>,
                              isGarbageCollectable: bool := true): (r: Batch)
    ensures |r.texs| == if listing.None? then 0 else |ImageFiles(listing.value)|
    ensures listing.None? ==> r.store == s
  {
    if listing.None? then Batch(s, [])
    else
      var b := LoadEntries(s, w, dir, listing.value, isGarbageCollectable, []);
      Batch(GarbageCollect(b.store, Holding(w, b.texs).holders), b.texs)
  }

  /**
   * The for loop of fetchImageDirectory: fetch pinned with GC off, appending
   * to acc; at the first NULL it stops with complete = false.
   */
  function FetchEntries(s: Store, w: World, dir: string, entries: seq<Entry>, acc: seq<TexId>): (r: FetchBatch)
    ensures |acc| <= |r.texs| && r.texs[..|acc|] == acc
    ensures r.complete ==> |r.texs| == |acc| + |ImageFiles(entries)|
    ensures !r.complete ==> |r.texs| < |acc| + |ImageFiles(entries)|
    decreases |entries|
  {
    if entries == [] then FetchBatch(s, acc, true)
    else if IsImageFile(entries[0]) then
      var o := Fetch(s, w, EntryKey(dir, entries[0].name), false, false);
      if o.tex.None? then FetchBatch(o.store, acc, false)
      else
        var r := FetchEntries(o.store, w, dir, entries[1..], acc + [o.tex.value]);
        assert r.texs[..|acc|] == r.texs[..|acc| + 1][..|acc|];
        r
    else FetchEntries(s, w, dir, entries[1..], acc)
  }

  /**
   * TextureStore::fetchImageDirectory (TextureStore.cpp:211-246). The
   * isGarbageCollectable argument is accepted and never used. The final
   * collection sees the copies in the vector about to be returned.
   */
  function FetchImageDirectory(s: Store, w: World, dir: string, listing: Option<seq<Entry>>,
                               isGarbageCollectable: bool := true): (r: Batch)
    ensures r.texs == [] || (listing.Some? && |r.texs| == |ImageFiles(listing.value)|)
    ensures forall i :: 0 <= i < |r.texs| ==> r.texs[i].Some?
    ensures listing.None? ==> r.store == s
  {
    if listing.None? then Batch(s, [])
    else
      var b := FetchEntries(s, w, dir, listing.value, []);
      if !b.complete then Batch(b.store, [])
      else Batch(GarbageCollect(b.store, Holding(w, Wrap(b.texs)).holders), Wrap(b.texs))
  }

  /** The vector of non-NULL TextureRefs fetchImageDirectory returns. */
  function Wrap(ts: seq<TexId>): (r: seq<Option<TexId>>)
    ensures |r| == |ts|
    ensures forall i :: 0 <= i < |ts| ==> r[i] == Some(ts[i])
  {
    seq(|ts|, i requires 0 <= i < |ts| => Some(ts[i]))
  }
}
