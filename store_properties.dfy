/**
 * What the texture store promises, proved about the functions of StoreSpec.
 */
module StoreProperties {
  import opened Containers
  import opened Cinder
  import opened StoreSpec

  // ---------------------------------------------------------------------------
  // The invariant is kept by every operation
  // ---------------------------------------------------------------------------

  lemma EmptyInv()
    ensures Inv(Empty)
    ensures forall k :: !IsLoaded(Empty, k) && !IsLoading(Empty, k)
  {
  }

  /** garbageCollect keeps the invariant; in particular it never drops a pinned key. */
  lemma CollectPreservesInv(s: Store, holders: TexId -> nat)
    ensures Inv(s) ==> Inv(GarbageCollect(s, holders))
  {
    if Inv(s) {
      forall k | k in s.pinned
        ensures UseCount(s.refs[k], s.pinned, holders) >= 2
      {
        assert s.pinned[k] in s.pinned.Values;
      }
    }
  }

  /** Popping a buffered surface and erasing its key keeps the invariant. */
  lemma PopPreservesInv(s: Store, url: Key)
    requires Inv(s) && url in s.surfaces
    ensures Inv(s.(surfaces := TryPop(s.surfaces, url).0, loading := Erase(s.loading, url)))
  {
    assert url !in s.queue;
  }

  /** Caching a fresh texture under an uncached key keeps the invariant. */
  lemma CacheNewPreservesInv(s: Store, url: Key, c: bool)
    requires Inv(s) && url !in s.refs
    ensures Inv(CacheNew(s, url, c).store)
  {
    var r := CacheNew(s, url, c).store;
    var t := s.nextTex;
    assert url !in s.pinned;
    assert r.refs == s.refs[url := t] && r.nextTex == t + 1;
    assert forall k :: k in s.refs ==> s.refs[k] != t;
    assert r.pinned == if c then s.pinned else s.pinned[url := t];
  }

  lemma ClaimPreservesInv(s: Store, w: World, url: Key, pin: bool, runGC: bool)
    requires Inv(s) && url in s.surfaces && url !in s.refs
    ensures Inv(Claim(s, w, url, pin, runGC).store)
  {
    var s1 := s.(surfaces := TryPop(s.surfaces, url).0, loading := Erase(s.loading, url));
    PopPreservesInv(s, url);
    CollectPreservesInv(s1, w.holders);
    var s2 := if runGC then GarbageCollect(s1, w.holders) else s1;
    assert Inv(s2) && url !in s2.refs;
    CacheNewPreservesInv(s2, url, !pin);
    assert Claim(s, w, url, pin, runGC).store == CacheNew(s2, url, !pin).store;
  }

  lemma FetchPreservesInv(s: Store, w: World, url: Key, isGarbageCollectable: bool, runGarbageCollector: bool)
    requires Inv(s)
    ensures Inv(Fetch(s, w, url, isGarbageCollectable, runGarbageCollector).store)
  {
    if url !in s.refs && url in s.surfaces {
      ClaimPreservesInv(s, w, url, !isGarbageCollectable, runGarbageCollector);
    }
  }

  lemma LoadPreservesInv(s: Store, w: World, url: Key, isGarbageCollectable: bool, runGarbageCollector: bool)
    requires Inv(s)
    ensures Inv(Load(s, w, url, isGarbageCollectable, runGarbageCollector).store)
  {
    if url in s.refs {
    } else if url in s.surfaces {
      ClaimPreservesInv(s, w, url, false, runGarbageCollector);
    } else if FirstOpen(w.open, LoadChain, url).Some? {
      CacheNewPreservesInv(s, url, isGarbageCollectable);
    } else {
      CollectPreservesInv(s, w.holders);
    }
  }

  lemma WorkerStepPreservesInv(s: Store, w: World)
    requires Inv(s)
    ensures Inv(WorkerStep(s, w).store)
  {
    if |s.surfaces| <= 5 && s.queue != [] {
      var url := s.queue[0];
      var s1 := s.(queue := s.queue[1..]);
      assert forall i :: 1 <= i < |s.queue| ==> s.queue[i] == s.queue[1..][i - 1];
      assert url !in s.queue[1..] && url !in s.surfaces;
      assert Inv(s1);
      var image := FirstOpen(w.open, WorkerChain, url);
      if image.Some? && w.decode(image.value).Some? {
        var s2 := s1.(surfaces := s1.surfaces[url := w.decode(image.value).value]);
        assert |s2.surfaces| == |s.surfaces| + 1;
        assert WorkerStep(s, w).store == s2;
      }
    }
  }

  lemma {:induction false} LoadEntriesPreservesInv(s: Store, w: World, dir: string, entries: seq<Entry>, c: bool,
                                                    acc: seq<Option<TexId>>)
    requires Inv(s)
    ensures Inv(LoadEntries(s, w, dir, entries, c, acc).store)
    decreases |entries|
  {
    if entries != [] {
      if IsImageFile(entries[0]) {
        var key := EntryKey(dir, entries[0].name);
        var o := Load(s, Holding(w, acc), key, c, false);
        LoadPreservesInv(s, Holding(w, acc), key, c, false);
        LoadEntriesPreservesInv(o.store, w, dir, entries[1..], c, acc + [o.tex]);
      } else {
        LoadEntriesPreservesInv(s, w, dir, entries[1..], c, acc);
      }
    }
  }

  lemma {:induction false} FetchEntriesPreservesInv(s: Store, w: World, dir: string, entries: seq<Entry>, acc: seq<TexId>)
    requires Inv(s)
    ensures Inv(FetchEntries(s, w, dir, entries, acc).store)
    decreases |entries|
  {
    if entries != [] {
      if IsImageFile(entries[0]) {
        var key := EntryKey(dir, entries[0].name);
        FetchPreservesInv(s, w, key, false, false);
        var o := Fetch(s, w, key, false, false);
        if o.tex.Some? {
          FetchEntriesPreservesInv(o.store, w, dir, entries[1..], acc + [o.tex.value]);
        }
      } else {
        FetchEntriesPreservesInv(s, w, dir, entries[1..], acc);
      }
    }
  }

  lemma LoadImageDirectoryPreservesInv(s: Store, w: World, dir: string, listing: Option<seq<Entry>>, c: bool)
    requires Inv(s)
    ensures Inv(LoadImageDirectory(s, w, dir, listing, c).store)
  {
    if listing.Some? {
      var b := LoadEntries(s, w, dir, listing.value, c, []);
      LoadEntriesPreservesInv(s, w, dir, listing.value, c, []);
      CollectPreservesInv(b.store, Holding(w, b.texs).holders);
    }
  }

  lemma FetchImageDirectoryPreservesInv(s: Store, w: World, dir: string, listing: Option<seq<Entry>>, c: bool)
    requires Inv(s)
    ensures Inv(FetchImageDirectory(s, w, dir, listing, c).store)
  {
    if listing.Some? {
      var b := FetchEntries(s, w, dir, listing.value, []);
      FetchEntriesPreservesInv(s, w, dir, listing.value, []);
      CollectPreservesInv(b.store, Holding(w, Wrap(b.texs)).holders);
    }
  }

  // ---------------------------------------------------------------------------
  // load and fetch
  // ---------------------------------------------------------------------------

  /** A cached key is returned as it is, by both entry points, and nothing changes. */
  lemma CacheHit(s: Store, w: World, url: Key, c: bool, g: bool)
    requires IsLoaded(s, url)
    ensures Load(s, w, url, c, g) == Outcome(s, Some(s.refs[url]))
    ensures Fetch(s, w, url, c, g) == Outcome(s, Some(s.refs[url]))
  {
  }

  /**
   * fetch's surface path: the surface is consumed, the key stops loading, a
   * fresh texture is cached and survives the collection that ran before it,
   * and it is pinned exactly when it is not collectable.
   */
  lemma FetchClaim(s: Store, w: World, url: Key, c: bool, g: bool)
    requires Inv(s) && !IsLoaded(s, url) && url in s.surfaces
    ensures var r := Fetch(s, w, url, c, g);
      && r.tex == Some(s.nextTex)
      && s.nextTex !in s.refs.Values
      && r.store.refs == (if g then Collect(s.refs, s.pinned, w.holders) else s.refs)[url := s.nextTex]
      && (url in r.store.pinned <==> !c)
      && (!c ==> r.store.pinned == s.pinned[url := s.nextTex])
      && (c ==> r.store.pinned == s.pinned)
      && r.store.surfaces.Keys == s.surfaces.Keys - {url}
      && !IsLoading(r.store, url)
      && r.store.loading == Erase(s.loading, url)
      && r.store.surfaces == TryPop(s.surfaces, url).0
      && r.store.queue == s.queue
      && r.store.nextTex == s.nextTex + 1
  {
    assert url in s.loading;
    assert url !in s.pinned;
  }

  /** load's surface path does the same, but never writes the pinned map. */
  lemma LoadClaimNeverPins(s: Store, w: World, url: Key, c: bool, g: bool)
    requires Inv(s) && !IsLoaded(s, url) && url in s.surfaces
    ensures var r := Load(s, w, url, c, g);
      && r.tex == Some(s.nextTex)
      && r.store.refs == (if g then Collect(s.refs, s.pinned, w.holders) else s.refs)[url := s.nextTex]
      && r.store.pinned == s.pinned
      && url !in r.store.pinned
      && !IsLoading(r.store, url)
      && r.store.loading == Erase(s.loading, url)
      && r.store.surfaces == TryPop(s.surfaces, url).0
      && r.store.queue == s.queue
      && r.store.nextTex == s.nextTex + 1
  {
    assert url !in s.pinned;
  }

  /**
   * fetch on a key that is neither cached nor buffered returns NULL, leaves the
   * cache alone, and queues the key exactly when it was not already loading.
   */
  lemma FetchMiss(s: Store, w: World, url: Key, c: bool, g: bool)
    requires !IsLoaded(s, url) && url !in s.surfaces
    ensures var r := Fetch(s, w, url, c, g);
      && r.tex == None
      && r.store.refs == s.refs && r.store.pinned == s.pinned && r.store.surfaces == s.surfaces
      && IsLoading(r.store, url)
      && r.store.nextTex == s.nextTex
      && r.store.loading == PushBack(s.loading, url).0
      && r.store.queue == (if url in s.loading then s.queue else PushBack(s.queue, url).0)
      && (url in s.loading ==> r.store.queue == s.queue && r.store.loading == s.loading)
      && (url !in s.loading ==> r.store.loading == s.loading + [url])
      && (url !in s.loading && url !in s.queue ==> r.store.queue == s.queue + [url])
  {
  }

  /** fetch called n times in a row. */
  function FetchN(s: Store, w: World, url: Key, c: bool, g: bool, n: nat): Store
    decreases n
  {
    if n == 0 then s else FetchN(Fetch(s, w, url, c, g).store, w, url, c, g, n - 1)
  }

  lemma {:induction false} FetchNFixpoint(s: Store, w: World, url: Key, c: bool, g: bool, n: nat)
    requires Fetch(s, w, url, c, g).store == s
    ensures FetchN(s, w, url, c, g, n) == s
    decreases n
  {
    if n > 0 {
      FetchNFixpoint(s, w, url, c, g, n - 1);
    }
  }

  /**
   * Deduplication: fetching a pending key n >= 1 times leaves the same state
   * as fetching it once, so it is queued for the worker at most once.
   */
  lemma RepeatedFetchEnqueuesOnce(s: Store, w: World, url: Key, c: bool, g: bool, n: nat)
    requires !IsLoaded(s, url) && url !in s.surfaces && n >= 1
    ensures FetchN(s, w, url, c, g, n) == Fetch(s, w, url, c, g).store
    ensures FetchN(s, w, url, c, g, n).queue == if url in s.loading then s.queue else PushBack(s.queue, url).0
  {
    var s1 := Fetch(s, w, url, c, g).store;
    assert url in s1.loading;
    assert Fetch(s1, w, url, c, g).store == s1;
    FetchNFixpoint(s1, w, url, c, g, n - 1);
  }

  /**
   * load's fallback chain: the first of resource, file and URL that opens the
   * image is cached (pinned too when not collectable) without a collection;
   * when all three fail, load collects anyway and returns NULL.
   */
  lemma LoadFallback(s: Store, w: World, url: Key, c: bool, g: bool)
    requires Inv(s) && !IsLoaded(s, url) && url !in s.surfaces
    ensures var r := Load(s, w, url, c, g);
      && (r.tex.Some? <==> exists i :: 0 <= i < |LoadChain| && w.open(LoadChain[i], url).Some?)
      && (r.tex.Some? ==>
            && r.tex == Some(s.nextTex)
            && r.store.nextTex == s.nextTex + 1
            && r.store.refs == s.refs[url := s.nextTex]
            && r.store.pinned == if c then s.pinned else s.pinned[url := s.nextTex])
      && (r.tex.None? ==>
            && r.store.refs == Collect(s.refs, s.pinned, w.holders)
            && r.store.pinned == s.pinned
            && r.store.nextTex == s.nextTex
            && !IsLoaded(r.store, url))
      && r.store.loading == s.loading && r.store.queue == s.queue && r.store.surfaces == s.surfaces
  {
  }

  /** With the collector off, a successful load only adds to the cache. */
  lemma LoadNoGCKeepsCache(s: Store, w: World, url: Key, c: bool)
    ensures var r := Load(s, w, url, c, false);
      r.tex.Some? ==> s.refs.Keys <= r.store.refs.Keys && s.pinned.Keys <= r.store.pinned.Keys
  {
  }

  /**
   * isLoading is documented as "scheduled but not yet a texture", yet load's
   * fallback path never clears mLoadingQueue: a key that fetch queued and load
   * then opened synchronously is loaded and loading at once.
   */
  lemma LoadCachesPendingKey(w: World, url: Key)
    requires w.open(Resource, url).Some?
    ensures var s1 := Fetch(Empty, w, url).store;
      var s2 := Load(s1, w, url).store;
      Inv(s2) && IsLoaded(s2, url) && IsLoading(s2, url) && url in s2.queue
  {
    var s1 := Fetch(Empty, w, url).store;
    assert s1.loading == [url] && s1.queue == [url];
    assert FirstOpen(w.open, LoadChain, url).Some?;
  }

  // ---------------------------------------------------------------------------
  // garbageCollect
  // ---------------------------------------------------------------------------

  /** An entry is evicted exactly when the cache holds its only reference. */
  lemma CollectEvictsUnused(s: Store, holders: TexId -> nat, k: Key)
    requires k in s.refs
    ensures k !in GarbageCollect(s, holders).refs <==> UseCount(s.refs[k], s.pinned, holders) < 2
    ensures k !in GarbageCollect(s, holders).refs <==> s.refs[k] !in s.pinned.Values && holders(s.refs[k]) == 0
  {
  }

  /** Pinned entries are never evicted, and the pinned map is never touched. */
  lemma CollectKeepsPinned(s: Store, holders: TexId -> nat)
    requires Inv(s)
    ensures var r := GarbageCollect(s, holders);
      && r.pinned == s.pinned
      && (forall k :: k in s.pinned ==> k in r.refs && r.refs[k] == s.pinned[k])
      && r.refs.Keys <= s.refs.Keys
  {
    forall k | k in s.pinned
      ensures k in GarbageCollect(s, holders).refs
    {
      assert s.pinned[k] in s.pinned.Values;
    }
  }

  /** A second pass with unchanged counts removes nothing. */
  lemma CollectIdempotent(s: Store, holders: TexId -> nat)
    ensures GarbageCollect(GarbageCollect(s, holders), holders) == GarbageCollect(s, holders)
  {
    var once := Collect(s.refs, s.pinned, holders);
    assert Collect(once, s.pinned, holders) == once;
  }

  // ---------------------------------------------------------------------------
  // The worker
  // ---------------------------------------------------------------------------

  /** While more than 5 surfaces wait, a pass pops nothing and changes nothing. */
  lemma WorkerBacksOff(s: Store, w: World)
    requires |s.surfaces| > 5
    ensures WorkerStep(s, w) == Step(s, BackedOff)
  {
  }

  /**
   * Otherwise a pass pops the front key (FIFO), opens it with the first source
   * of file, resource, asset, URL that succeeds, and delivers the decoded
   * surface under that key. It never writes the cache, the pinned map or
   * mLoadingQueue.
   */
  lemma WorkerPopsFront(s: Store, w: World)
    requires |s.surfaces| <= 5 && s.queue != []
    ensures var r := WorkerStep(s, w);
      var url := s.queue[0];
      var image := FirstOpen(w.open, WorkerChain, url);
      && r.store.queue == s.queue[1..]
      && r.store.refs == s.refs && r.store.pinned == s.pinned && r.store.loading == s.loading
      && r.store.nextTex == s.nextTex
      && (r.event.Delivered? <==> image.Some? && w.decode(image.value).Some?)
      && (r.event.Delivered? ==>
            r.event.key == url && r.store.surfaces == s.surfaces[url := w.decode(image.value).value])
      && (!r.event.Delivered? ==> r.store.surfaces == s.surfaces)
      && (r.event.NotFound? <==> forall i :: 0 <= i < |WorkerChain| ==> w.open(WorkerChain[i], url).None?)
  {
  }

  /** Source priority: a key that opens as a file is never looked up anywhere else. */
  lemma WorkerPrefersFile(s: Store, w: World)
    requires |s.surfaces| <= 5 && s.queue != [] && w.open(File, s.queue[0]).Some?
    ensures FirstOpen(w.open, WorkerChain, s.queue[0]) == w.open(File, s.queue[0])
  {
  }

  /** The surface buffer never holds more than 6 entries. */
  lemma SurfaceBound(s: Store, w: World)
    requires Inv(s)
    ensures |WorkerStep(s, w).store.surfaces| <= MaxBufferedSurfaces
  {
    WorkerStepPreservesInv(s, w);
  }

  /**
   * A key the worker gave up on: still in mLoadingQueue, but neither queued
   * nor buffered, so nothing will ever erase it.
   */
  ghost predicate Stuck(s: Store, url: Key) {
    url in s.loading && url !in s.queue && url !in s.surfaces
  }

  /** A failed pass (every source threw, or the Surface could not be built) strands its key. */
  lemma WorkerFailureStrands(s: Store, w: World)
    requires Inv(s)
    ensures var r := WorkerStep(s, w);
      (r.event.NotFound? || r.event.DecodeFailed?) ==> Stuck(r.store, r.event.key)
  {
    if |s.surfaces| <= 5 && s.queue != [] {
      assert forall i :: 1 <= i < |s.queue| ==> s.queue[i] == s.queue[1..][i - 1];
      assert s.queue[0] !in s.queue[1..];
    }
  }

  /** Nothing the store does unstrands a key: isLoading stays true for good. */
  lemma StuckSurvivesFetch(s: Store, w: World, url: Key, other: Key, c: bool, g: bool)
    requires Stuck(s, url)
    ensures Stuck(Fetch(s, w, other, c, g).store, url)
    ensures IsLoading(Fetch(s, w, other, c, g).store, url)
  {
  }

  lemma StuckSurvivesLoad(s: Store, w: World, url: Key, other: Key, c: bool, g: bool)
    requires Stuck(s, url)
    ensures Stuck(Load(s, w, other, c, g).store, url)
  {
  }

  lemma StuckSurvivesWorker(s: Store, w: World, url: Key)
    requires Stuck(s, url)
    ensures Stuck(WorkerStep(s, w).store, url)
  {
    if s.queue != [] {
      assert s.queue[0] != url;
      assert forall i :: 1 <= i < |s.queue| ==> s.queue[i] == s.queue[1..][i - 1];
    }
  }

  lemma StuckSurvivesCollect(s: Store, holders: TexId -> nat, url: Key)
    requires Stuck(s, url)
    ensures Stuck(GarbageCollect(s, holders), url)
  {
  }

  /** Fetching a stranded key that is not cached returns NULL every time and changes nothing. */
  lemma StuckFetchNeverCompletes(s: Store, w: World, url: Key, c: bool, g: bool)
    requires Stuck(s, url) && !IsLoaded(s, url)
    ensures Fetch(s, w, url, c, g) == Outcome(s, None)
  {
  }

  // ---------------------------------------------------------------------------
  // Directories: which texture each element is
  // ---------------------------------------------------------------------------

  /** Running the load loop over pre + post is running it over pre, then over post. */
  lemma {:induction false} LoadEntriesAppend(s: Store, w: World, dir: string, pre: seq<Entry>, post: seq<Entry>,
                                             c: bool, acc: seq<Option<TexId>>)
    ensures var b := LoadEntries(s, w, dir, pre, c, acc);
      LoadEntries(s, w, dir, pre + post, c, acc) == LoadEntries(b.store, w, dir, post, c, b.texs)
    decreases |pre|
  {
    if pre == [] {
      assert pre + post == post;
    } else {
      assert (pre + post)[0] == pre[0] && (pre + post)[1..] == pre[1..] + post;
      if IsImageFile(pre[0]) {
        var o := Load(s, Holding(w, acc), EntryKey(dir, pre[0].name), c, false);
        LoadEntriesAppend(o.store, w, dir, pre[1..], post, c, acc + [o.tex]);
      } else {
        LoadEntriesAppend(s, w, dir, pre[1..], post, c, acc);
      }
    }
  }

  /**
   * loadImageDirectory's vector in listing order: the element for image file
   * e, which comes after the image files of pre, is what load returns for
   * dir + "/" + e's name, in the state the earlier loads left, with collection
   * off and the earlier results held by the vector.
   */
  lemma LoadImageDirectoryElement(s: Store, w: World, dir: string, pre: seq<Entry>, e: Entry, post: seq<Entry>,
                                  c: bool)
    requires IsImageFile(e)
    ensures var r := LoadImageDirectory(s, w, dir, Some(pre + [e] + post), c);
      var b := LoadEntries(s, w, dir, pre, c, []);
      var i := |ImageFiles(pre)|;
      && i < |r.texs| && i < |ImageFiles(pre + [e] + post)|
      && ImageFiles(pre + [e] + post)[i] == e.name
      && r.texs[i] == Load(b.store, Holding(w, b.texs), EntryKey(dir, e.name), c, false).tex
  {
    var suffix := [e] + post;
    assert pre + [e] + post == pre + suffix;
    assert suffix[0] == e && suffix[1..] == post;
    ImageFilesAppend(pre, suffix);
    ImageFilesAppend([e], post);
    var b := LoadEntries(s, w, dir, pre, c, []);
    LoadEntriesAppend(s, w, dir, pre, suffix, c, []);
    var o := Load(b.store, Holding(w, b.texs), EntryKey(dir, e.name), c, false);
    var rest := LoadEntries(o.store, w, dir, post, c, b.texs + [o.tex]);
    assert LoadEntries(b.store, w, dir, suffix, c, b.texs) == rest;
    assert rest.texs[..|b.texs| + 1][|b.texs|] == o.tex;
  }

  /** Running the fetch loop over pre + post is running it over pre, then, unless it stopped, over post. */
  lemma {:induction false} FetchEntriesAppend(s: Store, w: World, dir: string, pre: seq<Entry>, post: seq<Entry>,
                                              acc: seq<TexId>)
    ensures var b := FetchEntries(s, w, dir, pre, acc);
      FetchEntries(s, w, dir, pre + post, acc) ==
        if b.complete then FetchEntries(b.store, w, dir, post, b.texs) else b
    decreases |pre|
  {
    if pre == [] {
      assert pre + post == post;
    } else {
      assert (pre + post)[0] == pre[0] && (pre + post)[1..] == pre[1..] + post;
      if IsImageFile(pre[0]) {
        var o := Fetch(s, w, EntryKey(dir, pre[0].name), false, false);
        if o.tex.Some? {
          FetchEntriesAppend(o.store, w, dir, pre[1..], post, acc + [o.tex.value]);
        }
      } else {
        FetchEntriesAppend(s, w, dir, pre[1..], post, acc);
      }
    }
  }

  /**
   * While every fetch so far returned a texture, the element for image file e
   * is the texture fetch returns for its key in the state the earlier fetches
   * left, pinned and with collection off.
   */
  lemma FetchEntriesElement(s: Store, w: World, dir: string, pre: seq<Entry>, e: Entry, post: seq<Entry>)
    requires IsImageFile(e)
    ensures var b := FetchEntries(s, w, dir, pre, []);
      var o := Fetch(b.store, w, EntryKey(dir, e.name), false, false);
      var r := FetchEntries(s, w, dir, pre + [e] + post, []);
      var i := |ImageFiles(pre)|;
      && i < |ImageFiles(pre + [e] + post)| && ImageFiles(pre + [e] + post)[i] == e.name
      && (b.complete && o.tex.Some? ==> i < |r.texs| && r.texs[i] == o.tex.value)
  {
    var suffix := [e] + post;
    assert pre + [e] + post == pre + suffix;
    assert suffix[0] == e && suffix[1..] == post;
    ImageFilesAppend(pre, suffix);
    ImageFilesAppend([e], post);
    var b := FetchEntries(s, w, dir, pre, []);
    FetchEntriesAppend(s, w, dir, pre, suffix, []);
    var o := Fetch(b.store, w, EntryKey(dir, e.name), false, false);
    if b.complete && o.tex.Some? {
      var rest := FetchEntries(o.store, w, dir, post, b.texs + [o.tex.value]);
      assert FetchEntries(b.store, w, dir, suffix, b.texs) == rest;
      assert rest.texs[..|b.texs| + 1][|b.texs|] == o.tex.value;
    }
  }

  /**
   * The fetch loop breaks at the first NULL: once the fetch for e returns NULL,
   * the state is the one that fetch left and no later entry is fetched, so
   * no later key is queued; once the loop has stopped, later entries change nothing.
   */
  lemma FetchEntriesStopsAtNull(s: Store, w: World, dir: string, pre: seq<Entry>, e: Entry, post: seq<Entry>)
    requires IsImageFile(e)
    ensures var b := FetchEntries(s, w, dir, pre, []);
      var o := Fetch(b.store, w, EntryKey(dir, e.name), false, false);
      var r := FetchEntries(s, w, dir, pre + [e] + post, []);
      && (b.complete && o.tex.None? ==> r == FetchBatch(o.store, b.texs, false))
      && (!b.complete ==> r == b)
  {
    assert pre + [e] + post == pre + ([e] + post);
    FetchEntriesAppend(s, w, dir, pre, [e] + post, []);
    assert ([e] + post)[0] == e;
  }

  // ---------------------------------------------------------------------------
  // Directories: what stays cached
  // ---------------------------------------------------------------------------

  /**
   * Every non-NULL element of texs is cached under the key made from the
   * matching name: the i-th TextureRef of the vector is mTextureRefs[dir + "/" + names[i]].
   */
  ghost predicate CachedAt(st: Store, dir: string, names: seq<string>, texs: seq<Option<TexId>>) {
    && |names| == |texs|
    && forall i :: 0 <= i < |texs| && texs[i].Some? ==>
         EntryKey(dir, names[i]) in st.refs && st.refs[EntryKey(dir, names[i])] == texs[i].value
  }

  /** A collection that sees the vector's copies evicts none of its textures. */
  lemma CollectKeepsCached(s: Store, w: World, dir: string, names: seq<string>, texs: seq<Option<TexId>>)
    requires CachedAt(s, dir, names, texs)
    ensures CachedAt(GarbageCollect(s, Holding(w, texs).holders), dir, names, texs)
  {
    forall i | 0 <= i < |texs| && texs[i].Some?
      ensures UseCount(texs[i].value, s.pinned, Holding(w, texs).holders) >= 2
    {
      assert Some(texs[i].value) in texs;
    }
  }

  /** One load of the loop keeps every earlier result cached and caches its own. */
  lemma LoadKeepsCached(s: Store, w: World, dir: string, names: seq<string>, acc: seq<Option<TexId>>,
                        name: string, c: bool)
    requires CachedAt(s, dir, names, acc)
    ensures var o := Load(s, Holding(w, acc), EntryKey(dir, name), c, false);
      CachedAt(o.store, dir, names + [name], acc + [o.tex])
  {
    var url := EntryKey(dir, name);
    var o := Load(s, Holding(w, acc), url, c, false);
    if url !in s.refs && url !in s.surfaces && FirstOpen(w.open, LoadChain, url).None? {
      CollectKeepsCached(s, w, dir, names, acc);
    }
    forall i | 0 <= i < |acc| && acc[i].Some?
      ensures EntryKey(dir, names[i]) in o.store.refs && o.store.refs[EntryKey(dir, names[i])] == acc[i].value
    {
    }
  }

  lemma {:induction false} LoadEntriesCaches(s: Store, w: World, dir: string, entries: seq<Entry>, c: bool,
                                             names: seq<string>, acc: seq<Option<TexId>>)
    requires CachedAt(s, dir, names, acc)
    ensures var r := LoadEntries(s, w, dir, entries, c, acc);
      CachedAt(r.store, dir, names + ImageFiles(entries), r.texs)
    decreases |entries|
  {
    if entries == [] {
      assert names + [] == names;
    } else {
      var tail := entries[1..];
      if IsImageFile(entries[0]) {
        var n := entries[0].name;
        assert ImageFiles(entries) == [n] + ImageFiles(tail);
        var names2 := names + [n];
        assert names2 + ImageFiles(tail) == names + ImageFiles(entries);
        var o := Load(s, Holding(w, acc), EntryKey(dir, n), c, false);
        assert LoadEntries(s, w, dir, entries, c, acc) == LoadEntries(o.store, w, dir, tail, c, acc + [o.tex]);
        LoadKeepsCached(s, w, dir, names, acc, n, c);
        LoadEntriesCaches(o.store, w, dir, tail, c, names2, acc + [o.tex]);
      } else {
        LoadEntriesCaches(s, w, dir, tail, c, names, acc);
        assert LoadEntries(s, w, dir, entries, c, acc) == LoadEntries(s, w, dir, tail, c, acc);
        assert ImageFiles(entries) == ImageFiles(tail);
      }
    }
  }

  /** No element of a TextureRef vector is NULL. */
  ghost predicate AllSome(ts: seq<Option<TexId>>) {
    forall i :: 0 <= i < |ts| ==> ts[i].Some?
  }

  /** With every load of the loop succeeding, the collection at line 135 never runs. */
  lemma {:induction false} LoadEntriesKeepsCache(s: Store, w: World, dir: string, entries: seq<Entry>, c: bool,
                                                 acc: seq<Option<TexId>>)
    ensures var r := LoadEntries(s, w, dir, entries, c, acc);
      AllSome(r.texs) ==> s.refs.Keys <= r.store.refs.Keys
    decreases |entries|
  {
    if entries != [] {
      var tail := entries[1..];
      if IsImageFile(entries[0]) {
        var key := EntryKey(dir, entries[0].name);
        var o := Load(s, Holding(w, acc), key, c, false);
        var r := LoadEntries(o.store, w, dir, tail, c, acc + [o.tex]);
        LoadEntriesKeepsCache(o.store, w, dir, tail, c, acc + [o.tex]);
        if AllSome(r.texs) {
          assert r.texs[..|acc| + 1][|acc|] == o.tex;
          LoadNoGCKeepsCache(s, Holding(w, acc), key, c);
        }
      } else {
        LoadEntriesKeepsCache(s, w, dir, tail, c, acc);
      }
    }
  }

  /**
   * After the load loop every non-NULL result is cached under its key; when
   * every load succeeds, nothing was evicted and every image file's key is cached.
   */
  lemma LoadEntriesCachesAll(s: Store, w: World, dir: string, entries: seq<Entry>, c: bool)
    ensures var r := LoadEntries(s, w, dir, entries, c, []);
      && CachedAt(r.store, dir, ImageFiles(entries), r.texs)
      && (AllSome(r.texs) ==>
            && s.refs.Keys <= r.store.refs.Keys
            && forall n :: n in ImageFiles(entries) ==> EntryKey(dir, n) in r.store.refs)
  {
    var r := LoadEntries(s, w, dir, entries, c, []);
    LoadEntriesCaches(s, w, dir, entries, c, [], []);
    assert [] + ImageFiles(entries) == ImageFiles(entries);
    LoadEntriesKeepsCache(s, w, dir, entries, c, []);
    if AllSome(r.texs) {
      forall n | n in ImageFiles(entries)
        ensures EntryKey(dir, n) in r.store.refs
      {
        var i :| 0 <= i < |ImageFiles(entries)| && ImageFiles(entries)[i] == n;
        assert r.texs[i].Some?;
      }
    }
  }

  /**
   * loadImageDirectory returns only textures it keeps: the final collection
   * (line 171) sees the vector's copies, so every non-NULL element is still
   * cached under dir + "/" + its file name.
   */
  lemma LoadImageDirectoryCachesResults(s: Store, w: World, dir: string, entries: seq<Entry>, c: bool)
    ensures var r := LoadImageDirectory(s, w, dir, Some(entries), c);
      CachedAt(r.store, dir, ImageFiles(entries), r.texs)
  {
    var b := LoadEntries(s, w, dir, entries, c, []);
    LoadEntriesCaches(s, w, dir, entries, c, [], []);
    assert [] + ImageFiles(entries) == ImageFiles(entries);
    CollectKeepsCached(b.store, w, dir, ImageFiles(entries), b.texs);
  }

  /** One successful fetch of the loop keeps every earlier result cached and caches its own. */
  lemma FetchKeepsCached(s: Store, w: World, dir: string, names: seq<string>, acc: seq<TexId>, name: string)
    requires CachedAt(s, dir, names, Wrap(acc))
    ensures var o := Fetch(s, w, EntryKey(dir, name), false, false);
      o.tex.Some? ==> CachedAt(o.store, dir, names + [name], Wrap(acc + [o.tex.value]))
  {
    var o := Fetch(s, w, EntryKey(dir, name), false, false);
    if o.tex.Some? {
      assert Wrap(acc + [o.tex.value]) == Wrap(acc) + [o.tex];
      forall i | 0 <= i < |acc|
        ensures EntryKey(dir, names[i]) in o.store.refs && o.store.refs[EntryKey(dir, names[i])] == acc[i]
      {
        assert Wrap(acc)[i] == Some(acc[i]);
      }
    }
  }

  lemma {:induction false} FetchEntriesCaches(s: Store, w: World, dir: string, entries: seq<Entry>,
                                              names: seq<string>, acc: seq<TexId>)
    requires CachedAt(s, dir, names, Wrap(acc))
    ensures var r := FetchEntries(s, w, dir, entries, acc);
      r.complete ==> CachedAt(r.store, dir, names + ImageFiles(entries), Wrap(r.texs))
    decreases |entries|
  {
    if entries == [] {
      assert names + [] == names;
    } else {
      var tail := entries[1..];
      if IsImageFile(entries[0]) {
        var n := entries[0].name;
        assert ImageFiles(entries) == [n] + ImageFiles(tail);
        var names2 := names + [n];
        assert names2 + ImageFiles(tail) == names + ImageFiles(entries);
        var o := Fetch(s, w, EntryKey(dir, n), false, false);
        FetchKeepsCached(s, w, dir, names, acc, n);
        if o.tex.Some? {
          assert FetchEntries(s, w, dir, entries, acc) == FetchEntries(o.store, w, dir, tail, acc + [o.tex.value]);
          FetchEntriesCaches(o.store, w, dir, tail, names2, acc + [o.tex.value]);
        }
      } else {
        assert ImageFiles(entries) == ImageFiles(tail);
        assert FetchEntries(s, w, dir, entries, acc) == FetchEntries(s, w, dir, tail, acc);
        FetchEntriesCaches(s, w, dir, tail, names, acc);
      }
    }
  }

  /**
   * A complete fetchImageDirectory returns only textures it keeps: the
   * collection at line 243 sees the vector's copies, so every element is
   * cached under dir + "/" + its file name.
   */
  lemma FetchImageDirectoryCachesResults(s: Store, w: World, dir: string, entries: seq<Entry>, c: bool)
    ensures var r := FetchImageDirectory(s, w, dir, Some(entries), c);
      FetchEntries(s, w, dir, entries, []).complete ==> CachedAt(r.store, dir, ImageFiles(entries), r.texs)
  {
    var b := FetchEntries(s, w, dir, entries, []);
    assert Wrap([]) == [];
    FetchEntriesCaches(s, w, dir, entries, [], []);
    assert [] + ImageFiles(entries) == ImageFiles(entries);
    if b.complete {
      CollectKeepsCached(b.store, w, dir, ImageFiles(entries), Wrap(b.texs));
    }
  }

  /**
   * fetchImageDirectory is all or nothing: either one texture per image file,
   * after a collection that counts the returned vector, or an empty vector
   * and no collection.
   */
  lemma FetchImageDirectoryAllOrNothing(s: Store, w: World, dir: string, entries: seq<Entry>, c: bool)
    ensures var r := FetchImageDirectory(s, w, dir, Some(entries), c);
      var b := FetchEntries(s, w, dir, entries, []);
      && (b.complete ==>
            && |r.texs| == |ImageFiles(entries)| && AllSome(r.texs) && r.texs == Wrap(b.texs)
            && r.store == GarbageCollect(b.store, Holding(w, r.texs).holders))
      && (!b.complete ==> r.texs == [] && r.store == b.store)
  {
  }

  /** fetchImageDirectory ignores its isGarbageCollectable argument. */
  lemma FetchImageDirectoryIgnoresCollectable(s: Store, w: World, dir: string, listing: Option<seq<Entry>>)
    ensures FetchImageDirectory(s, w, dir, listing, true) == FetchImageDirectory(s, w, dir, listing, false)
  {
  }

  /**
   * Every texture the fetch loop adds to the cache is pinned, since it always
   * fetches with isGarbageCollectable = false; the loop never unpins.
   */
  lemma {:induction false} FetchEntriesPins(s: Store, w: World, dir: string, entries: seq<Entry>, acc: seq<TexId>)
    ensures var r := FetchEntries(s, w, dir, entries, acc);
      && s.pinned.Keys <= r.store.pinned.Keys
      && s.refs.Keys <= r.store.refs.Keys
      && forall k :: k in r.store.refs && k !in s.refs ==> k in r.store.pinned
    decreases |entries|
  {
    if entries != [] {
      if IsImageFile(entries[0]) {
        var key := EntryKey(dir, entries[0].name);
        var o := Fetch(s, w, key, false, false);
        if o.tex.Some? {
          FetchEntriesPins(o.store, w, dir, entries[1..], acc + [o.tex.value]);
        }
      } else {
        FetchEntriesPins(s, w, dir, entries[1..], acc);
      }
    }
  }

  /**
   * ... so a complete directory fetch keeps, through its final collection,
   * everything it added to the cache, and every texture it returns.
   */
  lemma FetchImageDirectoryKeepsNew(s: Store, w: World, dir: string, entries: seq<Entry>, c: bool)
    requires Inv(s)
    ensures var b := FetchEntries(s, w, dir, entries, []);
      var r := FetchImageDirectory(s, w, dir, Some(entries), c);
      b.complete ==>
        && (forall k :: k in b.store.refs && k !in s.refs ==> k in r.store.refs)
        && CachedAt(r.store, dir, ImageFiles(entries), r.texs)
  {
    var b := FetchEntries(s, w, dir, entries, []);
    FetchEntriesPins(s, w, dir, entries, []);
    FetchEntriesPreservesInv(s, w, dir, entries, []);
    CollectKeepsPinned(b.store, Holding(w, Wrap(b.texs)).holders);
    FetchImageDirectoryCachesResults(s, w, dir, entries, c);
  }

  // ---------------------------------------------------------------------------
  // Scenarios
  // ---------------------------------------------------------------------------

  /**
   * fetch on an empty store returns NULL; once the worker has delivered, a
   * second fetch returns a texture, and the key is loaded and no longer loading.
   */
  lemma AsyncScenario(w: World, url: Key)
    requires w.open(File, url).Some? && w.decode(w.open(File, url).value).Some?
    ensures var f1 := Fetch(Empty, w, url);
      var st := WorkerStep(f1.store, w);
      var f2 := Fetch(st.store, w, url);
      && f1.tex == None && IsLoading(f1.store, url) && !IsLoaded(f1.store, url)
      && st.event == Delivered(url)
      && f2.tex.Some? && IsLoaded(f2.store, url) && !IsLoading(f2.store, url)
  {
    var f1 := Fetch(Empty, w, url);
    assert f1.store.queue == [url] && f1.store.loading == [url];
    assert FirstOpen(w.open, WorkerChain, url) == w.open(File, url);
  }

  /**
   * A directory of x.png, .DS_Store and y.png loads exactly two textures, in
   * listing order, and both are still cached after the final collection even
   * when nobody outside holds them.
   */
  lemma DirectoryScenario(w: World)
    requires w.open(Resource, "d/x.png").Some? && w.open(Resource, "d/y.png").Some?
    ensures var r := LoadImageDirectory(Empty, w, "d",
              Some([Entry("x.png", true), Entry(".DS_Store", true), Entry("y.png", true)]));
      && |r.texs| == 2 && r.texs[0] == Some(0) && r.texs[1] == Some(1)
      && IsLoaded(r.store, "d/x.png") && r.store.refs["d/x.png"] == 0
      && IsLoaded(r.store, "d/y.png") && r.store.refs["d/y.png"] == 1
  {
    var es := [Entry("x.png", true), Entry(".DS_Store", true), Entry("y.png", true)];
    assert EntryKey("d", "x.png") == "d/x.png";
    assert EntryKey("d", "y.png") == "d/y.png";
    assert es[1..] == [Entry(".DS_Store", true), Entry("y.png", true)];
    assert es[1..][1..] == [Entry("y.png", true)];
    assert ImageFiles(es) == ["x.png", "y.png"];
    var o1 := Load(Empty, Holding(w, []), "d/x.png", true, false);
    assert o1.tex == Some(0);
    var o2 := Load(o1.store, Holding(w, [o1.tex]), "d/y.png", true, false);
    assert o2.tex == Some(1);
    LoadImageDirectoryCachesResults(Empty, w, "d", es, true);
  }
}
