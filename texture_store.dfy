/**
 * rph::TextureStore as an object: the five containers are fields that the
 * methods update in place, and every method is proved to take the state to
 * exactly what the corresponding function of StoreSpec says. The worker
 * thread is the method LoadImagesStep, one pass of its loop, which a caller
 * may interleave with the other calls in any order.
 */
module TextureStoreImpl {
  import opened Containers
  import opened Cinder
  import S = StoreSpec
  import P = StoreProperties

  class TextureStore {
    /** mTextureRefs: the collectable cache. */
    var textureRefs: map<Key, TexId>
    /** mTextureRefsNonGarbageCollectable: second references that keep textures alive. */
    var nonCollectableRefs: map<Key, TexId>
    /** mLoadingQueue: keys scheduled and not yet claimed. */
    var loadingQueue: seq<Key>
    /** mQueue: the worker's FIFO of keys to decode. */
    var queue: seq<Key>
    /** mSurfaces: decoded surfaces waiting for the owning thread. */
    var surfaces: map<Key, Surface>
    /** The next object Texture::create hands out. */
    var nextTex: TexId

    /** The abstract state these fields stand for. */
    function State(): S.Store
      reads this
    {
      S.Store(textureRefs, nonCollectableRefs, loadingQueue, queue, surfaces, nextTex)
    }

    ghost predicate Valid()
      reads this
    {
      S.Inv(State())
    }

    /** TextureStore() clears the buffers (TextureStore.cpp:41-48). */
    constructor ()
      ensures Valid() && State() == S.Empty
    {
      textureRefs := map[];
      nonCollectableRefs := map[];
      loadingQueue := [];
      queue := [];
      surfaces := map[];
      nextTex := 0;
      new;
      P.EmptyInv();
    }

    /** isLoading (TextureStore.cpp:65-67). */
    method IsLoading(url: Key) returns (b: bool)
      ensures b <==> S.IsLoading(State(), url)
      ensures b <==> url in loadingQueue
    {
      b := url in loadingQueue;
    }

    /** isLoaded (TextureStore.cpp:69-71). */
    method IsLoaded(url: Key) returns (b: bool)
      ensures b <==> S.IsLoaded(State(), url)
      ensures b <==> url in textureRefs
    {
      b := url in textureRefs;
    }

    /** garbageCollect: one pass over mTextureRefs (TextureStore.cpp:312-323). */
    method GarbageCollect(holders: TexId -> nat)
      modifies this`textureRefs
      ensures State() == S.GarbageCollect(old(State()), holders)
      ensures old(Valid()) ==> Valid()
    {
      ghost var before := textureRefs;
      var todo := textureRefs.Keys;
      while todo != {}
        invariant todo <= before.Keys
        invariant forall k :: k in textureRefs <==>
          k in before && (k in todo || S.UseCount(before[k], nonCollectableRefs, holders) >= 2)
        invariant forall k :: k in textureRefs ==> textureRefs[k] == before[k]
        decreases todo
      {
        var k :| k in todo;
        if S.UseCount(textureRefs[k], nonCollectableRefs, holders) < 2 {
          textureRefs := textureRefs - {k};
        }
        todo := todo - {k};
      }
      assert textureRefs == S.Collect(before, nonCollectableRefs, holders);
      P.CollectPreservesInv(old(State()), holders);
    }

    /** load (TextureStore.cpp:73-141). */
    method Load(w: World, url: Key, isGarbageCollectable: bool := true, runGarbageCollector: bool := true)
      returns (tex: Option<TexId>)
      requires Valid()
      modifies this
      ensures Valid()
      ensures State() == S.Load(old(State()), w, url, isGarbageCollectable, runGarbageCollector).store
      ensures tex == S.Load(old(State()), w, url, isGarbageCollectable, runGarbageCollector).tex
    {
      P.LoadPreservesInv(State(), w, url, isGarbageCollectable, runGarbageCollector);
      LoadChainOrder(w.open, url);
      if url in textureRefs {
        return Some(textureRefs[url]);
      }
      if url in surfaces {
        tex := Claim(w, url, false, runGarbageCollector);
        return;
      }
      var image := w.open(Resource, url);
      if image.Some? {
        tex := CacheNew(url, isGarbageCollectable);
        return;
      }
      image := w.open(File, url);
      if image.Some? {
        tex := CacheNew(url, isGarbageCollectable);
        return;
      }
      image := w.open(Url, url);
      if image.Some? {
        tex := CacheNew(url, isGarbageCollectable);
        return;
      }
      GarbageCollect(w.holders);
      return None;
    }

    /**
     * The surface path of load (lines 81-93) and fetch (lines 184-199):
     * mSurfaces.try_pop, mLoadingQueue.erase, an optional collection, then a
     * texture from the surface, pinned when pin is set (fetch only).
     */
    method Claim(w: World, url: Key, pin: bool, runGarbageCollector: bool) returns (tex: Option<TexId>)
      requires url in surfaces
      modifies this
      ensures State() == S.Claim(old(State()), w, url, pin, runGarbageCollector).store
      ensures tex == S.Claim(old(State()), w, url, pin, runGarbageCollector).tex
    {
      var popped := TryPop(surfaces, url);
      var surface := popped.1.value;
      surfaces := popped.0;
      loadingQueue := Erase(loadingQueue, url);
      if runGarbageCollector {
        GarbageCollect(w.holders);
      }
      var t := nextTex;  // Texture::create(surface, fmt)
      nextTex := nextTex + 1;
      textureRefs := textureRefs[url := t];
      if pin {
        nonCollectableRefs := nonCollectableRefs[url := t];
      }
      return Some(t);
    }

    /** The body of each try block of load: create, cache, pin when not collectable. */
    method CacheNew(url: Key, isGarbageCollectable: bool) returns (tex: Option<TexId>)
      modifies this
      ensures State() == S.CacheNew(old(State()), url, isGarbageCollectable).store
      ensures tex == S.CacheNew(old(State()), url, isGarbageCollectable).tex
    {
      var t := nextTex;  // Texture::create(img, fmt)
      nextTex := nextTex + 1;
      textureRefs := textureRefs[url := t];
      if !isGarbageCollectable {
        nonCollectableRefs := nonCollectableRefs[url := t];
      }
      return Some(t);
    }

    /** fetch (TextureStore.cpp:176-209). */
    method Fetch(w: World, url: Key, isGarbageCollectable: bool := true, runGarbageCollector: bool := true)
      returns (tex: Option<TexId>)
      requires Valid()
      modifies this
      ensures Valid()
      ensures State() == S.Fetch(old(State()), w, url, isGarbageCollectable, runGarbageCollector).store
      ensures tex == S.Fetch(old(State()), w, url, isGarbageCollectable, runGarbageCollector).tex
    {
      P.FetchPreservesInv(State(), w, url, isGarbageCollectable, runGarbageCollector);
      if url in textureRefs {
        return Some(textureRefs[url]);
      }
      if url in surfaces {
        tex := Claim(w, url, !isGarbageCollectable, runGarbageCollector);
        return;
      }
      var pushed := PushBack(loadingQueue, url);
      loadingQueue := pushed.0;
      if pushed.1 {
        queue := PushBack(queue, url).0;
      }
      return None;
    }

    /** One pass through the loop of loadImagesThreadFn (TextureStore.cpp:260-308). */
    method LoadImagesStep(w: World) returns (event: S.WorkerEvent)
      requires Valid()
      modifies this
      ensures Valid()
      ensures State() == S.WorkerStep(old(State()), w).store
      ensures event == S.WorkerStep(old(State()), w).event
    {
      P.WorkerStepPreservesInv(State(), w);
      if |surfaces| > 5 {
        return S.BackedOff;
      }
      if queue == [] {
        return S.Idle;
      }
      var url := queue[0];  // wait_and_pop_front
      WorkerChainOrder(w.open, url);
      queue := queue[1..];
      var succeeded := false;
      var image := Image(0);
      if !succeeded {
        var attempt := w.open(File, url);
        if attempt.Some? { image, succeeded := attempt.value, true; }
      }
      if !succeeded {
        var attempt := w.open(Resource, url);
        if attempt.Some? { image, succeeded := attempt.value, true; }
      }
      if !succeeded {
        var attempt := w.open(Asset, url);
        if attempt.Some? { image, succeeded := attempt.value, true; }
      }
      if !succeeded {
        var attempt := w.open(Url, url);
        if attempt.Some? { image, succeeded := attempt.value, true; }
      }
      if !succeeded {
        return S.NotFound(url);
      }
      var surface := w.decode(image);
      if surface.None? {
        return S.DecodeFailed(url);
      }
      surfaces := surfaces[url := surface.value];
      return S.Delivered(url);
    }

    /**
     * loadImageDirectory (TextureStore.cpp:143-173); None stands for a missing
     * directory. texs is the local vector: each load, and the collection at
     * the end, sees the copies it holds.
     */
    method LoadImageDirectory(w: World, dir: string, listing: Option<seq<Entry>>,
                              isGarbageCollectable: bool := true)
      returns (texs: seq<Option<TexId>>)
      requires Valid()
      modifies this
      ensures Valid()
      ensures State() == S.LoadImageDirectory(old(State()), w, dir, listing, isGarbageCollectable).store
      ensures texs == S.LoadImageDirectory(old(State()), w, dir, listing, isGarbageCollectable).texs
    {
      texs := [];
      if listing.None? {
        return;
      }
      var entries := listing.value;
      ghost var final := S.LoadEntries(State(), w, dir, entries, isGarbageCollectable, []);
      for i := 0 to |entries|
        invariant Valid()
        invariant S.LoadEntries(State(), w, dir, entries[i..], isGarbageCollectable, texs) == final
      {
        assert entries[i..][0] == entries[i] && entries[i..][1..] == entries[i + 1..];
        if IsImageFile(entries[i]) {
          var t := Load(S.Holding(w, texs), EntryKey(dir, entries[i].name), isGarbageCollectable, false);
          texs := texs + [t];
        }
      }
      assert entries[|entries|..] == [];
      GarbageCollect(S.Holding(w, texs).holders);
    }

    /**
     * fetchImageDirectory (TextureStore.cpp:211-246); None stands for a
     * missing directory. got is the local vector; the collection at the end
     * sees the copies it holds.
     */
    method FetchImageDirectory(w: World, dir: string, listing: Option<seq<Entry>>,
                               isGarbageCollectable: bool := true)
      returns (texs: seq<Option<TexId>>)
      requires Valid()
      modifies this
      ensures Valid()
      ensures State() == S.FetchImageDirectory(old(State()), w, dir, listing, isGarbageCollectable).store
      ensures texs == S.FetchImageDirectory(old(State()), w, dir, listing, isGarbageCollectable).texs
    {
      texs := [];
      if listing.None? {
        return;
      }
      var entries := listing.value;
      var notYetLoadedCount := 0;
      var got: seq<TexId> := [];
      ghost var final := S.FetchEntries(State(), w, dir, entries, []);
      var i := 0;
      while i < |entries|
        invariant 0 <= i <= |entries|
        invariant Valid()
        invariant notYetLoadedCount == 0
        invariant S.FetchEntries(State(), w, dir, entries[i..], got) == final
      {
        assert entries[i..][0] == entries[i] && entries[i..][1..] == entries[i + 1..];
        if IsImageFile(entries[i]) {
          var t := Fetch(w, EntryKey(dir, entries[i].name), false, false);
          if t.None? {
            notYetLoadedCount := notYetLoadedCount + 1;
            break;
          }
          got := got + [t.value];
        }
        i := i + 1;
      }
      if notYetLoadedCount > 0 {
        texs := [];
      } else {
        assert entries[|entries|..] == [];
        texs := S.Wrap(got);
        GarbageCollect(S.Holding(w, texs).holders);
      }
    }
  }

  // The header's free helpers, with the store passed explicitly in place of
  // TextureStore::getInstance() (TextureStore.h:99-108).

  /** loadImageDirectory(url, fmt, garbageCollectable) forwards its flag unchanged. */
  method LoadImageDirectory(store: TextureStore, w: World, url: string, listing: Option<seq<Entry>>,
                            garbageCollectable: bool := true)
    returns (texs: seq<Option<TexId>>)
    requires store.Valid()
    modifies store
    ensures store.Valid()
    ensures store.State() == S.LoadImageDirectory(old(store.State()), w, url, listing, garbageCollectable).store
    ensures texs == S.LoadImageDirectory(old(store.State()), w, url, listing, garbageCollectable).texs
  {
    texs := store.LoadImageDirectory(w, url, listing, garbageCollectable);
  }

  /** fetchImageDirectory(url, fmt, garbageCollectable) forwards its flag unchanged. */
  method FetchImageDirectory(store: TextureStore, w: World, url: string, listing: Option<seq<Entry>>,
                             garbageCollectable: bool := true)
    returns (texs: seq<Option<TexId>>)
    requires store.Valid()
    modifies store
    ensures store.Valid()
    ensures store.State() == S.FetchImageDirectory(old(store.State()), w, url, listing, garbageCollectable).store
    ensures texs == S.FetchImageDirectory(old(store.State()), w, url, listing, garbageCollectable).texs
  {
    texs := store.FetchImageDirectory(w, url, listing, garbageCollectable);
  }

  /** loadTexture(url, fmt) is load(url, fmt) with both flags at their default, true. */
  method LoadTexture(store: TextureStore, w: World, url: Key) returns (tex: Option<TexId>)
    requires store.Valid()
    modifies store
    ensures store.Valid()
    ensures store.State() == S.Load(old(store.State()), w, url, true, true).store
    ensures tex == S.Load(old(store.State()), w, url, true, true).tex
  {
    tex := store.Load(w, url);
  }

  /** fetchTexture(url, fmt) is fetch(url, fmt) with both flags at their default, true. */
  method FetchTexture(store: TextureStore, w: World, url: Key) returns (tex: Option<TexId>)
    requires store.Valid()
    modifies store
    ensures store.Valid()
    ensures store.State() == S.Fetch(old(store.State()), w, url, true, true).store
    ensures tex == S.Fetch(old(store.State()), w, url, true, true).tex
  {
    tex := store.Fetch(w, url);
  }
}
