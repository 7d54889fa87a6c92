# rph::TextureStore, modelled and verified in Dafny

`rph::TextureStore` (Cinder-TextureStore) is a texture cache for Cinder
applications. A caller asks for an image by key (a file path, a bundled
resource name or a URL) and gets back a `gl::TextureRef`:

- `load` opens the image synchronously.
- `fetch` returns at once. On a miss it queues the key for a background
  thread. That thread decodes the image into a `Surface` and parks the surface
  in a buffer. A later `fetch` turns the buffered surface into a texture.
- `garbageCollect` drops cached textures that nobody outside the store holds.
  A second "non-collectable" map keeps a reference of its own, so its textures
  are never collected.

The model covers the engine's five containers and every operation on them:
`isLoading`, `isLoaded`, `load`, `fetch`, `garbageCollect`, one pass of the
worker loop `loadImagesThreadFn`, both directory variants, and the header's
delegating helpers.

## Layout

- `containers.dfy` (module `Containers`): the sequential meaning of the parts
  of `ConcurrentDeque` and `ConcurrentMap` that the store uses. Their sources
  are not part of this model. The semantics are read off the call sites:
  - `push_back(x, true)` appends only when `x` is absent, and says whether it
    appended.
  - `erase` removes a key and `contains` tests membership.
  - `try_pop(k, out)` removes and returns the entry for `k`.
- `cinder.dfy` (module `Cinder`): the outside world as an oracle value,
  `World`. It has three parts:
  - `open(source, key)` stands for `loadImage` on a file, resource, asset or
    URL. `None` means the call threw.
  - `decode(image)` stands for `Surface(image)`, which may also throw.
  - `holders(t)` is the number of `TextureRef` copies of texture `t` held
    outside the store.

  The module also holds the fallback chain `FirstOpen` with the two source
  orders, and the directory-entry filter.
- `store_spec.dfy` (module `StoreSpec`): the store's state as a value
  `Store`. Each operation is a function from the old state to the new state
  and the returned reference (`None` for NULL). `Inv` is the invariant that
  every reachable state keeps.
- `store_properties.dfy` (module `StoreProperties`): lemmas about those
  functions.
- `texture_store.dfy` (module `TextureStoreImpl`): class `TextureStore`. Its
  fields are the five containers, plus a counter that stands for the fresh
  objects `Texture::create` returns. Its methods update the fields in place:
  - `garbageCollect` is a sweep loop over the keys.
  - The worker pass uses the source's `succeeded` flag.
  - The directory variants are `for`/`while` loops. The fetch variant keeps
    the source's `break` and `notYetLoadedCount`.

  Each method is proved to leave exactly the state, and return exactly the
  value, that the `StoreSpec` function gives. Each method also keeps `Valid()`.
  The header's free helpers are module-level methods that take the store as
  an argument instead of calling `getInstance()`.

`use_count()` is modelled as `StoreSpec.UseCount`: 1 for the cache entry, plus
1 when the pinned map holds the same texture, plus `holders(t)`, the copies
held anywhere else. `Inv` says that each texture object sits under one key
only and that texture ids are fresh, so the store's own maps contribute
exactly those first two terms. Since `garbageCollect` evicts when
`use_count() < 2`, the pinned map's second reference is the whole pinning
mechanism. That reference is taken at TextureStore.cpp:104, 116, 128 and 196.

The directory variants hold copies of their own. Their local vector
`textureRefs` (TextureStore.cpp:147 and 214) holds every TextureRef returned so
far, so every `garbageCollect()` they cause counts those copies. That covers
line 135 inside a failing `load` of the loop, and lines 171 and 243 at the
end. The model passes `StoreSpec.Holding(w, texs)` to those collections: a
world whose holder count adds `Copies(texs, t)`, the number of elements of the
vector equal to `t`. So a directory call never evicts a texture it is about to
return (`LoadImageDirectoryCachesResults`, `FetchImageDirectoryCachesResults`).

The worker thread is the method `LoadImagesStep`. A client may call it between
any two API calls, so every interleaving of the worker with the owning thread
is a sequence of method calls.

Points of the code's behaviour that the model makes explicit:

- The worker pulls more work while `mSurfaces.size() <= 5` (TextureStore.cpp:261),
  so up to 6 surfaces can wait in the buffer (`MaxBufferedSurfaces`,
  `SurfaceBound`).
- A worker-side failure (TextureStore.cpp:292 and the empty `catch` at 307)
  does not remove the key from `mLoadingQueue`. The key stays "loading" for
  good (`WorkerFailureStrands`, `StuckSurvivesFetch`, `StuckSurvivesLoad`,
  `StuckSurvivesWorker`, `StuckSurvivesCollect`). While it is not cached,
  every `fetch` of it returns NULL and changes nothing
  (`StuckFetchNeverCompletes`). A synchronous `load` of the key can still
  cache it, after which `fetch` returns that texture (`CacheHit`), but the key
  stays in `mLoadingQueue`.
- `isLoading` is documented as "scheduled for loading but has not been turned
  into a Texture yet" (TextureStore.h:64). `load`'s synchronous path never
  clears `mLoadingQueue`, so a key that `fetch` scheduled and `load` then
  opened is both loaded and loading (`LoadCachesPendingKey`).
- `load`'s surface path never writes the pinned map, whatever
  `isGarbageCollectable` is (`LoadClaimNeverPins`).
- `fetchImageDirectory` always fetches with `isGarbageCollectable = false`
  (TextureStore.cpp:231) and never reads its own argument
  (`FetchImageDirectoryIgnoresCollectable`).

## Model

| member | source | states |
|---|---|---|
| Containers.PushBack | src/rph/TextureStore.cpp:202-204 | `push_back(x, true)` reports an append exactly when `x` was absent; afterwards `x` is present, nothing else was added, and a duplicate-free deque stays duplicate-free |
| Containers.Erase | src/rph/TextureStore.cpp:83 | after `erase(x)` the deque holds exactly its old elements other than `x`, and is unchanged when `x` was absent |
| Containers.TryPop | src/rph/TextureStore.cpp:184 | `try_pop(k, out)` succeeds exactly when `k` is present, returns its surface and removes only that entry, so the buffer shrinks by one |
| Cinder.FirstOpen | src/rph/TextureStore.cpp:264-292 | a chain of try blocks fails exactly when every source fails; otherwise its image comes from a source before which every source failed (first success wins) |
| Cinder.WorkerChainOrder | src/rph/TextureStore.cpp:267-289 | the worker tries file, then resource, then asset, then URL, and stops at the first that opens |
| Cinder.LoadChainOrder | src/rph/TextureStore.cpp:98-132 | `load` tries resource, then the plain path, then URL, and stops at the first that opens |
| Cinder.ImageFiles | src/rph/TextureStore.cpp:158-163 | the names the directory loops hand on are exactly those of regular files not named `.DS_Store`, never more than there are entries |
| Cinder.ImageFilesAppend | src/rph/TextureStore.cpp:158-163 | the filter works entry by entry: filtering a concatenation concatenates the parts, and one entry gives its own name exactly when it is an image file, so the names come out once each, in listing order |
| Cinder.EntryKey | src/rph/TextureStore.cpp:165 | the key of a directory entry is the directory, a `/`, then the file name |
| StoreSpec.UseCount | src/rph/TextureStore.cpp:315 | a cached texture's use count is at least 1, and is at least 2 exactly when the pinned map holds it or someone else holds a copy |
| StoreSpec.Collect | src/rph/TextureStore.cpp:312-321 | after `garbageCollect` the cache holds exactly the old entries whose use count is at least 2, with their values unchanged |
| StoreSpec.GarbageCollect | src/rph/TextureStore.cpp:312-323 | `garbageCollect` changes only `mTextureRefs`: it only removes entries, and the survivors keep their texture |
| StoreSpec.Claim | src/rph/TextureStore.cpp:184-198 | the surface path returns a fresh texture now cached under the key, pinned when asked and otherwise leaving the pins alone; the surface leaves the buffer, the key leaves `mLoadingQueue`, `mQueue` is untouched (lines 81-92 for `load`) |
| StoreSpec.CacheNew | src/rph/TextureStore.cpp:100-106 | a try block of `load` caches a fresh texture under the key and keeps every other entry; it pins the key exactly when not collectable; the queues and the buffer are untouched |
| StoreSpec.Load | src/rph/TextureStore.cpp:73-141 | a texture `load` returns is the one now cached under the key; NULL leaves the key uncached; `mQueue` is untouched, surfaces are only consumed, and no key other than this one gets pinned |
| StoreSpec.Fetch | src/rph/TextureStore.cpp:176-209 | a texture `fetch` returns is the one now cached under the key; it returns NULL exactly when the key was neither cached nor buffered, and then the key is loading, still uncached, and the buffer is unchanged |
| StoreSpec.WorkerStep | src/rph/TextureStore.cpp:260-308 | a worker pass never touches the cache, the pins, `mLoadingQueue` or the texture supply, and changes the buffer only when it delivers |
| StoreSpec.Copies | src/rph/TextureStore.cpp:166 | the local vector holds copies of texture `t` exactly when one of its elements is `t` |
| StoreSpec.LoadEntries | src/rph/TextureStore.cpp:158-170 | the load loop keeps what the vector held and appends exactly one result, NULL or not, per image file of the listing |
| StoreSpec.LoadImageDirectory | src/rph/TextureStore.cpp:143-173 | `loadImageDirectory` returns one TextureRef per image file; for a missing directory it returns an empty vector and changes nothing |
| StoreSpec.FetchEntries | src/rph/TextureStore.cpp:225-239 | the fetch loop keeps what the vector held; when it completes it has appended one texture per image file, when it stopped at a NULL it has appended fewer |
| StoreSpec.FetchImageDirectory | src/rph/TextureStore.cpp:211-246 | `fetchImageDirectory` returns either an empty vector or one texture per image file, never a NULL element; for a missing directory it changes nothing |
| StoreProperties.EmptyInv | src/rph/TextureStore.cpp:41-48 | the freshly constructed store satisfies the invariant and neither holds nor loads any key |
| StoreProperties.CollectPreservesInv | src/rph/TextureStore.cpp:312-321 | garbage collection keeps the store invariant, including "every pinned key is cached with the pinned texture" |
| StoreProperties.PopPreservesInv | src/rph/TextureStore.cpp:184-186 | taking a buffered surface and erasing its key from `mLoadingQueue` keeps the invariant |
| StoreProperties.CacheNewPreservesInv | src/rph/TextureStore.cpp:101-106 | caching a fresh texture under an uncached key, pinned or not, keeps the invariant |
| StoreProperties.ClaimPreservesInv | src/rph/TextureStore.cpp:184-198 | the whole surface path (pop, erase, optional collection, insert, optional pin) keeps the invariant |
| StoreProperties.FetchPreservesInv | src/rph/TextureStore.cpp:176-209 | every outcome of `fetch` keeps the invariant: deduplicated queue, queued and buffered keys still loading, queued keys not buffered, pins backed by the cache, fresh and distinct texture ids, at most 6 surfaces |
| StoreProperties.LoadPreservesInv | src/rph/TextureStore.cpp:73-141 | every outcome of `load` keeps the invariant |
| StoreProperties.WorkerStepPreservesInv | src/rph/TextureStore.cpp:260-307 | a worker pass keeps the invariant; in particular it never pushes a surface for a key that already has one |
| StoreProperties.LoadEntriesPreservesInv | src/rph/TextureStore.cpp:158-170 | the load loop over a directory keeps the invariant |
| StoreProperties.FetchEntriesPreservesInv | src/rph/TextureStore.cpp:225-239 | the fetch loop over a directory keeps the invariant |
| StoreProperties.LoadImageDirectoryPreservesInv | src/rph/TextureStore.cpp:143-173 | `loadImageDirectory` keeps the invariant |
| StoreProperties.FetchImageDirectoryPreservesInv | src/rph/TextureStore.cpp:211-246 | `fetchImageDirectory` keeps the invariant |
| StoreProperties.CacheHit | src/rph/TextureStore.cpp:76-77 | for a cached key, both `load` and `fetch` return the cached texture and change no state (lines 179-180 for `fetch`) |
| StoreProperties.FetchClaim | src/rph/TextureStore.cpp:184-198 | `fetch` with a buffered surface returns a fresh texture, cached on top of the collected (or untouched) cache, so it survives that pass; it is pinned exactly when not collectable; `mLoadingQueue` is exactly the old one without the key, the buffer exactly the old one without the surface, `mQueue` is untouched and one texture was created |
| StoreProperties.LoadClaimNeverPins | src/rph/TextureStore.cpp:81-92 | `load`'s surface path does the same steps, with `mLoadingQueue`, the buffer and `mQueue` exactly as for `fetch`, but leaves the pinned map unchanged whatever `isGarbageCollectable` is |
| StoreProperties.FetchMiss | src/rph/TextureStore.cpp:202-208 | a `fetch` miss returns NULL, creates no texture, leaves the cache, pins and surfaces unchanged; `mLoadingQueue` gains exactly the key unless it held it already, and `mQueue` gains exactly the key (appended at the back) exactly when `mLoadingQueue` did |
| StoreProperties.RepeatedFetchEnqueuesOnce | src/rph/TextureStore.cpp:202-204 | fetching a pending key n >= 1 times leaves the same state as fetching it once, so the worker gets it at most once |
| StoreProperties.LoadFallback | src/rph/TextureStore.cpp:98-140 | a `load` miss succeeds exactly when one of its three sources opens the image; then it caches one fresh texture, pinned when not collectable, with no collection; otherwise it collects, creates nothing, leaves the pins unchanged, returns NULL and leaves the key uncached; the queues and surfaces are untouched |
| StoreProperties.LoadNoGCKeepsCache | src/rph/TextureStore.cpp:86 | a successful `load` with the collector off removes no cache entry and no pin |
| StoreProperties.LoadCachesPendingKey | src/rph/TextureStore.h:64-65 | contrary to the documented meaning of `isLoading`, a `fetch` then a synchronous `load` leaves a key loaded, still loading and still queued |
| StoreProperties.CollectEvictsUnused | src/rph/TextureStore.cpp:315-317 | an entry is evicted exactly when its use count is below 2, i.e. it is not pinned and nobody else holds it |
| StoreProperties.CollectKeepsPinned | src/rph/TextureStore.h:89-91 | under the invariant, garbage collection never touches the pinned map, keeps every pinned entry with its texture, and only removes |
| StoreProperties.CollectIdempotent | src/rph/TextureStore.cpp:312-321 | a second collection with unchanged counts removes nothing |
| StoreProperties.WorkerBacksOff | src/rph/TextureStore.cpp:261 | with more than 5 surfaces buffered, a worker pass pops nothing and changes nothing |
| StoreProperties.WorkerPopsFront | src/rph/TextureStore.cpp:262-306 | otherwise a pass pops the front of `mQueue` (FIFO); it delivers exactly when some source opens and the surface decodes, under the original key; it never writes the cache, the pins or `mLoadingQueue`; it is NotFound exactly when all four sources fail |
| StoreProperties.WorkerPrefersFile | src/rph/TextureStore.cpp:268-271 | a key that opens as a file is taken from the file; the other sources are never consulted |
| StoreProperties.SurfaceBound | src/rph/TextureStore.cpp:261 | the surface buffer never holds more than 6 entries |
| StoreProperties.WorkerFailureStrands | src/rph/TextureStore.cpp:292-307 | after a failed pass (no source opened, or `Surface` threw) the key is still in `mLoadingQueue` but neither queued nor buffered |
| StoreProperties.StuckSurvivesFetch | src/rph/TextureStore.cpp:186 | no `fetch` of any key frees a stranded key; `isLoading` stays true |
| StoreProperties.StuckSurvivesLoad | src/rph/TextureStore.cpp:83 | no `load` of any key frees a stranded key |
| StoreProperties.StuckSurvivesWorker | src/rph/TextureStore.cpp:262 | no worker pass frees a stranded key |
| StoreProperties.StuckSurvivesCollect | src/rph/TextureStore.cpp:312-321 | garbage collection does not free a stranded key |
| StoreProperties.StuckFetchNeverCompletes | src/rph/TextureStore.cpp:202-208 | fetching a stranded key that is not cached returns NULL and changes nothing, every time |
| StoreProperties.LoadEntriesAppend | src/rph/TextureStore.cpp:158-170 | the load loop over a listing split in two is the loop over the first part, then over the second part from where the first left off |
| StoreProperties.LoadImageDirectoryElement | src/rph/TextureStore.cpp:158-166 | element i of `loadImageDirectory`'s vector belongs to the i-th image file `e` of the listing: it is what `load(dir + "/" + name, fmt, isGarbageCollectable, false)` returns in the state the earlier loads left, with the earlier results held by the vector |
| StoreProperties.FetchEntriesAppend | src/rph/TextureStore.cpp:225-239 | the fetch loop over a listing split in two is the loop over the first part, then, unless it already broke out, over the second part |
| StoreProperties.FetchEntriesElement | src/rph/TextureStore.cpp:231-236 | while every fetch so far returned a texture, element i of the vector is what `fetch(dir + "/" + name, fmt, false, false)` returns for the i-th image file in the state the earlier fetches left |
| StoreProperties.FetchEntriesStopsAtNull | src/rph/TextureStore.cpp:231-235 | at the first NULL fetch the loop stops: the state is the one that fetch left and no later entry is fetched or queued; once stopped, later entries change nothing |
| StoreProperties.CollectKeepsCached | src/rph/TextureStore.cpp:312-321 | a collection that counts the local vector's copies evicts none of the vector's textures |
| StoreProperties.LoadKeepsCached | src/rph/TextureStore.cpp:165-166 | one load of the loop, including the collection at line 135 when it fails, keeps every earlier result cached under its key and caches its own result under its key |
| StoreProperties.LoadEntriesCaches | src/rph/TextureStore.cpp:158-170 | after the load loop every non-NULL element of the vector is cached under dir + "/" + the matching file name |
| StoreProperties.LoadEntriesKeepsCache | src/rph/TextureStore.cpp:135 | when every load of the loop succeeds, line 135 never runs and the loop evicts no cache entry |
| StoreProperties.LoadEntriesCachesAll | src/rph/TextureStore.cpp:165 | after the load loop, before the final collection, every non-NULL result is cached under its key; when every load succeeds nothing was evicted and every image file's key is cached |
| StoreProperties.LoadImageDirectoryCachesResults | src/rph/TextureStore.cpp:171-172 | after the final collection of `loadImageDirectory`, every non-NULL texture it returns is still cached under dir + "/" + its file name |
| StoreProperties.FetchKeepsCached | src/rph/TextureStore.cpp:231-236 | one successful fetch of the loop keeps every earlier texture of the vector cached under its key and caches its own |
| StoreProperties.FetchEntriesCaches | src/rph/TextureStore.cpp:225-239 | when the fetch loop completes, every texture of the vector is cached under dir + "/" + the matching file name |
| StoreProperties.FetchImageDirectoryCachesResults | src/rph/TextureStore.cpp:243-245 | after the collection of a complete `fetchImageDirectory`, every texture it returns is still cached under dir + "/" + its file name |
| StoreProperties.FetchImageDirectoryAllOrNothing | src/rph/TextureStore.cpp:232-245 | `fetchImageDirectory` returns either one non-NULL texture per image file, after one final collection that counts the returned vector's copies, or an empty vector with no collection |
| StoreProperties.FetchImageDirectoryIgnoresCollectable | src/rph/TextureStore.cpp:231 | the result of `fetchImageDirectory` does not depend on its `isGarbageCollectable` argument |
| StoreProperties.FetchEntriesPins | src/rph/TextureStore.cpp:231 | the fetch loop evicts and unpins nothing, and pins every texture it adds to the cache |
| StoreProperties.FetchImageDirectoryKeepsNew | src/rph/TextureStore.cpp:240-244 | a complete directory fetch keeps, through its final collection, everything it added to the cache and every texture it returns, under its key |
| StoreProperties.AsyncScenario | src/rph/TextureStore.cpp:176-209 | on an empty store `fetch` returns NULL and the key is loading; after the worker delivers, a second `fetch` returns a texture, and the key is loaded and no longer loading |
| StoreProperties.DirectoryScenario | src/rph/TextureStore.cpp:158-172 | a directory holding `x.png`, `.DS_Store` and `y.png` loads exactly two textures, in listing order, and both are still cached after the final collection even when nobody else holds them |
| TextureStoreImpl.TextureStore.constructor | src/rph/TextureStore.cpp:41-48 | the new store is empty and valid |
| TextureStoreImpl.TextureStore.IsLoading | src/rph/TextureStore.cpp:65-67 | `isLoading` is membership in `mLoadingQueue` |
| TextureStoreImpl.TextureStore.IsLoaded | src/rph/TextureStore.cpp:69-71 | `isLoaded` is membership in `mTextureRefs` |
| TextureStoreImpl.TextureStore.GarbageCollect | src/rph/TextureStore.cpp:312-323 | the sweep loop leaves exactly `Collect` of the old cache, touches no other container, and keeps the invariant |
| TextureStoreImpl.TextureStore.Claim | src/rph/TextureStore.cpp:184-198 | the in-place surface path yields exactly the state and texture of `StoreSpec.Claim` |
| TextureStoreImpl.TextureStore.CacheNew | src/rph/TextureStore.cpp:100-106 | the body of each try block of `load` yields exactly the state and texture of `StoreSpec.CacheNew` |
| TextureStoreImpl.TextureStore.Load | src/rph/TextureStore.cpp:73-141 | in-place `load` yields exactly the state and result of `StoreSpec.Load`, and keeps the invariant |
| TextureStoreImpl.TextureStore.Fetch | src/rph/TextureStore.cpp:176-209 | in-place `fetch` yields exactly the state and result of `StoreSpec.Fetch`, and keeps the invariant |
| TextureStoreImpl.TextureStore.LoadImagesStep | src/rph/TextureStore.cpp:260-308 | one pass of the worker loop, with its `succeeded` flag, yields exactly the state and event of `StoreSpec.WorkerStep`, and keeps the invariant |
| TextureStoreImpl.TextureStore.LoadImageDirectory | src/rph/TextureStore.cpp:143-173 | the `for` loop over the listing, each load and the final collection counting the local vector's copies, yields exactly `StoreSpec.LoadImageDirectory` |
| TextureStoreImpl.TextureStore.FetchImageDirectory | src/rph/TextureStore.cpp:211-246 | the loop with `break` and `notYetLoadedCount`, then the collection counting the local vector's copies, yields exactly `StoreSpec.FetchImageDirectory` |
| TextureStoreImpl.LoadImageDirectory | src/rph/TextureStore.h:99 | the free `loadImageDirectory` forwards its `garbageCollectable` argument unchanged |
| TextureStoreImpl.FetchImageDirectory | src/rph/TextureStore.h:102 | the free `fetchImageDirectory` forwards its `garbageCollectable` argument unchanged |
| TextureStoreImpl.LoadTexture | src/rph/TextureStore.h:105 | `loadTexture(url, fmt)` is `load(url, fmt, true, true)`, the defaults of TextureStore.h:59 |
| TextureStoreImpl.FetchTexture | src/rph/TextureStore.h:108 | `fetchTexture(url, fmt)` is `fetch(url, fmt, true, true)`, the defaults of TextureStore.h:61 |

The transition functions' `isGarbageCollectable` and `runGarbageCollector`
parameters default to `true`, as in TextureStore.h:55-61.

## Left out

- The thread itself is left out: creating it, `join`, `mShouldQuit`, the
  destructor and `ThreadSetup`. The worker is a step method that a caller
  interleaves, and the lock-based synchronisation of the containers is not
  modelled.
- The blocking `wait_and_pop_front` on an empty queue is the no-op event
  `Idle`. The busy `continue` when the buffer is full is the no-op event
  `BackedOff`.
- The singleton `getInstance`, `m_pInstance` and the private copy operations
  are left out. The store is an explicit object and the free helpers take it
  as an argument.
- The Cinder calls `loadImage`, `loadFile`, `loadResource`, `loadAsset`,
  `loadUrl`, `Surface(image)`, `fs::exists`, `directory_iterator` and
  `getResourcePath` are oracles in `World`, or a given listing.
  - `ci::loadImage(url)` at TextureStore.cpp:112 reads the path `url`, so it
    is the `File` source.
- `Texture::create` always succeeds and returns a fresh object. An exception
  from it is not modelled: on the surface path it would escape `load` or
  `fetch`, and in the synchronous chain it would move on to the next source.
- The texture `Format` argument is not modelled. It only reaches
  `Texture::create`.
- The retry of a missing directory under the resource path
  (TextureStore.cpp:150-157, 217-224) is file-system I/O. The caller passes
  the result of that resolution: `dir` is the path that exists (the resource
  path joined with the given one when the given one does not exist), because
  the keys are built from it (lines 165 and 231); the listing is that
  directory's entries in iteration order; `None` means neither path exists.
- `drawAllStoredTextures` and `status` are left out (float layout, GL drawing
  and console output). All console logging is left out too.
- `garbageCollect` sweeps `std::map` in key order. The model takes the keys in
  an unspecified order. Each decision depends only on its own entry, so the
  result is the same.
- Pixel contents are not tracked. A texture is an id, and which surface it was
  made from is not recorded.
- `ConcurrentMap::push` on a key that is already present is not modelled. The
  invariant proves that the worker never does it.
- samples/BasicSample is an application frame loop with no engine logic.
