/**
 * The collaborators the texture store calls into, as oracles. Image decoding,
 * the four data sources, Surface construction, the reference counts of
 * TextureRef handles held outside the store, and directory listings are all
 * given from outside; the store only sees whether each call succeeded.
 */
module Cinder {
  import opened Containers

  /** The cache key: a path, a bundled-resource name or a URL. */
  type Key = string

  /** A gl::Texture object; Texture::create hands out a new one each time. */
  type TexId = nat

  /** An ImageSourceRef produced by ci::loadImage on some data source. */
  datatype Image = Image(handle: nat)

  /** A decoded ci::Surface, the worker's hand-off to the owning thread. */
  datatype Surface = Surface(pixels: nat)

  /**
   * The places an image can come from. File stands for both
   * ci::loadImage(ci::loadFile(url)) (TextureStore.cpp:269) and
   * ci::loadImage(url) (TextureStore.cpp:112): both read the path url.
   */
  datatype Source = File | Resource | Asset | Url

  /**
   * What the outside world answers:
   *   open(src, url)  - loadImage(<src>(url)); None when it throws;
   *   decode(img)     - ci::Surface(img); None when it throws;
   *   holders(t)      - how many TextureRef copies of t live outside the store.
   */
  datatype World = World(
    open: (Source, Key) -> Option<Image>,
    decode: Image -> Option<Surface>,
    holders: TexId -> nat)

  /** The order the worker tries sources in (TextureStore.cpp:267-289). */
  const WorkerChain: seq<Source> := [File, Resource, Asset, Url]

  /** The order the synchronous load tries sources in (TextureStore.cpp:98-132). */
  const LoadChain: seq<Source> := [Resource, File, Url]

  /**
   * A chain of try/catch blocks: the image of the first source in chain that
   * opens url, or None when every one of them throws.
   */
  function FirstOpen(open: (Source, Key) -> Option<Image>, chain: seq<Source>, url: Key): (r: Option<Image>)
    ensures r.None? <==> forall i :: 0 <= i < |chain| ==> open(chain[i], url).None?
    ensures r.Some? ==>
      exists i :: 0 <= i < |chain| && open(chain[i], url) == r &&
        forall j :: 0 <= j < i ==> open(chain[j], url).None?
  {
    if chain == [] then None
    else if open(chain[0], url).Some? then
      open(chain[0], url)
    else
      var r := FirstOpen(open, chain[1..], url);
      assert forall i :: 1 <= i < |chain| ==> chain[i] == chain[1..][i - 1];
      if r.Some? then
        var i :| 0 <= i < |chain[1..]| && open(chain[1..][i], url) == r &&
          forall j :: 0 <= j < i ==> open(chain[1..][j], url).None?;
        assert open(chain[i + 1], url) == r;
        assert forall j :: 0 <= j < i + 1 ==> open(chain[j], url).None?;
        r
      else r
  }

  /** The worker's four try blocks, one after the other. */
  lemma WorkerChainOrder(open: (Source, Key) -> Option<Image>, url: Key)
    ensures FirstOpen(open, WorkerChain, url) ==
      if open(File, url).Some? then open(File, url)
      else if open(Resource, url).Some? then open(Resource, url)
      else if open(Asset, url).Some? then open(Asset, url)
      else open(Url, url)
  {
    var c := WorkerChain;
    assert c[1..] == [Resource, Asset, Url] && c[1..][1..] == [Asset, Url];
    assert c[1..][1..][1..] == [Url] && [Url][1..] == [];
    assert FirstOpen(open, [Url], url) == open(Url, url);
    assert FirstOpen(open, [Asset, Url], url) ==
      if open(Asset, url).Some? then open(Asset, url) else open(Url, url);
    assert FirstOpen(open, [Resource, Asset, Url], url) ==
      if open(Resource, url).Some? then open(Resource, url) else FirstOpen(open, [Asset, Url], url);
  }

  /** load's three try blocks, one after the other. */
  lemma LoadChainOrder(open: (Source, Key) -> Option<Image>, url: Key)
    ensures FirstOpen(open, LoadChain, url) ==
      if open(Resource, url).Some? then open(Resource, url)
      else if open(File, url).Some? then open(File, url)
      else open(Url, url)
  {
    var c := LoadChain;
    assert c[1..] == [File, Url] && c[1..][1..] == [Url] && [Url][1..] == [];
    assert FirstOpen(open, [Url], url) == open(Url, url);
    assert FirstOpen(open, [File, Url], url) ==
      if open(File, url).Some? then open(File, url) else open(Url, url);
  }

  /** One directory entry: a file name and whether it is a regular file. */
  datatype Entry = Entry(name: string, isRegularFile: bool)

  /** The filter both directory loops apply (TextureStore.cpp:159-163, 226-230). */
  predicate IsImageFile(e: Entry) {
    e.isRegularFile && e.name != ".DS_Store"
  }

  /** The names of the entries of a listing that the directory loops hand on. */
  function ImageFiles(entries: seq<Entry>): (names: seq<string>)
    ensures |names| <= |entries|
    ensures forall n :: n in names ==> n != ".DS_Store"
    ensures forall n :: n in names <==> exists i :: 0 <= i < |entries| && IsImageFile(entries[i]) && entries[i].name == n
  {
    if entries == [] then []
    else
      var rest := ImageFiles(entries[1..]);
      assert forall i :: 1 <= i < |entries| ==> entries[i] == entries[1..][i - 1];
      if IsImageFile(entries[0]) then [entries[0].name] + rest else rest
  }

  /**
   * The filter works entry by entry, so the kept names come out in listing
   * order: filtering a concatenation concatenates the filtered parts, and a
   * single entry gives its own name or nothing.
   */
  lemma {:induction false} ImageFilesAppend(a: seq<Entry>, b: seq<Entry>)
    ensures ImageFiles(a + b) == ImageFiles(a) + ImageFiles(b)
    ensures |a| == 1 ==> ImageFiles(a) == if IsImageFile(a[0]) then [a[0].name] else []
    decreases |a|
  {
    if a == [] {
      assert a + b == b;
    } else {
      assert (a + b)[0] == a[0] && (a + b)[1..] == a[1..] + b;
      ImageFilesAppend(a[1..], b);
      if |a| == 1 {
        assert a[1..] == [];
      }
    }
  }

  /** The cache key of a directory entry: dir.string() + "/" + fileName. */
  function EntryKey(dir: string, name: string): (k: Key)
    ensures |k| == |dir| + 1 + |name| && k[|dir|] == '/'
    ensures k[..|dir|] == dir && k[|dir| + 1..] == name
  {
    dir + "/" + name
  }
}
