/** The `Shader` constructor as a whole: read the kernel source, derive the
    cache file from the preprocessed text, load or compile the binary,
    reflect its bindings into a descriptor layout; and `createDescriptorHeap`,
    which builds an argument heap for that layout. The compiler, the
    preprocessor, the hash and the reflection are the parameters of a
    `Toolchain`. */
module ShaderPipeline {
  import opened Ints
  import opened Wrappers
  import opened Binding
  import opened ShaderCache
  import opened Ownership
  import opened Arguments

  /** DXC's preprocess (`-P`), xxhash32, DXC's compile and the container's
      reflection, as total functions of their inputs. Both DXC calls see the
      compile mode, because `-Zi -Od -Qembed_debug` are in both argument lists. */
  datatype Toolchain = Toolchain(
    preprocess: (seq<byte>, CompileMode) -> seq<byte>,
    hash: seq<byte> -> uint32,
    compile: (seq<byte>, CompileMode) -> seq<byte>,
    reflect: seq<byte> -> seq<BindDesc>)

  /** The kernel file, and its base name without extension. */
  datatype ShaderSource = ShaderSource(path: FilePath, stem: string)

  /** A constructed shader: the binary handed to the pipeline state, the
      reflected bindings and the root signature's descriptor table. */
  datatype Shader = Shader(binary: seq<byte>, bindings: seq<BindDesc>, layout: Layout)

  ghost predicate WellFormed(s: Shader)
  {
    |s.binary| > 0 && IsLayoutOf(s.bindings, s.layout)
  }

  /** `ilFile`: next to the source, named by the hash of the preprocessed
      text; the empty path when the preprocessor produced nothing. */
  function CacheFileFor(source: ShaderSource, mode: CompileMode, tc: Toolchain, sourceBytes: seq<byte>): Option<FilePath>
  {
    var pre := tc.preprocess(sourceBytes, mode);
    if |pre| > 0 then Some(FilePath(source.path.dir, CacheFileName(source.stem, tc.hash(pre), mode))) else None
  }

  /** `tmpFile`: next to the source, named by the eight random letters. */
  function TempFileFor(source: ShaderSource, draws: seq<int>): FilePath
    requires ValidDraws(draws)
  {
    FilePath(source.path.dir, TempFileName(source.stem, TempLettersOf(draws)))
  }

  /** Two sources in the same directory with the same stem share a cache file
      exactly when their preprocessed text hashes alike under the same mode;
      the raw source text plays no part beyond what the preprocessor keeps. */
  lemma CacheKeySharing(source: ShaderSource, tc: Toolchain, b1: seq<byte>, m1: CompileMode, b2: seq<byte>, m2: CompileMode)
    requires |tc.preprocess(b1, m1)| > 0 && |tc.preprocess(b2, m2)| > 0
    ensures CacheFileFor(source, m1, tc, b1) == CacheFileFor(source, m2, tc, b2)
            <==> m1 == m2 && tc.hash(tc.preprocess(b1, m1)) == tc.hash(tc.preprocess(b2, m2))
  {
    var h1 := tc.hash(tc.preprocess(b1, m1));
    var h2 := tc.hash(tc.preprocess(b2, m2));
    if CacheFileFor(source, m1, tc, b1) == CacheFileFor(source, m2, tc, b2) {
      CacheFileNameInjective(source.stem, h1, m1, h2, m2);
    }
  }

  /** The cache step of one construction, given the source bytes. */
  function CompileStep(files: Files, source: ShaderSource, mode: CompileMode, tc: Toolchain,
                       sourceBytes: seq<byte>, draws: seq<int>): Result<CacheResult, ShaderError>
    requires ValidDraws(draws)
  {
    CacheStep(files, CacheFileFor(source, mode, tc, sourceBytes), TempFileFor(source, draws), tc.compile(sourceBytes, mode))
  }

  /** What the reflection loop makes of a binary, as `BuildLayout` promises it. */
  ghost predicate ReflectedAs(binary: seq<byte>, tc: Toolchain, r: Result<Shader, ShaderError>)
  {
    var binds := tc.reflect(binary);
    && (r.Ok? <==> forall i :: 0 <= i < |binds| ==> Supported(binds[i]))
    && (r.Ok? ==> r.value.binary == binary && r.value.bindings == binds && IsLayoutOf(binds, r.value.layout))
    && (r.Err? ==> exists i :: 0 <= i < |binds| && r.error == UnsupportedBinding(i) && !Supported(binds[i])
                              && forall k :: 0 <= k < i ==> Supported(binds[k]))
  }

  /** The `Shader` constructor up to the root signature: an empty source
      file is an error, and so is a miss whose compile produced nothing;
      otherwise the binary is the cache step's and the layout the reflection's. */
  method BuildShader(fs: FileSystem, source: ShaderSource, mode: CompileMode, tc: Toolchain, draws: seq<int>)
    returns (r: Result<Shader, ShaderError>)
    requires ValidDraws(draws)
    modifies fs
    ensures var sourceBytes := ReadBlob(old(fs.files), Some(source.path));
            |sourceBytes| == 0 ==> r == Err(EmptySourceFile) && fs.files == old(fs.files)
    ensures var sourceBytes := ReadBlob(old(fs.files), Some(source.path));
            var step := CompileStep(old(fs.files), source, mode, tc, sourceBytes, draws);
            |sourceBytes| > 0 && step.Err? ==> r == Err(EmptyCompileOutput) && fs.files == old(fs.files)
    ensures var sourceBytes := ReadBlob(old(fs.files), Some(source.path));
            var step := CompileStep(old(fs.files), source, mode, tc, sourceBytes, draws);
            |sourceBytes| > 0 && step.Ok? ==> fs.files == step.value.files && ReflectedAs(step.value.binary, tc, r)
    ensures r.Ok? ==> WellFormed(r.value)
  {
    var sourceBytes := ReadBlob(fs.files, Some(source.path));
    if |sourceBytes| == 0 {
      return Err(EmptySourceFile);
    }
    var cacheFile := CacheFileFor(source, mode, tc, sourceBytes);
    var step := LoadOrCompile(fs, source.path.dir, source.stem, cacheFile, tc.compile(sourceBytes, mode), draws);
    if step.Err? {
      return Err(step.error);
    }
    var binds := tc.reflect(step.value.binary);
    var layout := BuildLayout(binds);
    if layout.Err? {
      return Err(UnsupportedBinding(layout.error.index));
    }
    r := Ok(Shader(step.value.binary, binds, layout.value));
  }

  /** A rebuild after a construction that compiled and published its cache
      file reads the same source, finds the same cache file and takes the
      published binary without consulting the compiler. */
  lemma {:induction false} RebuildHitsCache(files: Files, source: ShaderSource, mode: CompileMode, tc: Toolchain,
                                            draws1: seq<int>, draws2: seq<int>)
    requires ValidDraws(draws1) && ValidDraws(draws2)
    requires var sourceBytes := ReadBlob(files, Some(source.path));
             var key := CacheFileFor(source, mode, tc, sourceBytes);
             && |sourceBytes| > 0 && key.Some? && key.value !in files
             && source.path != key.value && source.path != TempFileFor(source, draws1)
             && CompileStep(files, source, mode, tc, sourceBytes, draws1).Ok?
    ensures var sourceBytes := ReadBlob(files, Some(source.path));
            var first := CompileStep(files, source, mode, tc, sourceBytes, draws1).value;
            var second := CompileStep(first.files, source, mode, tc, ReadBlob(first.files, Some(source.path)), draws2);
            && first.compiled
            && ReadBlob(first.files, Some(source.path)) == sourceBytes
            && second.Ok? && !second.value.compiled
            && second.value.binary == first.binary
            && second.value.files == first.files
  {
    var sourceBytes := ReadBlob(files, Some(source.path));
    var key := CacheFileFor(source, mode, tc, sourceBytes);
    var temp := TempFileFor(source, draws1);
    var code := tc.compile(sourceBytes, mode);
    assert key.value != temp by {
      TempNameIsNotCacheName(source.stem, TempLettersOf(draws1), tc.hash(tc.preprocess(sourceBytes, mode)), mode);
    }
    var first := CacheStep(files, key, temp, code).value;
    assert first.files == Published(files, temp, key, code);
    assert first.files[source.path] == files[source.path];
    assert first.files[key.value] == code;
  }

  // ---------------------------------------------------------------- the argument heap

  /** The number of descriptors the root signature's table spans: one per
      reflected binding (`NumDescriptorRanges`, each range one descriptor). */
  function NumDescriptorsFor(layout: Layout): (n: nat)
  {
    |layout.ranges|
  }

  /** Every index the binding map hands out addresses a descriptor of a heap
      sized by the table, and the map's size is the table's size exactly when
      the reflected names are distinct; the map's size is then a correct
      heap size too. */
  lemma HeapSizeCoversLayout(s: Shader)
    requires WellFormed(s)
    ensures forall name :: name in s.layout.var2index ==> 0 <= s.layout.var2index[name] < NumDescriptorsFor(s.layout)
    ensures NumDescriptorsAsWritten(s.layout.var2index) <= NumDescriptorsFor(s.layout)
    ensures DistinctNames(s.bindings) ==> NumDescriptorsAsWritten(s.layout.var2index) == NumDescriptorsFor(s.layout)
  {
    IndicesAddressRanges(s.bindings, s.layout);
    if DistinctNames(s.bindings) {
      DistinctNamesFillMap(s.bindings, s.layout);
    }
  }

  /** `createDescriptorHeap` as written: `new ArgumentHeap(device,
      _var2index)`, a heap of one unwritten slot per distinct reflected name,
      holding a reference to the device. With distinct names every name's
      slot lies inside it. */
  method CreateDescriptorHeapAsWritten(s: Shader, heapStart: nat, increment: uint32, device: RefCounted) returns (heap: ArgumentHeap)
    requires WellFormed(s)
    requires device.Valid() && !device.deleted
    modifies device
    ensures fresh(heap.slots)
    ensures heap.slots.Length == NumDescriptorsAsWritten(s.layout.var2index) && heap.var2index == s.layout.var2index
    ensures forall k :: 0 <= k < heap.slots.Length ==> heap.slots[k] == Unwritten
    ensures heap.deviceHandle.ptr == device && device.refCount == old(device.refCount) + 1
    ensures DistinctNames(s.bindings) ==> heap.Valid()
  {
    heap := new ArgumentHeap(s.layout.var2index, heapStart, increment, device);
    HeapSizeCoversLayout(s);
  }

  /** Two reflected bindings under one name: the as-written heap has one slot,
      and the name's index, 1, lies outside it, so binding that name writes
      past the heap's end. */
  lemma AsWrittenHeapMissesSlot(s: Shader, heap: ArgumentHeap)
    requires WellFormed(s)
    requires s.bindings == [BindDesc("a", UavRwStructured, 0, 0), BindDesc("a", UavRwStructured, 1, 0)]
    requires heap.var2index == s.layout.var2index && heap.slots.Length == NumDescriptorsAsWritten(s.layout.var2index)
    ensures heap.slots.Length == 1 < NumDescriptorsFor(s.layout)
    ensures !heap.InHeap("a")
  {
    DuplicateNameShrinksMap(s.layout);
  }

  /** `createDescriptorHeap` as evidently intended: an argument heap with one
      unwritten slot per descriptor of the table, holding a reference to the
      device. */
  method CreateDescriptorHeap(s: Shader, heapStart: nat, increment: uint32, device: RefCounted) returns (heap: ArgumentHeap)
    requires WellFormed(s)
    requires device.Valid() && !device.deleted
    modifies device
    ensures heap.Valid() && fresh(heap.slots)
    ensures heap.slots.Length == NumDescriptorsFor(s.layout) && heap.var2index == s.layout.var2index
    ensures forall k :: 0 <= k < heap.slots.Length ==> heap.slots[k] == Unwritten
    ensures heap.deviceHandle.ptr == device && device.refCount == old(device.refCount) + 1
  {
    HeapSizeCoversLayout(s);
    heap := new ArgumentHeap.Sized(s.layout.var2index, NumDescriptorsFor(s.layout), heapStart, increment, device);
  }
}
