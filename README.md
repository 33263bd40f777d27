# EzDx bookkeeping, modelled in Dafny

EzDx (`EzDx.hpp`) is a thin header-only wrapper over Direct3D 12 and the DXC
shader compiler for running compute kernels. Most of it forwards to the GPU
driver and the compiler. Between those calls sits deterministic bookkeeping,
and that bookkeeping is what this project models and proves things about:

- constant-buffer and dispatch size arithmetic, in 32-bit and 64-bit C++ integers (`sizes.dfy`, `ints.dfy`);
- the sizes and views of the upload, download, structured and constant buffers, and of `TypedView` (`resources.dfy`);
- `DxPtr`, the intrusive reference-counting handle, over an abstract reference-counted object class (`ownership.dfy`);
- the open/closed protocol that `CommandObject::storeCommand` follows on its command list (`commands.dfy`);
- the reflection loop that turns a shader's bound resources into descriptor ranges and a `name -> index` map (`binding.dfy`);
- `ArgumentHeap`, a descriptor heap whose slots are written by name (`arguments.dfy`);
- the compiled-shader file cache, with these steps (`shadercache.dfy`):
  - the cache name is the base name, an 8-digit lowercase hex hash, `.il`, and `_d` in Debug mode;
  - a non-empty cache file is a hit;
  - on a miss, the output is written to a temporary file with 8 random letters, then renamed onto the cache file, and the temporary file is removed if the rename fails;
  - two writers may publish concurrently;
- the `Shader` constructor as a whole, and `createDescriptorHeap` (`shaderpipeline.dfy`).

How things are represented:
- `DX_ASSERT` failures are `Err`/`Fail` outcomes.
- Undefined behaviour (a zero divisor, signed overflow, a slot outside the heap) is a precondition.
- The file system is a map from `FilePath` (directory and name) to bytes.
- The preprocessor, compiler, hash, reflection and random draws are inputs.

## Model

| member | source | states |
|---|---|---|
| Sizes.ConstantBufferSize | EzDx.hpp:150-153 | The result is a multiple of 256. For `bytes <= 2^32-256` it lies in `[bytes, bytes+256)`. Above that, the `uint32_t` addition wraps and the result is 0. |
| Sizes.MaskClearsLowByte | EzDx.hpp:152 | On 32-bit words, masking with `0xFFFFFF00` equals subtracting the remainder modulo 256, which is the form the model computes in. |
| Sizes.ConstantBufferSizeIsLeast | EzDx.hpp:150-153 | Without wrap-around, no multiple of 256 that holds `bytes` is smaller than the result. |
| Sizes.ConstantBufferSizeExamples | EzDx.hpp:141-149 | The worked examples beside the function: 0→0, 1→256, 255→256, 256→256, 257→512, 258→512. |
| Sizes.DispatchSize | EzDx.hpp:155-158 | `(n + threads - 1) / threads` with C++'s truncating `/`. It requires a non-zero divisor, and requires the sum `n + threads`, the difference and the quotient to fit in `int64_t`, because overflow is undefined. Its meaning is stated by `DispatchSizeIsCeiling`. |
| Sizes.DispatchSizeIsCeiling | EzDx.hpp:155-158 | For `n >= 0`, `threads > 0` and `n + threads` within `int64_t`, the result `r` is the ceiling of `n/threads`: `r*threads >= n` and `(r-1)*threads < n`. |
| Resources.StoredBytes | EzDx.hpp:374 | `max(bytes, 1)`: at least 1, and equal to `bytes` when that is positive. |
| Resources.NewUploadResource | EzDx.hpp:374-385 | Stored bytes are at least 1, and the resource is created with exactly the stored size. |
| Resources.NewDownloadResourceAsWritten | EzDx.hpp:456-467 | Stored bytes are clamped to at least 1, but the width requested for the resource is the caller's unclamped value converted to `UINT64`. |
| Resources.DownloadWidthMismatch | EzDx.hpp:462 | With a request of 0 bytes, `bytes()` reports 1 while the resource requested is 0 bytes wide. |
| Resources.NewDownloadResource | EzDx.hpp:456-467 | Corrected: stored bytes are at least 1 and the resource is created with the stored size, as for the other buffers. |
| Resources.DownloadCorrectionAgrees | EzDx.hpp:456-467 | The corrected and as-written download buffers store the same size. They request the same width exactly when `bytes >= 1`. |
| Resources.NewBufferResource | EzDx.hpp:521-533 | Stored bytes are at least 1, the resource width is the stored size, and the stride is kept. |
| Resources.ItemCount | EzDx.hpp:538-541 | `bytes / stride` with the truncating `int64_t` division. Its meaning is stated by `ItemCountIsQuotient` and `ItemCountIsWholeElements`. |
| Resources.UavDescriptionOf | EzDx.hpp:554-564 | `FirstElement` 0, counter offset 0, and the quotient and stride converted to `UINT` modulo 2^32. Its meaning is stated by `UavMatchesItemCount`. |
| Resources.ItemCountIsQuotient | EzDx.hpp:538-541 | For a positive stride, the truncating `int64_t` division in `itemCount()` is the floor of `bytes / stride`. |
| Resources.ItemCountIsWholeElements | EzDx.hpp:538-541 | For a positive stride, `itemCount()` is the number of whole elements in the buffer: `n*stride <= bytes < (n+1)*stride`. |
| Resources.UavMatchesItemCount | EzDx.hpp:554-564 | The UAV view has `FirstElement` 0 and counter offset 0. `NumElements` equals `itemCount()` and `StructureByteStride` equals the stride whenever they fit in 32 bits. |
| Resources.NewConstantBuffer | EzDx.hpp:582-596 | The buffer's size is a multiple of 256 and at least `max(sizeof(T), 1)`. The type size is kept, and the uploader has the same size. |
| Resources.ConstantBufferFits | EzDx.hpp:582-616 | The constant buffer's size is a multiple of 256, at least `max(sizeof(T),1)` and less than 256 bytes over it. The uploader has the same size, so the `sizeof(T)` copy in `updateCommand` fits both. |
| Resources.NewTypedView | EzDx.hpp:427-431 | `count` is the byte count converted to `size_t`, divided by `sizeof(T)` and converted back to `int64_t`. Its meaning is stated by `TypedViewCountIsQuotient` and `TypedViewCount`. |
| Resources.TypedViewCountIsQuotient | EzDx.hpp:427-431 | For a non-negative byte count, converting to `size_t` and back changes nothing, so `count` is the quotient `bytes / sizeof(T)`. |
| Resources.TypedViewCount | EzDx.hpp:427-431 | For a non-negative byte count, `count` is `bytes / sizeof(T)`: the number of whole elements that fit. |
| Resources.MapTyped | EzDx.hpp:482-487 | The view over a mapped range is sized by the whole resource's `bytes()`, not by the range. `MapTypedIgnoresRange` states the consequence. |
| Resources.MapTypedWhole | EzDx.hpp:488-491 | `mapTyped()` is `mapTyped(0, bytes())`. |
| Resources.MapTypedIgnoresRange | EzDx.hpp:482-491 | `mapTyped(begin, end)` counts the elements of the whole buffer, the same as `mapTyped()`, whatever range is requested. |
| Ownership.RefCounted.constructor | EzDx.hpp:640 | A new object has count 1, is held by no handle and is not deleted. |
| Ownership.RefCounted.AddRef | EzDx.hpp:667-671 | The count goes up by one. |
| Ownership.RefCounted.AddUnownedRef | EzDx.hpp:750 | An `AddRef` whose reference no handle holds yet: the count and the number of unowned references both go up by one, and the holders are unchanged. |
| Ownership.RefCounted.Disown | EzDx.hpp:53 | Ghost step: a handle's reference passes to a holder outside any handle (`auto p = _ptr`). The count is unchanged, the handle leaves the holders and the invariant is kept. |
| Ownership.RefCounted.TakeOver | EzDx.hpp:59 | Ghost step: a handle that now points here takes over a reference held outside any handle. The count is unchanged, and the handle joins the holders. |
| Ownership.RefCounted.ReleaseUnowned | EzDx.hpp:61-64 | `Release()` of a reference held outside any handle: the count and the unowned references both go down by one. The object is deleted exactly when the count reaches 0, and the invariant is kept. |
| Ownership.RefCounted.Release | EzDx.hpp:672-680 | The count goes down by one, and the object is deleted exactly when the count reaches 0. |
| Ownership.DxPtr.Empty | EzDx.hpp:40 | The default handle is null. |
| Ownership.DxPtr.Adopt | EzDx.hpp:41-43 | Wrapping a raw pointer adds no reference. An existing reference passes to the handle, so the count is unchanged and the handle becomes a holder. |
| Ownership.DxPtr.Copy | EzDx.hpp:44-50 | Copying shares the target and adds exactly one reference, held by the new handle. |
| Ownership.DxPtr.Assign | EzDx.hpp:51-66 | Assigning a handle with the same target (self-assignment included) changes no count and never deletes. Otherwise the new target gains one reference and the old one loses one. The old target is deleted exactly when this handle was its last reference. The count invariant holds on both targets. |
| Ownership.DxPtr.AssignSameTarget | EzDx.hpp:51-66 | With the same target on both sides, the `AddRef` and `Release` cancel: count, holders and unowned references are unchanged, and the target is not deleted. |
| Ownership.DxPtr.AssignNewTarget | EzDx.hpp:51-66 | With different targets, the new target gains one reference, held by this handle. The old target loses this handle's reference and is deleted exactly when that was its last. Both keep the count invariant. |
| Ownership.DxPtr.Destroy | EzDx.hpp:67-73 | A non-null handle releases exactly one reference. The target is deleted exactly when that was its last reference. |
| Commands.StoreCalls | EzDx.hpp:209-218 | One `storeCommand` makes three list calls when the list was closed on entry, and two otherwise: a `Reset` exactly when it was closed, then the recording, and `Close` last. |
| Commands.StoreCallsLegal | EzDx.hpp:209-218 | One `storeCommand` is legal from either state and leaves the list closed. It issues a `Reset` exactly when the list was closed on entry. |
| Commands.SessionLegal | EzDx.hpp:209-218 | Any sequence of `storeCommand` calls on a new object is legal under the command-list protocol. The list is closed once anything was stored, and it was reset on every call but the first. |
| Commands.CommandObject.constructor | EzDx.hpp:220 | A new command object is open and has made no calls on its list. |
| Commands.CommandObject.StoreCommand | EzDx.hpp:209-218 | The object ends closed. Its call log gains `Reset` (only if it was closed), then the recording, then `Close`. |
| Commands.CommandObjectLogLegal | EzDx.hpp:209-220 | In every reachable state, the object's call log is legal, ends in the state `_isClosed` records, and holds one `Reset` per call after the first. |
| Binding.RangeTypeOf | EzDx.hpp:932-946 | CBUFFER maps to CBV, STRUCTURED to SRV, and UAV_RWTYPED and UAV_RWSTRUCTURED to UAV. Every other input type maps to nothing. |
| Binding.BuildLayout | EzDx.hpp:926-954 | The layout is built exactly when every binding has a supported type. It then has one range per binding, each with one descriptor, the binding's register and space, and `OFFSET_APPEND`, and each name maps to the last index carrying it. Otherwise the error names the first unsupported binding. |
| Binding.LayoutDeterministic | EzDx.hpp:926-954 | A list of bindings has only one layout. |
| Binding.IndicesAddressRanges | EzDx.hpp:953 | Every index in the name map is within `[0, n)` for n bindings, and the map has at most n entries. |
| Binding.MapKeysAreNames | EzDx.hpp:953 | The map's keys are exactly the reflected names. |
| Binding.DistinctNamesFillMap | EzDx.hpp:953 | With distinct names, the map has one entry per range and maps each binding's name to its own index. |
| Binding.DuplicateNameShrinksMap | EzDx.hpp:953 | Two bindings named `a` give two ranges but one map entry, and that entry is index 1, which is not below the map's size. |
| Arguments.NumDescriptorsAsWritten | EzDx.hpp:742 | As written, the heap has as many descriptors as the map has keys. |
| Arguments.ArgumentHeap.constructor | EzDx.hpp:739-752 | As written: the heap has `_var2index.size()` slots, one per distinct name, all unwritten, and the map, heap start and increment are kept. The device gains exactly one reference, held by the heap's `_device` handle. |
| Arguments.ArgumentHeap.Sized | EzDx.hpp:739-752 | The same construction with an explicit descriptor count that covers every index of the map. The heap is valid: every mapped index addresses a slot. |
| Arguments.ArgumentHeap.SlotHandle | EzDx.hpp:757-758 | The handle of slot `i` is `start + increment*i` in 32-bit arithmetic, so it lies in `[start, start + 2^32)`. |
| Arguments.HoldDevice | EzDx.hpp:750-751 | The explicit `AddRef`, the adopting temporary, the assignment to `_device` and the temporary's destruction leave the device with exactly one more reference, held by the new handle. The device is never deleted along the way. |
| Arguments.ArgumentHeap.RWStructured | EzDx.hpp:753-760 | It requires that a known name's slot lies inside the heap, because a write past the end is undefined. An unknown name fails and leaves every slot unchanged. A known name writes the buffer's UAV description into that name's slot only, at handle `start + increment*index` in 32-bit arithmetic. |
| Arguments.ArgumentHeap.Constant | EzDx.hpp:761-771 | It requires that a known name's slot lies inside the heap, because a write past the end is undefined. An unknown name fails and leaves every slot unchanged. A known name writes a CBV of the buffer's GPU address and `bytes()` into that name's slot only. The handle returned is `start + increment*index` in 32-bit arithmetic. |
| Arguments.SlotHandlesDistinct | EzDx.hpp:758 | While the heap's size in bytes fits in 32 bits, slot `i` is at `start + increment*i` and different slots have different handles. |
| Arguments.SlotHandleWraps | EzDx.hpp:769 | The 32-bit product wraps: with increment 32, slot 2^27 has the same handle as slot 0. |
| ShaderCache.Hex8 | EzDx.hpp:836-838 | `%08x` of a hash has exactly 8 characters. `Hex8RoundTrip` states that they are the hash's hex digits. |
| ShaderCache.Hex8RoundTrip | EzDx.hpp:836-838 | `%08x` of a hash is 8 lowercase hex digits, and parsing them back gives the hash. |
| ShaderCache.CacheFileName | EzDx.hpp:840-843 | The name is `stem`, `_`, the 8 hex digits, `.il`, and `_d` in Debug mode. Its length and each part are stated by position. |
| ShaderCache.CacheFileNameInjective | EzDx.hpp:836-845 | For one stem, different hashes or different modes give different cache names. |
| ShaderCache.TempLettersOf | EzDx.hpp:885-890 | The temporary name has 8 letters, each in `'a'..'x'`. |
| ShaderCache.TempLetters | EzDx.hpp:886-890 | The loop over `tmp[i]` produces exactly those letters, `'a' + draw`. |
| ShaderCache.TempFileName | EzDx.hpp:891-892 | The temporary name is `stem`, `_`, then the 8 letters, so it has `|stem| + 9` characters. |
| ShaderCache.TempNameIsNotCacheName | EzDx.hpp:891 | A temporary name is never a cache name for the same stem, so removing the temporary file cannot remove the cache. |
| ShaderCache.ReadBlob | EzDx.hpp:640-646 | An existing file reads as its bytes. A missing file, or the empty path, reads as empty. |
| ShaderCache.Published | EzDx.hpp:894-901 | After one publish, the temporary file is gone. The cache file holds the new bytes if it was absent, and keeps its old content otherwise. No other file changes. |
| ShaderCache.FileSystem.Write | EzDx.hpp:894-896 | Writing stores the bytes under the path. |
| ShaderCache.FileSystem.Rename | EzDx.hpp:898 | A rename succeeds exactly when the source exists and the target is a path that does not exist. It then moves the bytes; otherwise nothing changes. |
| ShaderCache.FileSystem.Remove | EzDx.hpp:900 | Removing deletes the path. |
| ShaderCache.Publish | EzDx.hpp:894-901 | The write, the rename and, if the rename fails, the remove leave the files as `Published` describes. |
| ShaderCache.LoadOrCompile | EzDx.hpp:849-906 | A non-empty cache file is returned and nothing changes. Otherwise, empty compiler output fails with the files unchanged, and any other output is published and returned. |
| ShaderCache.CacheStep | EzDx.hpp:849-906 | The value that `LoadOrCompile` computes: a success always carries a non-empty binary. `CacheStepOutcomes` states when it hits, compiles or fails. |
| ShaderCache.CacheStepOutcomes | EzDx.hpp:849-906 | A hit happens exactly when the cache file exists and is non-empty; it returns that file and changes nothing. A compile returns non-empty object code. The step fails exactly when both the cache read and the compile are empty. |
| ShaderCache.SecondRunHits | EzDx.hpp:849-901 | After a compile that published, a second run with the same cache file is a hit exactly when the file did not exist before. It then returns the first run's bytes and changes nothing. |
| ShaderCache.LockedPublishes | EzDx.hpp:883-901 | Under the process-wide lock, two publishes in one process run as two single-writer publishes one after the other. This holds for any temporary names and any existing cache file. |
| ShaderCache.ConcurrentPublish | EzDx.hpp:881-901 | Two writers in separate processes, with distinct temporary files and no cache file yet, can interleave in any of six ways. In each, the cache file ends with one writer's complete output, both temporary files are gone and nothing else changes. With equal outputs, the cache holds that output. |
| ShaderCache.InterleavedRun | EzDx.hpp:894-901 | Each interleaving leaves the old files minus both temporary files, plus the cache file holding the output of the writer that committed first. |
| ShaderPipeline.CacheFileFor | EzDx.hpp:834-846 | `ilFile` lies next to the source and is named by the hash of the preprocessed text. It is the empty path when the preprocessor produced nothing. `CacheKeySharing` states when two sources share it. |
| ShaderPipeline.TempFileFor | EzDx.hpp:885-892 | `tmpFile` lies next to the source and is named by the eight random letters. |
| ShaderPipeline.CompileStep | EzDx.hpp:849-906 | The cache step of one construction, with the cache file and the temporary file derived from the source. `RebuildHitsCache` states what two of them in a row do. |
| ShaderPipeline.CacheKeySharing | EzDx.hpp:834-846 | Two sources with the same stem and directory share a cache file exactly when they use the same mode and their preprocessed text has the same hash. |
| ShaderPipeline.BuildShader | EzDx.hpp:807-954 | An empty or missing source file fails with the files unchanged, and so does a miss whose compile produced nothing. Otherwise the binary comes from the cache step, and the files are left as that step leaves them. The shader's layout is the reflection's layout, or the error names the first unsupported binding. |
| ShaderPipeline.RebuildHitsCache | EzDx.hpp:807-906 | After a build that compiled and published its new cache file, a rebuild reads the same source and finds the same cache file. It returns the published binary without compiling and changes no file. |
| ShaderPipeline.NumDescriptorsFor | EzDx.hpp:959 | The table spans `NumDescriptorRanges = bufferDescriptorRanges.size()` descriptors, one per reflected binding, because each range holds one descriptor. |
| ShaderPipeline.HeapSizeCoversLayout | EzDx.hpp:959 | Every index in the name map addresses a descriptor of a heap sized by the table's range count. The map's size never exceeds that count, and equals it when the reflected names are distinct. |
| ShaderPipeline.CreateDescriptorHeapAsWritten | EzDx.hpp:980-983 | As written: the heap gets one unwritten slot per distinct reflected name and keeps the shader's map. The device gains one reference. The heap is valid whenever the reflected names are distinct. |
| ShaderPipeline.AsWrittenHeapMissesSlot | EzDx.hpp:742 | With two reflected bindings named `a`, the as-written heap has one slot, fewer than the table's two ranges, and the slot for `a` lies outside it. |
| ShaderPipeline.CreateDescriptorHeap | EzDx.hpp:980-983 | Corrected, through `ArgumentHeap.Sized`: the heap has one unwritten slot per descriptor range of the shader and keeps the shader's map. The device gains one reference. |

## Left out

- Every Direct3D 12 and DXGI call is left out: resource creation, `Map`/`Unmap`, barriers, `CopyBufferRegion`, root signature and pipeline state creation, descriptor view creation and `Dispatch`. These are foreign driver calls. Their results are opaque `ResourceId`s and slot values.
- `Shader::dispatch`, the swapchain and `present`, device and adapter probing, and feature queries are left out. They only forward to the driver.
- `FenceObject`, events and `WaitForSingleObject` are left out. They are GPU/CPU synchronisation.
- `DeviceObject::executeCommand` is left out. It records through `storeCommand`, which `Commands` models, and then submits the list with `ExecuteCommandLists`, a foreign queue call. It returns without waiting for the GPU.
- DXC's preprocess, compile and reflection-container calls, and the `Compiler` singleton, are not modelled as code. They are the total functions of a `Toolchain` value, and compiler errors and warnings are not modelled.
- `pr::xxhash32` and the `pr::` path helpers are not part of this model. The hash is a function parameter, the base name is an input stem, and joining a directory and a name is the `FilePath` pair.
- `std::mt19937` and `std::random_device` are left out: the draws are an input constrained to `0..23`.
- `DXCFileBlob`'s `fopen`/`fread` go through a file map in which unreadable means absent. `QueryInterface` and the atomicity of its counter are left out.
- The process-wide `std::mutex` is not modelled as a lock. Its `lock_guard` is held from EzDx.hpp:883 to the end of the block at line 901, so it covers the naming, the write of the temporary file, the `rename` and the `remove`. Within one process, two publishes therefore run one after the other, which `LockedPublishes` states. `ConcurrentPublish` models two writers in separate processes sharing the same directory, where all six interleavings can happen.
- ShaderCache.ConcurrentPublish: it assumes the two writers' temporary files are distinct and the cache file is absent. Independently seeded generators can draw the same 8 letters, with probability 24^-8, and then both writers open the same temporary file. A cache file that exists but is empty also counts as a miss, and then both renames fail and the cache stays empty. Neither case is covered for two processes; `Published` covers each writer alone.
- ShaderCache.InterleavedRun: it makes the same two assumptions as `ConcurrentPublish`, distinct temporary files and an absent cache file.
- Publish does not model `fopen` failing while writing the temporary file. The source does not check it.
- The error path after `DX_ASSERT` is not modelled: the source breaks into the debugger and then continues. The model stops with an error instead; for example, an unknown name passed to `RWStructured` does not go on to write slot 0.
- Arguments.ArgumentHeap.RWStructured: the slot written is `index` itself, while the handle is computed with 32-bit wrap. The two agree while the heap's size in bytes fits in 32 bits (`SlotHandlesDistinct`).
- Arguments.ArgumentHeap.Constant: the slot written is `index` itself, while the handle is computed with 32-bit wrap. The two agree while the heap's size in bytes fits in 32 bits (`SlotHandlesDistinct`).
- Commands.CommandObject.StoreCommand: the callback is assumed to only record commands. The source passes it the live list, and a callback that called `Close` or `Reset` on it would break the protocol, which the model does not capture.
- Sizes.MaskClearsLowByte: the model computes `& 0xFFFFFF00` as subtracting the remainder modulo 256. The mask lemma is stated on 32-bit words and is not linked to `ConstantBufferSize` by a lemma, because the solver cannot convert between `bv32` and integers within its resource limit.
- Resources.NewConstantBuffer: the `int` conversion of `sizeof(T)` is modelled only below 2^31.
- `main_simple.cpp` is the example driver and is not part of this model.

## Findings

| source | as written | input that shows it | evidently intended | confidence | as-written member | corrected member |
|---|---|---|---|---|---|---|
| EzDx.hpp:462 | `DownloadResource` creates its resource with the caller's `bytes` instead of the clamped `_bytes`. | `bytes = 0`: `bytes()` is 1, but the resource requested is 0 bytes wide, and `map()` reads one byte. | Create it with `_bytes`, like `UploadResource` and `BufferResource`. | medium, not executed | Resources.DownloadWidthMismatch | Resources.NewDownloadResource |
| EzDx.hpp:742 | `ArgumentHeap` sizes the heap by the number of distinct names, while the root signature's table has one range per binding. | Two reflected bindings with the same name give a one-descriptor heap and map that name to index 1, so the write lands outside the heap. | Size the heap by the number of ranges. | low, not executed | ShaderPipeline.AsWrittenHeapMissesSlot | ShaderPipeline.CreateDescriptorHeap |
