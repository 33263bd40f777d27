/** The GPU memory objects: upload and download staging buffers, the
    read/write structured buffer, the constant buffer and the typed read-back
    view. Their fields are fixed at construction, so each is a value here; the
    committed resource itself is an opaque `ResourceId`, and the width a
    constructor asks `CreateCommittedResource` for is kept as `width`. */
module Resources {
  import opened Ints
  import Sizes

  /** The `ID3D12Resource` a constructor obtained from the device. */
  datatype ResourceId = ResourceId(handle: nat)

  datatype UploadResource = UploadResource(bytes: int64, width: nat, resource: ResourceId)

  datatype DownloadResource = DownloadResource(bytes: int64, width: nat, resource: ResourceId)

  datatype BufferResource = BufferResource(bytes: int64, stride: int64, width: nat, resource: ResourceId)

  /** A `ConstantBuffer<T>`: `typeSize` is `sizeof(T)`; the uploader is the
      persistently mapped staging copy. */
  datatype ConstantBuffer = ConstantBuffer(bytes: int64, typeSize: nat, resource: ResourceId, uploader: UploadResource)

  /** The UAV description of a structured buffer (`D3D12_UNORDERED_ACCESS_VIEW_DESC`
      with `Format = UNKNOWN`, `ViewDimension = BUFFER`). */
  datatype UavDescription = UavDescription(
    firstElement: nat, numElements: uint32, structureByteStride: uint32, counterOffsetInBytes: nat)

  /** A `TypedView<T>` reduced to its element count; the data pointer is not modelled. */
  datatype TypedView = TypedView(count: int64)

  /** `std::max(bytes, 1LL)`: the size every staging and default buffer stores. */
  function StoredBytes(bytes: int64): (r: int64)
    ensures r >= 1
    ensures bytes >= 1 ==> r == bytes
    ensures bytes < 1 ==> r == 1
  {
    if bytes < 1 then 1 else bytes
  }

  /** `UploadResource(device, bytes)`: the resource is created with the stored size. */
  function NewUploadResource(bytes: int64, resource: ResourceId): (u: UploadResource)
    ensures u.bytes >= 1 && (bytes >= 1 ==> u.bytes == bytes)
    ensures u.width == u.bytes as int
    ensures u.resource == resource
  {
    UploadResource(StoredBytes(bytes), StoredBytes(bytes) as int, resource)
  }

  /** `DownloadResource(device, bytes)` as written: `_bytes` is clamped to 1, but
      `CD3DX12_RESOURCE_DESC::Buffer( bytes )` receives the caller's unclamped
      value, converted to `UINT64`. */
  function NewDownloadResourceAsWritten(bytes: int64, resource: ResourceId): (d: DownloadResource)
    ensures d.bytes >= 1 && (bytes >= 1 ==> d.bytes == bytes)
    ensures d.width == ToUint64(bytes)
  {
    DownloadResource(StoredBytes(bytes), ToUint64(bytes), resource)
  }

  /** For a zero-byte request the allocation asked for is empty while `bytes()`
      reports one byte, so `map(0, bytes())` reads past what was requested. */
  lemma DownloadWidthMismatch()
    ensures var d := NewDownloadResourceAsWritten(0, ResourceId(0));
            d.bytes == 1 && d.width == 0 && d.width < d.bytes as int
  {
  }

  /** `DownloadResource(device, bytes)` as evidently intended, like the other two
      buffers: the resource is created with the stored, clamped size. */
  function NewDownloadResource(bytes: int64, resource: ResourceId): (d: DownloadResource)
    ensures d.bytes >= 1 && (bytes >= 1 ==> d.bytes == bytes)
    ensures d.width == d.bytes as int
    ensures d.resource == resource
  {
    DownloadResource(StoredBytes(bytes), StoredBytes(bytes) as int, resource)
  }

  /** The corrected download buffer agrees with the as-written one on every
      positive size and differs only in the width requested for the others. */
  lemma DownloadCorrectionAgrees(bytes: int64, resource: ResourceId)
    ensures var fixed, written := NewDownloadResource(bytes, resource), NewDownloadResourceAsWritten(bytes, resource);
            fixed.bytes == written.bytes &&
            (fixed.width == written.width <==> bytes >= 1)
  {
  }

  /** `BufferResource(device, bytes, structureByteStride)`. */
  function NewBufferResource(bytes: int64, stride: int64, resource: ResourceId): (b: BufferResource)
    ensures b.bytes >= 1 && (bytes >= 1 ==> b.bytes == bytes)
    ensures b.width == b.bytes as int && b.stride == stride && b.resource == resource
  {
    BufferResource(StoredBytes(bytes), stride, StoredBytes(bytes) as int, resource)
  }

  /** `itemCount()`: `_bytes / _structureByteStride` on `int64_t` (truncating). */
  function ItemCount(b: BufferResource): int64
    requires b.bytes >= 1 && b.stride != 0
  {
    TruncDiv(b.bytes as int, b.stride as int) as int64
  }

  /** `UAVDescription()`: `NumElements` and `StructureByteStride` are `UINT`
      fields, so the quotient and the stride are converted modulo 2^32. */
  function UavDescriptionOf(b: BufferResource): UavDescription
    requires b.bytes >= 1 && b.stride != 0
  {
    UavDescription(0, ToUint32(TruncDiv(b.bytes as int, b.stride as int)), ToUint32(b.stride as int), 0)
  }

  /** `itemCount()` truncates toward zero, which for a positive stride is
      the floor of `bytes / stride`. */
  lemma ItemCountIsQuotient(b: BufferResource)
    requires b.bytes >= 1 && b.stride > 0
    ensures ItemCount(b) as int == b.bytes as int / b.stride as int
  {
    assert TruncDiv(b.bytes as int, b.stride as int) == b.bytes as int / b.stride as int;
  }

  /** For a positive stride the buffer holds `itemCount()` whole elements and no more. */
  lemma {:induction false} ItemCountIsWholeElements(b: BufferResource)
    requires b.bytes >= 1 && b.stride > 0
    ensures var n := ItemCount(b) as int;
            n >= 0 && n * (b.stride as int) <= b.bytes as int < (n + 1) * (b.stride as int)
  {
    ItemCountIsQuotient(b);
    WholeElements(b.bytes as int, b.stride as int);
  }

  /** The UAV view starts at element 0 with no counter; when the item count
      and the stride fit in 32 bits it covers exactly `itemCount()` elements
      with the buffer's stride. */
  lemma {:induction false} UavMatchesItemCount(b: BufferResource)
    requires b.bytes >= 1 && b.stride > 0
    ensures var d := UavDescriptionOf(b);
            d.firstElement == 0 && d.counterOffsetInBytes == 0 &&
            (ItemCount(b) as int < TWO_TO_THE_32 ==> d.numElements as int == ItemCount(b) as int) &&
            (b.stride as int < TWO_TO_THE_32 ==> d.structureByteStride as int == b.stride as int)
  {
    var q := TruncDiv(b.bytes as int, b.stride as int);
    assert q == ItemCount(b) as int by { ItemCountIsQuotient(b); }
    assert q >= 0 by {
      assert q == b.bytes as int / b.stride as int;
      QuotientNonNegative(b.bytes as int, b.stride as int);
    }
    var d := UavDescriptionOf(b);
    assert d.numElements == ToUint32(q) && d.structureByteStride == ToUint32(b.stride as int);
    if q < TWO_TO_THE_32 {
      ToUint32Small(q);
    }
    if b.stride as int < TWO_TO_THE_32 {
      ToUint32Small(b.stride as int);
    }
  }

  /** `ConstantBuffer<T>(device)`: `constantBufferSize(std::max<int>(sizeof(T), 1))`
      bytes, backed by an upload buffer of the same size. The `int` conversion
      of `sizeof(T)` is faithful only below 2^31. */
  function NewConstantBuffer(typeSize: nat, resource: ResourceId, uploaderResource: ResourceId): (c: ConstantBuffer)
    requires typeSize < 0x8000_0000
    ensures c.bytes as int % 256 == 0 && c.bytes as int >= Max(typeSize, 1) && c.typeSize == typeSize
    ensures c.uploader.bytes == c.bytes
  {
    var bytes := Sizes.ConstantBufferSize(Max(typeSize, 1) as uint32) as int64;
    ConstantBuffer(bytes, typeSize, resource, NewUploadResource(bytes, uploaderResource))
  }

  /** The constant buffer is a whole number of 256-byte quanta, large enough
      for one `T` (and at least one byte), less than one quantum larger than
      needed, and the `sizeof(T)`-byte copy of `updateCommand` fits in both the
      buffer and its uploader. */
  lemma {:induction false} ConstantBufferFits(typeSize: nat, resource: ResourceId, uploaderResource: ResourceId)
    requires typeSize < 0x8000_0000
    ensures var c := NewConstantBuffer(typeSize, resource, uploaderResource);
            c.bytes as int % 256 == 0 &&
            Max(typeSize, 1) <= c.bytes as int < Max(typeSize, 1) + 256 &&
            c.uploader.bytes == c.bytes && c.uploader.width == c.bytes as int &&
            c.typeSize <= c.bytes as int && c.typeSize <= c.uploader.bytes as int
  {
    var m := Max(typeSize, 1) as uint32;
    assert m as int <= TWO_TO_THE_32 - 256;
    var r := Sizes.ConstantBufferSize(m);
    assert r as int >= 1;
  }

  /** `TypedView<T>(p, bytes)`: `bytes / sizeof(T)` converts the signed byte
      count to `size_t` before dividing, and the quotient back to `int64_t`. */
  function NewTypedView(bytes: int64, elementSize: nat): TypedView
    requires 0 < elementSize < TWO_TO_THE_64
  {
    TypedView(ToInt64(ToUint64(bytes) / elementSize))
  }

  /** For a non-negative byte count the conversions to `size_t` and back
      change nothing: the count is the quotient. */
  lemma TypedViewCountIsQuotient(bytes: int64, elementSize: nat)
    requires 0 < elementSize < TWO_TO_THE_64
    requires bytes >= 0
    ensures NewTypedView(bytes, elementSize).count as int == bytes as int / elementSize
  {
    var q := bytes as int / elementSize;
    QuotientAtMost(bytes as int, elementSize);
    assert ToUint64(bytes) == bytes as int;
    assert ToInt64(q) as int == q;
  }

  /** For a non-negative byte count the view holds the whole elements that fit. */
  lemma {:induction false} TypedViewCount(bytes: int64, elementSize: nat)
    requires 0 < elementSize < TWO_TO_THE_64
    requires bytes >= 0
    ensures var n := NewTypedView(bytes, elementSize).count as int;
            n == bytes as int / elementSize &&
            n * elementSize <= bytes as int < (n + 1) * elementSize
  {
    TypedViewCountIsQuotient(bytes, elementSize);
    WholeElements(bytes as int, elementSize);
  }

  /** `mapTyped<T>(readBytesBeg, readBytesEnd)`: the view is sized by the whole
      resource's `bytes()`, not by the requested read range. */
  function MapTyped(d: DownloadResource, readBegin: int64, readEnd: int64, elementSize: nat): TypedView
    requires 0 < elementSize < TWO_TO_THE_64
  {
    NewTypedView(d.bytes, elementSize)
  }

  /** `mapTyped<T>()` is `mapTyped<T>(0, bytes())`. */
  function MapTypedWhole(d: DownloadResource, elementSize: nat): TypedView
    requires 0 < elementSize < TWO_TO_THE_64
  {
    MapTyped(d, 0, d.bytes, elementSize)
  }

  /** Whatever range is mapped, the typed view counts every element of the
      whole download buffer, the same as mapping all of it. */
  lemma {:induction false} MapTypedIgnoresRange(d: DownloadResource, readBegin: int64, readEnd: int64, elementSize: nat)
    requires 0 < elementSize < TWO_TO_THE_64
    requires d.bytes >= 1
    ensures MapTyped(d, readBegin, readEnd, elementSize) == MapTypedWhole(d, elementSize)
    ensures MapTyped(d, readBegin, readEnd, elementSize).count as int == d.bytes as int / elementSize
  {
    TypedViewCount(d.bytes, elementSize);
  }
}
