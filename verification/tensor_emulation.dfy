/** The tensor half of the emulation layer: `vkCreateTensorARM` backs a tensor
    with a storage buffer sized from its dimensions, `vkDestroyTensorARM`
    releases it, and `vkGetTensorPropertiesARM` reports its format and rank.

    The driver call `vkCreateBuffer` is outside the model: its result code and
    the buffer handle it writes are parameters. Handles are numbers, with 0 for
    `VK_NULL_HANDLE`. */
module TensorEmulation {
  import opened Outcome
  import opened Scenario

  const U32_LIMIT: int := 0x1_0000_0000
  /** `size_t` on the 64-bit hosts the layer targets. */
  const SIZE_LIMIT: int := 0x1_0000_0000_0000_0000

  type U32 = x: int | 0 <= x < U32_LIMIT
  type Size = x: int | 0 <= x < SIZE_LIMIT
  type Handle = x: int | 0 <= x < SIZE_LIMIT

  const NULL_HANDLE: Handle := 0
  const SUCCESS: int := 0

  /** Every element is taken to be a 4-byte float32, whatever the format. */
  const ELEMENT_SIZE: int := 4

  const BUFFER_USAGE_TRANSFER_SRC: int := 0x1
  const BUFFER_USAGE_TRANSFER_DST: int := 0x2
  const BUFFER_USAGE_STORAGE_BUFFER: int := 0x20

  datatype StructureType = BufferCreateInfoType | TensorPropertiesType
  datatype SharingMode = Exclusive | Concurrent

  /** `VkTensorCreateInfoARM`; `dimensions` is what `pDimensions` points at. */
  datatype TensorCreateInfo = TensorCreateInfo(usage: U32, format: U32, dimensionCount: U32, dimensions: seq<U32>)

  datatype BufferCreateInfo = BufferCreateInfo(sType: StructureType, size: Size, usage: int, sharingMode: SharingMode)

  /** `struct TensorEmulation`. `new TensorEmulation()` zero-initialises it, so
      `memory` stays null: nothing in the layer allocates device memory. */
  datatype Tensor = Tensor(device: Handle, format: U32, dimensions: seq<U32>, totalSize: Size, buffer: Handle, memory: Handle)

  /** What `vkCreateTensorARM` leaves behind: the buffer request it made, the
      result it returns and the value of `*pTensor` afterwards. */
  datatype Created = Created(request: BufferCreateInfo, result: int, tensor: Tensor, handle: Option<Tensor>)

  /** What `vkDestroyTensorARM` releases, in order. */
  datatype Release = DestroyBuffer(buffer: Handle) | FreeMemory(memory: Handle)

  datatype TensorProperties = TensorProperties(sType: StructureType, format: U32, dimensionCount: U32)

  lemma {:induction false} ProductSnoc(s: seq<int>, x: int)
    ensures Product(s + [x]) == Product(s) * x
    decreases |s|
  {
    if s == [] {
      assert s + [x] == [x];
      assert [x][1..] == [];
    } else {
      assert (s + [x])[1..] == s[1..] + [x];
      ProductSnoc(s[1..], x);
      assert Product(s + [x]) == s[0] * (Product(s[1..]) * x);
      assert s[0] * (Product(s[1..]) * x) == (s[0] * Product(s[1..])) * x;
    }
  }

  /** Reducing a factor modulo `m` first does not change a product modulo `m`. */
  lemma MulMod(a: int, b: int, m: int)
    requires m > 0
    ensures ((a % m) * b) % m == (a * b) % m
  {
    var q := a / m;
    var r := a % m;
    assert a == q * m + r;
    assert a * b == (q * b) * m + r * b;
    AddMultipleMod(r * b, q * b, m);
  }

  lemma AddMultipleMod(x: int, k: int, m: int)
    requires m > 0
    ensures (x + k * m) % m == x % m
  {
    var y := x + k * m;
    var q := x / m;
    var r := x % m;
    assert y == (q + k) * m + r;
    ModUnique(y, q + k, r, m);
  }

  /** Division with remainder is unique. */
  lemma ModUnique(y: int, q: int, r: int, m: int)
    requires m > 0 && 0 <= r < m && y == q * m + r
    ensures y % m == r
  {
    var d := q - y / m;
    assert d * m == y % m - r;
    MultipleBound(d, m);
  }

  /** A non-zero multiple of `m` is at least `m` away from 0. */
  lemma MultipleBound(d: int, m: int)
    requires m > 0
    ensures d >= 1 ==> d * m >= m
    ensures d <= -1 ==> d * m <= -m
  {
    if d >= 1 {
      assert d * m == (d - 1) * m + m;
    }
    if d <= -1 {
      assert d * m == (d + 1) * m - m;
    }
  }

  /** The loop at tensor_emulation.cpp:43-46: the `size_t` product of the first
      `count` dimensions, 1 for a rank-0 tensor. */
  method TotalElements(dims: seq<U32>, count: U32) returns (n: Size)
    requires count <= |dims|
    ensures n == Product(dims[..count]) % SIZE_LIMIT
    ensures count == 0 ==> n == 1
  {
    n := 1;
    var i := 0;
    assert dims[..0] == [];
    while i < count
      invariant i <= count
      invariant n == Product(dims[..i]) % SIZE_LIMIT
    {
      assert dims[..i + 1] == dims[..i] + [dims[i]];
      ProductSnoc(dims[..i], dims[i]);
      MulMod(Product(dims[..i]), dims[i], SIZE_LIMIT);
      n := (n * dims[i]) % SIZE_LIMIT;
      i := i + 1;
    }
  }

  /** `vkCreateTensorARM`. `bufferResult` and `buffer` are what `vkCreateBuffer`
      returns and writes; `prior` is the value `*pTensor` held before the call. */
  method CreateTensor(device: Handle, info: TensorCreateInfo, bufferResult: int, buffer: Handle, prior: Option<Tensor>)
    returns (c: Created)
    requires info.dimensionCount <= |info.dimensions|
    ensures c.request.sType == BufferCreateInfoType
    ensures c.request.size == (Product(info.dimensions[..info.dimensionCount]) * ELEMENT_SIZE) % SIZE_LIMIT
    ensures c.request.usage == BUFFER_USAGE_STORAGE_BUFFER + BUFFER_USAGE_TRANSFER_SRC + BUFFER_USAGE_TRANSFER_DST
    ensures c.request.sharingMode == Exclusive
    ensures c.tensor.totalSize == c.request.size
    ensures c.tensor.dimensions == info.dimensions[..info.dimensionCount]
    ensures c.tensor.device == device && c.tensor.format == info.format
    ensures c.tensor.memory == NULL_HANDLE
    ensures c.result == bufferResult
    ensures c.result == SUCCESS ==> c.handle == Some(c.tensor) && c.tensor.buffer == buffer
    ensures c.result != SUCCESS ==> c.handle == prior
  {
    var elements := TotalElements(info.dimensions, info.dimensionCount);
    MulMod(Product(info.dimensions[..info.dimensionCount]), ELEMENT_SIZE, SIZE_LIMIT);
    var totalSize := (elements * ELEMENT_SIZE) % SIZE_LIMIT;
    var request := BufferCreateInfo(BufferCreateInfoType, totalSize,
      BUFFER_USAGE_STORAGE_BUFFER + BUFFER_USAGE_TRANSFER_SRC + BUFFER_USAGE_TRANSFER_DST, Exclusive);
    var dims: seq<U32> := [];
    var i := 0;
    while i < info.dimensionCount
      invariant i <= info.dimensionCount
      invariant dims == info.dimensions[..i]
    {
      assert info.dimensions[..i + 1] == info.dimensions[..i] + [info.dimensions[i]];
      dims := dims + [info.dimensions[i]];
      i := i + 1;
    }
    var tensor := Tensor(device, info.format, dims, totalSize, NULL_HANDLE, NULL_HANDLE);
    if bufferResult == SUCCESS {
      tensor := tensor.(buffer := buffer);
      c := Created(request, bufferResult, tensor, Some(tensor));
    } else {
      c := Created(request, bufferResult, tensor, prior);
    }
  }

  /** The element count wraps in `size_t`: two dimensions of 2^31 give 2^62
      elements, whose byte size 2^64 is stored as 0. */
  lemma SizeWraps()
    ensures (Product([0x8000_0000, 0x8000_0000]) * ELEMENT_SIZE) % SIZE_LIMIT == 0
  {
    assert Product([0x8000_0000]) == 0x8000_0000;
  }

  /** When the true byte size fits in `size_t`, the requested size is exact. */
  lemma SizeExact(dims: seq<U32>)
    requires Product(dims) * ELEMENT_SIZE < SIZE_LIMIT
    ensures (Product(dims) * ELEMENT_SIZE) % SIZE_LIMIT == Product(dims) * ELEMENT_SIZE
  {
    ProductNonnegative(dims);
  }

  lemma {:induction false} ProductNonnegative(dims: seq<U32>)
    ensures Product(dims) >= 0
    decreases |dims|
  {
    if dims != [] {
      ProductNonnegative(dims[1..]);
      assert Product(dims) == dims[0] * Product(dims[1..]);
    }
  }

  /** `vkDestroyTensorARM`: nothing for a null handle, otherwise the buffer and
      memory that are not null, each once, the buffer before the memory. */
  function Destroy(tensor: Option<Tensor>): (r: seq<Release>)
    ensures tensor == None ==> r == []
    ensures tensor.Some? ==> (DestroyBuffer(tensor.value.buffer) in r <==> tensor.value.buffer != NULL_HANDLE)
    ensures tensor.Some? ==> (FreeMemory(tensor.value.memory) in r <==> tensor.value.memory != NULL_HANDLE)
    ensures tensor.Some? ==> forall k | 0 <= k < |r| ::
      r[k] == DestroyBuffer(tensor.value.buffer) || r[k] == FreeMemory(tensor.value.memory)
    ensures tensor.Some? ==>
      |r| == (if tensor.value.buffer != NULL_HANDLE then 1 else 0) + (if tensor.value.memory != NULL_HANDLE then 1 else 0)
    ensures |r| == 2 ==> r[0].DestroyBuffer? && r[1].FreeMemory?
  {
    match tensor
    case None => []
    case Some(t) =>
      (if t.buffer != NULL_HANDLE then [DestroyBuffer(t.buffer)] else []) +
      (if t.memory != NULL_HANDLE then [FreeMemory(t.memory)] else [])
  }

  /** A release list that frees each non-null handle of `t` once, nothing else,
      and the buffer before the memory. */
  predicate ReleasesExactly(t: Tensor, r: seq<Release>) {
    && (DestroyBuffer(t.buffer) in r <==> t.buffer != NULL_HANDLE)
    && (FreeMemory(t.memory) in r <==> t.memory != NULL_HANDLE)
    && (forall k | 0 <= k < |r| :: r[k] == DestroyBuffer(t.buffer) || r[k] == FreeMemory(t.memory))
    && |r| == (if t.buffer != NULL_HANDLE then 1 else 0) + (if t.memory != NULL_HANDLE then 1 else 0)
    && (|r| == 2 ==> r[0].DestroyBuffer? && r[1].FreeMemory?)
  }

  /** The release order is fully determined: any list releasing exactly the
      non-null handles, buffer first, is the one `Destroy` produces. */
  lemma ReleasesDetermined(t: Tensor, r: seq<Release>)
    requires ReleasesExactly(t, r)
    ensures r == Destroy(Some(t))
  {
    if |r| == 1 {
      assert r[0] in r;
    } else if |r| == 2 {
      assert r[0] == DestroyBuffer(t.buffer) && r[1] == FreeMemory(t.memory);
    }
  }

  /** A tensor the layer created releases exactly its buffer: its memory handle
      was never set. */
  lemma DestroyCreated(c: Created)
    requires c.result == SUCCESS && c.handle == Some(c.tensor)
    requires c.tensor.memory == NULL_HANDLE && c.tensor.buffer != NULL_HANDLE
    ensures Destroy(c.handle) == [DestroyBuffer(c.tensor.buffer)]
  {
  }

  /** `vkGetTensorPropertiesARM`: the stored format, and the rank narrowed from
      `size_t` to `uint32_t`. */
  function Properties(t: Tensor): (p: TensorProperties)
    ensures p.sType == TensorPropertiesType
    ensures p.format == t.format
    ensures |t.dimensions| < U32_LIMIT ==> p.dimensionCount == |t.dimensions|
  {
    TensorProperties(TensorPropertiesType, t.format, |t.dimensions| % U32_LIMIT)
  }

  /** Creating a tensor and reading its properties gives back the format and
      dimension count of the create info. */
  method CreateThenQuery(device: Handle, info: TensorCreateInfo, buffer: Handle, prior: Option<Tensor>)
    returns (p: TensorProperties)
    requires info.dimensionCount <= |info.dimensions|
    ensures p.format == info.format && p.dimensionCount == info.dimensionCount
  {
    var c := CreateTensor(device, info, SUCCESS, buffer, prior);
    p := Properties(c.handle.value);
  }
}
