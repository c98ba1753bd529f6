/** `struct im_object`: an image held on the device as one storage object,
    with host bytes fetched lazily, and the device environment it
    allocates from. The environment keeps the log of what the object asks
    of the device: allocations, reference counting, transfers and kernel
    runs. Transfers larger than the shared pre-allocated buffer get a
    buffer of their own, released again once the transfer is done. */
module ImObject {
  import opened Cl
  import opened Histogram

  /** A request to the device, in the order the host issues it. */
  datatype DeviceOp =
    | AllocImage(id: nat, size: Int2)
    | AllocBuffer(id: nat, bytes: int)
    | Retain(id: nat)
    | Release(id: nat)
    | WriteBuffer(id: nat, bytes: int)
    | Enqueue(d: Dispatch)
    | ReadBuffer(id: nat, offset: int, bytes: int, blocking: bool, waits: bool)

  /** The environment: the size and number of the shared transfer buffer,
      the number the next allocation receives, and the log. */
  class Env {
    const preallocSize: int
    const preallocation: nat
    var nextId: nat
    var ops: seq<DeviceOp>

    /** Numbers handed out are never that of the shared buffer. */
    predicate Valid()
      reads this
    {
      nextId > preallocation
    }

    constructor (preallocSize: int)
      ensures Valid() && this.preallocSize == preallocSize && preallocation == 0 && nextId == 1 && ops == []
    {
      this.preallocSize := preallocSize;
      preallocation := 0;
      nextId := 1;
      ops := [];
    }

    /** `alloc_im`: a new image object of the given size. */
    method AllocIm(size: Int2) returns (id: nat)
      requires Valid()
      modifies this
      ensures Valid() && id == old(nextId) && nextId == id + 1 && ops == old(ops) + [AllocImage(id, size)]
    {
      id := nextId;
      nextId := nextId + 1;
      ops := ops + [AllocImage(id, size)];
    }

    /** The transfer buffer of `bytes` bytes: the shared one when it is big
        enough, else a new buffer. `own` says whether it must be released. */
    method Transfer(bytes: int) returns (buf: nat, own: bool)
      requires Valid()
      modifies this
      ensures Valid() && own == (bytes > preallocSize) && buf == TransferBuffer(old(nextId), own)
      ensures nextId == old(nextId) + (if own then 1 else 0)
      ensures ops == old(ops) + (if own then [AllocBuffer(buf, bytes)] else [])
      ensures own ==> buf != preallocation
    {
      own := bytes > preallocSize;
      if own {
        buf := nextId;
        nextId := nextId + 1;
        ops := ops + [AllocBuffer(buf, bytes)];
      } else {
        buf := preallocation;
      }
    }

    function TransferBuffer(id: nat, own: bool): nat
    {
      if own then id else preallocation
    }

    /** `clReleaseMemObject(temp_buf)` exactly when the buffer was allocated. */
    method EndTransfer(buf: nat, own: bool)
      modifies this
      ensures nextId == old(nextId) && ops == old(ops) + (if own then [Release(buf)] else [])
    {
      if own { ops := ops + [Release(buf)]; }
    }

    method Record(op: DeviceOp)
      modifies this
      ensures nextId == old(nextId) && ops == old(ops) + [op]
    {
      ops := ops + [op];
    }
  }

  /** The slots of the `normalise` kernel that uploads host bytes. */
  function NormaliseArgs(buf: nat, size: Int2, storage: nat, gamma: int): map<nat, Arg>
  {
    map[0 := BufferArg(Device(buf)), 1 := SizeArg(size), 2 := ImageArg(Device(storage)), 3 := IntArg(gamma)]
  }

  /** The slots of the `denormalise` kernel that fills a transfer buffer. */
  function DenormaliseArgs(storage: nat, buf: nat, size: Int2, gamma: int): map<nat, Arg>
  {
    map[0 := ImageArg(Device(storage)), 1 := SamplerArg(AddressNone, Nearest), 2 := BufferArg(Device(buf)),
        3 := SizeArg(size), 4 := IntArg(gamma)]
  }

  /** `3 * w * h` bytes, three channels of one byte per pixel. */
  function AllocSize(size: Int2): int { 3 * size.x * size.y }

  class ImObject {
    const env: Env
    const size: Int2
    const allocSize: int
    var storage: Option<nat>
    var hostPtr: Option<seq<Byte>>

    /** Storage is never null after construction and a host copy holds
        the whole image. */
    predicate Valid()
      reads this
    {
      && size.x >= 0 && size.y >= 0 && allocSize == AllocSize(size)
      && storage.Some?
      && (hostPtr.Some? ==> |hostPtr.value| == allocSize)
    }

    /** `im_object(size, env, storage)`: adopts the storage it is given, or
        allocates an image of the size. */
    constructor (size: Int2, env: Env, given: Option<nat>)
      requires size.x >= 0 && size.y >= 0 && env.Valid()
      modifies env
      ensures Valid() && env.Valid() && this.env == env && this.size == size && hostPtr == None
      ensures given.Some? ==> storage == given && env.ops == old(env.ops) && env.nextId == old(env.nextId)
      ensures given.None? ==> && storage == Some(old(env.nextId)) && env.nextId == old(env.nextId) + 1
                              && env.ops == old(env.ops) + [AllocImage(old(env.nextId), size)]
    {
      this.env := env;
      this.size := size;
      allocSize := AllocSize(size);
      hostPtr := None;
      if given.Some? {
        storage := given;
      } else {
        var id := env.AllocIm(size);
        storage := Some(id);
      }
    }

    /** `im_object(host_ptr, width, height, env, direct_gamma)`: keeps the
        host bytes, writes them to a transfer buffer, allocates the image
        and runs `normalise` from the buffer into it, blocking. */
    constructor FromHost(host: seq<Byte>, width: nat, height: nat, env: Env, directGamma: int)
      requires |host| == 3 * width * height && env.Valid()
      modifies env
      ensures Valid() && env.Valid() && this.env == env && size == Int2(width, height) && hostPtr == Some(host)
      ensures var own := allocSize > env.preallocSize;
              var buf := env.TransferBuffer(old(env.nextId), own);
              var id := old(env.nextId) + (if own then 1 else 0);
              && storage == Some(id) && env.nextId == id + 1
              && env.ops == old(env.ops) + (if own then [AllocBuffer(buf, allocSize)] else [])
                   + [WriteBuffer(buf, allocSize), AllocImage(id, size),
                      Enqueue(Dispatch("normalise", NormaliseArgs(buf, size, id, directGamma), size, false, true))]
                   + (if own then [Release(buf)] else [])
    {
      this.env := env;
      size := Int2(width, height);
      allocSize := 3 * width * height;
      hostPtr := Some(host);
      var sz := Int2(width, height);
      var buf, own := env.Transfer(3 * width * height);
      env.Record(WriteBuffer(buf, 3 * width * height));
      var id := env.AllocIm(sz);
      storage := Some(id);
      env.Record(Enqueue(Dispatch("normalise", NormaliseArgs(buf, sz, id, directGamma), sz, false, true)));
      env.EndTransfer(buf, own);
    }

    /** The move constructor: shares the storage, taking one more
        reference to it, and takes over the host bytes. */
    constructor Move(other: ImObject)
      requires other.Valid()
      modifies other, other.env
      ensures Valid() && env == other.env && size == other.size && storage == other.storage
      ensures hostPtr == old(other.hostPtr) && other.hostPtr == None && other.storage == old(other.storage)
      ensures env.nextId == old(other.env.nextId) && env.ops == old(other.env.ops) + [Retain(storage.value)]
    {
      env := other.env;
      size := other.size;
      allocSize := other.allocSize;
      storage := other.storage;
      hostPtr := other.hostPtr;
      new;
      env.Record(Retain(storage.value));
      other.hostPtr := None;
    }

    /** `get_host_ptr`: the first call runs `denormalise` into a transfer
        buffer and reads it back into a new host copy; every later call
        returns that copy without touching the device, whatever gamma it
        asks for. `device` is what the read returns. */
    method GetHostPtr(inverseGamma: int, device: seq<Byte>) returns (h: seq<Byte>)
      requires Valid() && env.Valid() && |device| == allocSize
      modifies this, env
      ensures Valid() && env.Valid() && storage == old(storage) && hostPtr == Some(h)
      ensures old(hostPtr).Some? ==> h == old(hostPtr).value && env.ops == old(env.ops) && env.nextId == old(env.nextId)
      ensures old(hostPtr).None? ==>
                var own := allocSize > env.preallocSize;
                var buf := env.TransferBuffer(old(env.nextId), own);
                && h == device
                && env.nextId == old(env.nextId) + (if own then 1 else 0)
                && env.ops == old(env.ops) + (if own then [AllocBuffer(buf, allocSize)] else [])
                     + [Enqueue(Dispatch("denormalise", DenormaliseArgs(storage.value, buf, size, inverseGamma), size, false, true)),
                        ReadBuffer(buf, 0, allocSize, true, false)]
                     + (if own then [Release(buf)] else [])
    {
      if hostPtr.None? {
        var buf, own := env.Transfer(allocSize);
        env.Record(Enqueue(Dispatch("denormalise", DenormaliseArgs(storage.value, buf, size, inverseGamma), size, false, true)));
        env.Record(ReadBuffer(buf, 0, allocSize, true, false));
        env.EndTransfer(buf, own);
        hostPtr := Some(device);
      }
      h := hostPtr.value;
    }

    /** `get_channels`: `denormalise` into a transfer buffer without
        waiting, then one read per channel plane, each waiting on the
        kernel. The loop stops at channel 2, so only planes 0 and 1 are
        read; `read` lists the planes that receive device data. */
    method GetChannels(inverseGamma: int) returns (read: seq<nat>)
      requires Valid() && env.Valid()
      modifies env
      ensures env.Valid() && read == [0, 1]
      ensures var own := allocSize > env.preallocSize;
              var buf := env.TransferBuffer(old(env.nextId), own);
              var plane := size.x * size.y;
              && env.nextId == old(env.nextId) + (if own then 1 else 0)
              && env.ops == old(env.ops) + (if own then [AllocBuffer(buf, allocSize)] else [])
                   + [Enqueue(Dispatch("denormalise", DenormaliseArgs(storage.value, buf, size, inverseGamma), size, false, false))]
                   + [ReadBuffer(buf, 0, plane, false, true), ReadBuffer(buf, plane, plane, false, true)]
                   + (if own then [Release(buf)] else [])
    {
      var buf, own := env.Transfer(allocSize);
      env.Record(Enqueue(Dispatch("denormalise", DenormaliseArgs(storage.value, buf, size, inverseGamma), size, false, false)));
      var plane := size.x * size.y;
      ghost var before := env.ops;
      read := [];
      var channel := 0;
      while channel < 2
        invariant 0 <= channel <= 2 && read == PlanesUpTo(channel)
        invariant env.nextId == old(env.nextId) + (if own then 1 else 0) && env.Valid()
        invariant env.ops == before + PlaneReads(buf, plane, channel)
      {
        env.Record(ReadBuffer(buf, plane * channel, plane, false, true));
        read := read + [channel];
        channel := channel + 1;
      }
      env.EndTransfer(buf, own);
    }

    /** `calc_histograms`: the host bytes (fetched if need be), then all
        four rows set to zero and every sample of every pixel counted in
        its colour row and in row 3. */
    method CalcHistograms(inverseGamma: int, device: seq<Byte>) returns (hist: seq<seq<int>>)
      requires Valid() && env.Valid() && |device| == allocSize
      modifies this, env
      ensures Valid() && env.Valid() && hostPtr.Some? && hostPtr == (if old(hostPtr).Some? then old(hostPtr) else Some(device))
      ensures hist == Histograms(hostPtr.value, size.x * size.y)
      ensures WellFormed(hist) && Total(hist, 3) == allocSize
      ensures forall k :: 0 <= k < 3 ==> Total(hist, k) == size.x * size.y
    {
      var src := GetHostPtr(inverseGamma, device);
      hist := CountSamples(src, size.x * size.y);
      HistogramsInvariant(src, size.x * size.y);
    }

    /** `~im_object`: releases the storage when there is one; the host copy
        is freed on the host. */
    method Destroy()
      modifies env
      ensures env.nextId == old(env.nextId)
      ensures env.ops == old(env.ops) + (if storage.Some? then [Release(storage.value)] else [])
    {
      if storage.Some? { env.Record(Release(storage.value)); }
    }
  }

  /** The loops of `calc_histograms`: all four rows set to zero, then
      every sample of the first `pixels` pixels counted in its colour row
      and in row 3. */
  method CountSamples(src: seq<Byte>, pixels: nat) returns (hist: seq<seq<int>>)
    requires 3 * pixels <= |src|
    ensures hist == Histograms(src, pixels)
  {
    hist := seq(Rows, _ => []);
    var channel := 0;
    while channel < 4
      invariant 0 <= channel <= 4 && |hist| == Rows
      invariant forall c :: 0 <= c < channel ==> hist[c] == seq(Bins, _ => 0)
    {
      hist := hist[channel := seq(Bins, _ => 0)];
      channel := channel + 1;
    }
    assert hist == ZeroTable();
    var pix := 0;
    ghost var p: nat := 0;
    while pix < 3 * pixels
      invariant pix == 3 * p && p <= pixels
      invariant hist == Histograms(src, p)
    {
      var col := 0;
      while col < 3
        invariant 0 <= col <= 3 && IsTable(hist)
        invariant hist == AddPixel(Histograms(src, p), src, pix, col)
      {
        var v := src[pix + col];
        hist := hist[col := hist[col][v := hist[col][v] + 1]];
        hist := hist[3 := hist[3][v := hist[3][v] + 1]];
        col := col + 1;
      }
      pix := pix + 3;
      p := p + 1;
    }
  }

  /** The planes `get_channels` has read after `n` rounds of its loop. */
  function PlanesUpTo(n: nat): seq<nat>
  {
    if n == 0 then [] else PlanesUpTo(n - 1) + [n - 1]
  }

  function PlaneReads(buf: nat, plane: int, n: nat): seq<DeviceOp>
  {
    if n == 0 then [] else PlaneReads(buf, plane, n - 1) + [ReadBuffer(buf, plane * (n - 1), plane, false, true)]
  }

  /** Asking twice for the host bytes, with different gammas, gives the
      same bytes, and only the first request reaches the device. */
  method HostBytesTwice(im: ImObject, g1: int, g2: int, device: seq<Byte>) returns (h1: seq<Byte>, h2: seq<Byte>)
    requires im.Valid() && im.env.Valid() && |device| == im.allocSize
    modifies im, im.env
    ensures h1 == h2 && (old(im.hostPtr).None? ==> h1 == device)
    ensures old(im.hostPtr).Some? ==> im.env.ops == old(im.env.ops)
    ensures old(im.hostPtr).None? ==> |im.env.ops| == |old(im.env.ops)| + (if im.allocSize > im.env.preallocSize then 4 else 2)
  {
    h1 := im.GetHostPtr(g1, device);
    ghost var mid := im.env.ops;
    h2 := im.GetHostPtr(g2, device);
    assert im.env.ops == mid;
  }
}
