/**
 * GstMetaVideo (gst-libs/gst/video/gstmetavideo.c): the video metadata a
 * buffer carries, and how it finds the bytes of one plane among the buffer's
 * memory blocks.
 *
 * A buffer is its list of memory blocks and its list of metadata. Mapping a
 * block is the core library's business: each block here carries the address
 * gst_memory_map would hand out for it, and map and unmap report which block
 * they address and where, instead of calling into the core.
 */
module MetaVideo {
  import opened Wrappers
  import opened GstCore

  /** GST_VIDEO_MAX_PLANES */
  const MaxPlanes: nat := 4

  /** A guint holds the low 32 bits of what is stored into it. */
  function ToGuint(x: nat): (r: nat)
    ensures r < 0x1_0000_0000 && (x < 0x1_0000_0000 ==> r == x)
  {
    x % 0x1_0000_0000
  }

  /** A memory block of a buffer: its size, and the address mapping it
      yields. */
  datatype Memory = Memory(size: nat, base: int)

  function Sizes(mems: seq<Memory>): (s: seq<nat>)
    ensures |s| == |mems| && forall i :: 0 <= i < |mems| ==> s[i] == mems[i].size
  {
    seq(|mems|, i requires 0 <= i < |mems| => mems[i].size)
  }

  // ---------------------------------------------------------------------
  // Finding the block that holds an offset

  /** The bytes of all the blocks together. */
  function Total(sizes: seq<nat>): nat
  {
    if sizes == [] then 0 else sizes[0] + Total(sizes[1..])
  }

  lemma {:induction false} TotalAppend(a: seq<nat>, b: seq<nat>)
    ensures Total(a + b) == Total(a) + Total(b)
    decreases |a|
  {
    if a == [] {
      assert a + b == b;
    } else {
      assert (a + b)[1..] == a[1..] + b;
      TotalAppend(a[1..], b);
    }
  }

  /** One block more is its size more. */
  lemma TotalPrefix(sizes: seq<nat>, i: nat)
    requires i < |sizes|
    ensures Total(sizes[..i + 1]) == Total(sizes[..i]) + sizes[i]
  {
    assert sizes[..i + 1] == sizes[..i] + [sizes[i]];
    TotalAppend(sizes[..i], [sizes[i]]);
  }

  /** The block holding byte `offset` of the concatenated blocks, with the
      offset inside that block; None past the end. */
  function Locate(sizes: seq<nat>, offset: nat): (r: Option<(nat, nat)>)
    ensures r.Some? ==>
      && r.value.0 < |sizes|
      && Total(sizes[..r.value.0]) <= offset
      && r.value.1 == offset - Total(sizes[..r.value.0])
      && r.value.1 < sizes[r.value.0]
    ensures r.None? <==> Total(sizes) <= offset
    decreases |sizes|
  {
    if sizes == [] then None
    else if offset < sizes[0] then
      assert sizes[..0] == [];
      Some((0, offset))
    else
      match Locate(sizes[1..], offset - sizes[0])
      case Some((i, rest)) =>
        assert sizes[..i + 1] == [sizes[0]] + sizes[1..][..i];
        Some((i + 1, rest))
      case None => None
  }

  /** Only one block holds a given offset, so Locate finds it wherever it
      is. */
  lemma {:induction false} LocateUnique(sizes: seq<nat>, offset: nat, i: nat)
    requires i < |sizes| && Total(sizes[..i]) <= offset < Total(sizes[..i]) + sizes[i]
    ensures Locate(sizes, offset) == Some((i, offset - Total(sizes[..i])))
    decreases i
  {
    if i == 0 {
      assert sizes[..0] == [];
    } else {
      assert sizes[..i] == [sizes[0]] + sizes[1..][..i - 1];
      LocateUnique(sizes[1..], offset - sizes[0], i - 1);
    }
  }

  /** What the lookup loop leaves: the block found, or none, and the offset
      decremented by the sizes of the blocks passed. */
  predicate Located(sizes: seq<nat>, offset: nat, res: Option<nat>, rest: nat)
  {
    && (res.Some? ==> Locate(sizes, offset) == Some((res.value, rest)))
    && (res.None? ==> Locate(sizes, offset) == None && rest == offset - Total(sizes))
  }

  // ---------------------------------------------------------------------
  // Buffers and their metadata

  /** The GstBuffer fields that video metadata uses. */
  class Buffer {
    var memories: seq<Memory>
    var writable: bool
    var metas: seq<MetaItem>

    constructor (memories: seq<Memory>, writable: bool)
      ensures this.memories == memories && this.writable == writable && metas == []
    {
      this.memories := memories;
      this.writable := writable;
      metas := [];
    }
  }

  /** An entry of a buffer's metadata list. */
  datatype MetaItem = VideoItem(meta: VideoMeta) | OtherItem(api: string)

  /** A video meta carrying `id`. */
  predicate HasId(item: MetaItem, id: int)
    reads if item.VideoItem? then {item.meta} else {}
  {
    item.VideoItem? && item.meta.id == id
  }

  /** find_mem_for_offset: walk the blocks, taking each size off the offset
      until it falls inside a block. */
  method FindMemForOffset(buffer: Buffer, offset: nat) returns (res: Option<nat>, rest: nat)
    ensures Located(Sizes(buffer.memories), offset, res, rest)
  {
    var sizes := Sizes(buffer.memories);
    var n := |buffer.memories|;
    rest := offset;
    res := None;
    var i := 0;
    while i < n
      invariant 0 <= i <= n
      invariant Total(sizes[..i]) <= offset && rest == offset - Total(sizes[..i])
    {
      var size := buffer.memories[i].size;
      if rest < size {
        LocateUnique(sizes, offset, i);
        res := Some(i);
        return;
      }
      TotalPrefix(sizes, i);
      rest := rest - size;
      i := i + 1;
    }
    assert sizes[..n] == sizes;
  }

  /** Where a plane at `offset` lies: the address of its block plus the
      offset inside the block, or, past the last block, the offset left
      over. */
  datatype PlaneMap = Mapped(data: int, stride: int) | NoBlock(leftover: nat, stride: int) | Refused

  /** What unmap hands back to the core: the block and the address its
      mapping started at. */
  datatype PlaneUnmap = Unmapped(block: nat, data: int) | NoBlockUnmap(data: int) | UnmapRefused

  /** The plane at `offset` of the blocks, as map finds it. */
  function MapPlane(mems: seq<Memory>, offset: nat, stride: int): (r: PlaneMap)
    ensures !r.Refused? && r.stride == stride
    ensures r.Mapped? <==> offset < Total(Sizes(mems))
    ensures r.NoBlock? ==> r.leftover == offset - Total(Sizes(mems))
  {
    match Locate(Sizes(mems), offset)
    case Some((i, rest)) => Mapped(mems[i].base + rest, stride)
    case None => NoBlock(offset - Total(Sizes(mems)), stride)
  }

  /** The call unmap makes for a plane at `offset` mapped at `data`. */
  function UnmapPlane(mems: seq<Memory>, offset: nat, data: int): (r: PlaneUnmap)
    ensures !r.UnmapRefused?
    ensures r.Unmapped? <==> offset < Total(Sizes(mems))
    ensures r.Unmapped? ==> r.block < |mems|
  {
    match Locate(Sizes(mems), offset)
    case Some((i, rest)) => Unmapped(i, data - rest)
    case None => NoBlockUnmap(data - (offset - Total(Sizes(mems))))
  }

  /** A plane inside the buffer is found in the block that holds its first
      byte, and unmapping the address map gave hands that block back the
      address its mapping starts at. */
  lemma MapUnmapRoundTrip(mems: seq<Memory>, offset: nat, stride: int, i: nat)
    requires i < |mems| && Total(Sizes(mems)[..i]) <= offset < Total(Sizes(mems)[..i]) + mems[i].size
    ensures MapPlane(mems, offset, stride) == Mapped(mems[i].base + offset - Total(Sizes(mems)[..i]), stride)
    ensures UnmapPlane(mems, offset, MapPlane(mems, offset, stride).data) == Unmapped(i, mems[i].base)
  {
    LocateUnique(Sizes(mems), offset, i);
  }

  class VideoMeta {
    var buffer: Buffer?
    var flags: nat
    var format: nat
    var id: int
    var width: nat
    var height: nat
    var nPlanes: nat
    var offset: array<nat>
    var stride: array<int>

    /** The per-plane arrays have GST_VIDEO_MAX_PLANES entries and room for
        every plane. */
    predicate Valid()
      reads this
    {
      offset.Length == MaxPlanes && stride.Length == MaxPlanes && nPlanes <= MaxPlanes
    }

    /** A meta describing `nPlanes` planes of a `width` by `height` frame
        of `buffer`, with id 0 and the first `nPlanes` offsets and strides
        copied. */
    constructor New(buffer: Buffer, flags: nat, format: nat, width: nat, height: nat,
                    nPlanes: nat, offset: array<nat>, stride: array<int>)
      requires nPlanes <= MaxPlanes && offset.Length == MaxPlanes && stride.Length == MaxPlanes
      ensures Valid() && fresh(this.offset) && fresh(this.stride)
      ensures this.buffer == buffer && this.flags == flags && this.format == format && id == 0
      ensures this.width == width && this.height == height && this.nPlanes == nPlanes
      ensures this.offset[..nPlanes] == offset[..nPlanes] && this.stride[..nPlanes] == stride[..nPlanes]
    {
      var planeOffset := CopyPlanes(offset, nPlanes, 0);
      var planeStride := CopyPlanes(stride, nPlanes, 0);
      this.buffer := buffer;
      this.flags := flags;
      this.format := format;
      id := 0;
      this.width := width;
      this.height := height;
      this.nPlanes := nPlanes;
      this.offset := planeOffset;
      this.stride := planeStride;
    }

    /** gst_meta_video_map: refuse a plane that does not exist, a missing
        buffer, or a write to a buffer that is not writable; otherwise give
        the plane's stride and its address inside the block holding it. The
        plane offset passes through a guint on the way. */
    method Map(plane: nat, mapFlags: set<MapFlag>) returns (r: PlaneMap)
      requires Valid()
      ensures r.Refused? <==> plane >= nPlanes || buffer == null || (MapWrite in mapFlags && !buffer.writable)
      ensures !r.Refused? ==> r == MapPlane(buffer.memories, ToGuint(offset[plane]), stride[plane])
    {
      if plane >= nPlanes || buffer == null {
        return Refused;
      }
      var write := MapWrite in mapFlags;
      if write && !buffer.writable {
        return Refused;
      }
      var off := ToGuint(offset[plane]);
      var planeStride := stride[plane];
      var block, rest := FindMemForOffset(buffer, off);
      if block.Some? {
        r := Mapped(buffer.memories[block.value].base + rest, planeStride);
      } else {
        r := NoBlock(rest, planeStride);
      }
    }

    /** gst_meta_video_unmap: find the block of the plane again and give it
        back the address its mapping started at. */
    method Unmap(plane: nat, data: int) returns (r: PlaneUnmap)
      requires Valid()
      ensures r.UnmapRefused? <==> plane >= nPlanes || buffer == null
      ensures !r.UnmapRefused? ==> r == UnmapPlane(buffer.memories, ToGuint(offset[plane]), data)
    {
      if plane >= nPlanes || buffer == null {
        return UnmapRefused;
      }
      var off := ToGuint(offset[plane]);
      var block, rest := FindMemForOffset(buffer, off);
      if block.Some? {
        r := Unmapped(block.value, data - rest);
      } else {
        r := NoBlockUnmap(data - rest);
      }
    }
  }

  /** The copy loop of gst_buffer_add_meta_video_full: a fresh per-plane
      array whose first `n` entries are those of `src`. */
  method CopyPlanes<T>(src: array<T>, n: nat, zero: T) returns (dst: array<T>)
    requires n <= MaxPlanes && src.Length == MaxPlanes
    ensures fresh(dst) && dst.Length == MaxPlanes && dst[..n] == src[..n]
  {
    dst := new T[MaxPlanes](_ => zero);
    var i := 0;
    while i < n
      invariant 0 <= i <= n
      invariant dst[..i] == src[..i]
      modifies dst
    {
      dst[i] := src[i];
      i := i + 1;
    }
  }

  /** gst_buffer_add_meta_video_full: a new meta, put at the head of the
      buffer's metadata list. */
  method AddMetaVideoFull(buffer: Buffer, flags: nat, format: nat, width: nat, height: nat,
                          nPlanes: nat, offset: array<nat>, stride: array<int>) returns (meta: VideoMeta)
    requires nPlanes <= MaxPlanes && offset.Length == MaxPlanes && stride.Length == MaxPlanes
    modifies buffer`metas
    ensures fresh(meta) && meta.Valid()
    ensures buffer.metas == [VideoItem(meta)] + old(buffer.metas)
    ensures meta.buffer == buffer && meta.flags == flags && meta.format == format && meta.id == 0
    ensures meta.width == width && meta.height == height && meta.nPlanes == nPlanes
    ensures meta.offset[..nPlanes] == offset[..nPlanes] && meta.stride[..nPlanes] == stride[..nPlanes]
  {
    meta := new VideoMeta.New(buffer, flags, format, width, height, nPlanes, offset, stride);
    buffer.metas := [VideoItem(meta)] + buffer.metas;
  }

  /** gst_buffer_get_meta_video_id: the first video meta, in list order,
      whose id is `id`, or null when there is none. */
  method GetMetaVideoId(buffer: Buffer, id: int) returns (r: VideoMeta?)
    ensures r != null ==>
      exists k :: 0 <= k < |buffer.metas| && buffer.metas[k] == VideoItem(r) && r.id == id
                  && forall j :: 0 <= j < k ==> !HasId(buffer.metas[j], id)
    ensures r == null ==> forall j :: 0 <= j < |buffer.metas| ==> !HasId(buffer.metas[j], id)
  {
    var i := 0;
    while i < |buffer.metas|
      invariant 0 <= i <= |buffer.metas|
      invariant forall j :: 0 <= j < i ==> !HasId(buffer.metas[j], id)
    {
      var item := buffer.metas[i];
      if item.VideoItem? && item.meta.id == id {
        return item.meta;
      }
      i := i + 1;
    }
    return null;
  }
}
