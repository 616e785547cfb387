/**
 * Memory backed by a file descriptor (gst-libs/gst/allocators/gstfdmemory.c):
 * a GstMemory that is mmapped on demand, shares one mapping between all
 * readers through a map count, and hands out read-only sub-memories that
 * delegate their mapping to the root memory.
 *
 * The system calls are not modelled: `mmap` is an argument that either
 * yields an address or fails, and what `munmap` and `close` would be asked
 * to do is returned by Free. The mutex only serialises map and unmap.
 */
module FdMemory {
  import opened Wrappers
  import opened GstCore

  /** GstFdMemoryFlags */
  datatype FdFlag = KeepMapped | MapPrivate

  /** The mmap protection bits. */
  datatype Prot = ProtRead | ProtWrite

  /** GstMiniObject flags of a memory; only LOCK_READONLY is set here. */
  datatype ObjectFlag = LockReadonly | OtherFlag(bit: nat)

  /** An address mmap returned. */
  datatype Address = Address(value: nat)

  /** PROT_READ and PROT_WRITE of <sys/mman.h>. */
  function ProtBit(p: Prot): bv8
  {
    match p
    case ProtRead => 1
    case ProtWrite => 2
  }

  /** A protection set as the gint map keeps it. */
  function ProtBits(s: set<Prot>): bv8
  {
    (if ProtRead in s then ProtBit(ProtRead) else 0) | (if ProtWrite in s then ProtBit(ProtWrite) else 0)
  }

  /** The protection a map request asks for: READ gives PROT_READ, WRITE
      gives PROT_WRITE. */
  function ProtOf(flags: set<MapFlag>): (p: set<Prot>)
    ensures ProtRead in p <==> MapRead in flags
    ensures ProtWrite in p <==> MapWrite in flags
  {
    (if MapRead in flags then {ProtRead} else {}) + (if MapWrite in flags then {ProtWrite} else {})
  }

  /** The bit test `(mmapping_flags & prot) == prot` is the subset test. */
  lemma SubsetTest(mapped: set<Prot>, prot: set<Prot>)
    ensures (ProtBits(mapped) & ProtBits(prot) == ProtBits(prot)) <==> prot <= mapped
  {
    if prot <= mapped {
    } else {
      var p :| p in prot && p !in mapped;
      assert p == ProtRead || p == ProtWrite;
    }
  }

  // ---------------------------------------------------------------------
  // The mapping state of a root memory

  /** `data`, `mmapping_flags` and `mmap_count` of a memory. */
  datatype Mapping = Mapping(data: Option<Address>, prot: set<Prot>, count: int)

  const Unmapped: Mapping := Mapping(None, {}, 0)

  /** Mapped exactly while some map is outstanding; an unmapped memory keeps
      no protection. */
  predicate Consistent(m: Mapping)
  {
    && (m.data.None? ==> m == Unmapped)
    && (m.data.Some? ==> m.count >= 1)
  }

  /** gst_fd_mem_map on a root memory: an existing mapping is shared when it
      grants every protection asked for; otherwise an fd of -1 or a failing
      mmap gives NULL; a fresh mapping records its protection. */
  function MapRoot(m: Mapping, fd: int, prot: set<Prot>, mmap: Option<Address>): (r: (Mapping, Option<Address>))
    ensures Consistent(m) ==> Consistent(r.0)
    ensures r.1.Some? ==> r.0.data == r.1 && prot <= r.0.prot && r.0.count == m.count + 1
    ensures r.1.None? ==> r.0 == m
  {
    if m.data.Some? then
      if prot <= m.prot then (m.(count := m.count + 1), m.data) else (m, None)
    else if fd == -1 || mmap.None? then (m, None)
    else (Mapping(mmap, prot, m.count + 1), mmap)
  }

  /** gst_fd_mem_unmap on a root memory: nothing under KEEP_MAPPED; otherwise
      one map fewer, and the last one releases the mapping. */
  function UnmapRoot(m: Mapping, keepMapped: bool): (r: Mapping)
    ensures Consistent(m) ==> Consistent(r)
    ensures r.data.Some? ==> r.data == m.data && r.prot == m.prot
    ensures !keepMapped && m.data.Some? ==> r.count == m.count - 1
  {
    if keepMapped || m.data.None? then m
    else if m.count - 1 == 0 then Unmapped
    else m.(count := m.count - 1)
  }

  /** An existing mapping is shared exactly when it grants the requested
      protection; a fresh one needs an fd and a successful mmap. */
  lemma MapSucceeds(m: Mapping, fd: int, prot: set<Prot>, mmap: Option<Address>)
    ensures m.data.Some? ==> (MapRoot(m, fd, prot, mmap).1.Some? <==> prot <= m.prot)
    ensures m.data.None? ==> (MapRoot(m, fd, prot, mmap).1.Some? <==> fd != -1 && mmap.Some?)
  {
  }

  /** A successful map followed by an unmap leaves the state it started from. */
  lemma MapUnmapRoundTrip(m: Mapping, fd: int, prot: set<Prot>, mmap: Option<Address>)
    requires Consistent(m)
    requires MapRoot(m, fd, prot, mmap).1.Some?
    ensures UnmapRoot(MapRoot(m, fd, prot, mmap).0, false) == m
  {
  }

  /** Under KEEP_MAPPED a mapping, once made, is never released. */
  lemma KeepMappedStays(m: Mapping)
    ensures UnmapRoot(m, true) == m
  {
  }

  // ---------------------------------------------------------------------
  // share: the size of the shared region

  /** The size gst_fd_mem_share gives a share, as written: -1 means up to
      `maxsize`, ignoring the region the memory covers. */
  function SharedSizeAsWritten(maxsize: int, offset: int, size: int): int
  {
    if size == -1 then maxsize - offset else size
  }

  /** The size meant: -1 means the rest of the memory's own region. */
  function SharedSize(memSize: int, offset: int, size: int): int
  {
    if size == -1 then memSize - offset else size
  }

  /** A share of a share, at offset 0 with size -1, reaches 10 bytes past the
      end of the 100-byte mapping. */
  lemma ShareOverrun()
    ensures var (memOffset, memSize, maxsize) := (10, 50, 100);
            && memOffset + memSize <= maxsize
            && memOffset + 0 + SharedSizeAsWritten(maxsize, 0, -1) == maxsize + 10
  {
  }

  /** The corrected share stays inside the memory it shares from whenever the
      requested region lies inside it. */
  lemma SharedRegionInBounds(memOffset: int, memSize: int, maxsize: int, offset: int, size: int)
    requires 0 <= memOffset && 0 <= memSize && memOffset + memSize <= maxsize
    requires 0 <= offset <= memSize && (size == -1 || (0 <= size && offset + size <= memSize))
    ensures 0 <= SharedSize(memSize, offset, size)
    ensures memOffset + offset + SharedSize(memSize, offset, size) <= memOffset + memSize
  {
  }

  /** The two rules differ exactly on a size of -1 for a memory smaller than
      its mapping. */
  lemma SharedSizeAgrees(memSize: int, maxsize: int, offset: int, size: int)
    ensures SharedSizeAsWritten(maxsize, offset, size) == SharedSize(memSize, offset, size)
            <==> size != -1 || memSize == maxsize
  {
  }

  /** What gst_fd_mem_free asks of the system. */
  datatype FreeActions = FreeActions(warnStillMapped: bool, munmap: bool, close: Option<int>)

  // ---------------------------------------------------------------------
  // GstFdMemory

  class FdMemory {
    /** The root memory a share maps through; null for a root. */
    var parent: FdMemory?
    var objectFlags: set<ObjectFlag>
    var maxsize: int
    var align: int
    var offset: int
    var size: int
    var flags: set<FdFlag>
    var fd: int
    var data: Option<Address>
    var mmappingFlags: set<Prot>
    var mmapCount: int

    function MappingState(): Mapping
      reads this
    {
      Mapping(data, mmappingFlags, mmapCount)
    }

    /** The memory that owns the mapping. */
    function Root(): FdMemory
      reads this
    {
      if parent == null then this else parent
    }

    /** A share hangs directly off a root, and both mapping states are
        consistent. */
    predicate Valid()
      reads this, parent
    {
      && Consistent(MappingState())
      && (parent != null ==> parent.parent == null && Consistent(parent.MappingState()))
    }

    /** The region lies inside the mapping. */
    predicate InBounds()
      reads this
    {
      0 <= offset && 0 <= size && offset + size <= maxsize
    }

    /** __gst_fd_memory_new: a root over `size` bytes of `fd`, not mapped. */
    constructor New(fd: int, size: int, flags: set<FdFlag>)
      ensures Valid() && parent == null && objectFlags == {}
      ensures maxsize == size && align == 0 && offset == 0 && this.size == size
      ensures this.flags == flags && this.fd == fd && MappingState() == Unmapped
    {
      parent := null;
      objectFlags := {};
      maxsize := size;
      align := 0;
      offset := 0;
      this.size := size;
      this.flags := flags;
      this.fd := fd;
      data := None;
      mmappingFlags := {};
      mmapCount := 0;
    }

    /** The zero-filled memory gst_fd_mem_share initialises. */
    constructor ShareOf(parent: FdMemory, objectFlags: set<ObjectFlag>, maxsize: int, align: int,
                        offset: int, size: int, fd: int)
      requires parent.parent == null && Consistent(parent.MappingState())
      ensures Valid() && this.parent == parent && this.objectFlags == objectFlags
      ensures this.maxsize == maxsize && this.align == align && this.offset == offset && this.size == size
      ensures flags == {} && this.fd == fd && MappingState() == Unmapped
    {
      this.parent := parent;
      this.objectFlags := objectFlags;
      this.maxsize := maxsize;
      this.align := align;
      this.offset := offset;
      this.size := size;
      flags := {};
      this.fd := fd;
      data := None;
      mmappingFlags := {};
      mmapCount := 0;
    }

    /** gst_fd_mem_map: a share maps through its root. */
    method Map(mapFlags: set<MapFlag>, mmap: Option<Address>) returns (r: Option<Address>)
      requires Valid()
      modifies Root()`data, Root()`mmappingFlags, Root()`mmapCount
      ensures Valid()
      ensures (Root().MappingState(), r)
              == MapRoot(old(Root().MappingState()), Root().fd, ProtOf(mapFlags), mmap)
    {
      if parent != null {
        r := parent.MapOwn(mapFlags, mmap);
      } else {
        r := MapOwn(mapFlags, mmap);
      }
    }

    /** gst_fd_mem_map on the memory that owns the mapping. */
    method MapOwn(mapFlags: set<MapFlag>, mmap: Option<Address>) returns (r: Option<Address>)
      requires parent == null && Consistent(MappingState())
      modifies this`data, this`mmappingFlags, this`mmapCount
      ensures Consistent(MappingState())
      ensures (MappingState(), r) == MapRoot(old(MappingState()), fd, ProtOf(mapFlags), mmap)
    {
      var prot := ProtOf(mapFlags);
      if data.Some? {
        var covered := ProtBits(mmappingFlags) & ProtBits(prot) == ProtBits(prot);
        SubsetTest(mmappingFlags, prot);
        assert covered <==> prot <= mmappingFlags;
        if covered {
          r := data;
          mmapCount := mmapCount + 1;
        } else {
          r := None;
        }
        return;
      }
      if fd != -1 {
        data := mmap;
        if data.None? {
          return None;
        }
      }
      if data.Some? {
        mmappingFlags := prot;
        mmapCount := mmapCount + 1;
      }
      r := data;
    }

    /** gst_fd_mem_unmap: a share unmaps through its root. */
    method Unmap()
      requires Valid()
      modifies Root()`data, Root()`mmappingFlags, Root()`mmapCount
      ensures Valid()
      ensures Root().MappingState() == UnmapRoot(old(Root().MappingState()), KeepMapped in Root().flags)
      decreases if parent == null then 0 else 1
    {
      if parent != null {
        parent.Unmap();
        return;
      }
      if KeepMapped in flags {
        return;
      }
      if data.Some? {
        mmapCount := mmapCount - 1;
        if mmapCount == 0 {
          data := None;
          mmappingFlags := {};
        }
      }
    }

    /** The body of gst_fd_mem_share once the size is known: a read-only
        memory of the same fd under the root, `offset` further in. */
    method ShareRegion(offset: int, size: int) returns (sub: FdMemory)
      requires Valid()
      ensures fresh(sub) && sub.Valid()
      ensures sub.parent == Root() && sub.fd == fd && sub.MappingState() == Unmapped
      ensures sub.objectFlags == Root().objectFlags + {LockReadonly}
      ensures sub.maxsize == maxsize && sub.align == align
      ensures sub.offset == this.offset + offset && sub.size == size
    {
      var root := if parent == null then this else parent;
      sub := new FdMemory.ShareOf(root, root.objectFlags + {LockReadonly}, maxsize, align,
                                  this.offset + offset, size, fd);
    }

    /** gst_fd_mem_share as written: size -1 runs to `maxsize`. */
    method ShareAsWritten(offset: int, size: int) returns (sub: FdMemory)
      requires Valid()
      ensures fresh(sub) && sub.Valid()
      ensures sub.parent == Root() && sub.fd == fd && sub.MappingState() == Unmapped
      ensures sub.objectFlags == Root().objectFlags + {LockReadonly}
      ensures sub.maxsize == maxsize && sub.align == align
      ensures sub.offset == this.offset + offset && sub.size == SharedSizeAsWritten(maxsize, offset, size)
      ensures size == -1 ==> sub.offset + sub.size == this.offset + sub.maxsize
      ensures size == -1 && this.offset > 0 ==> sub.offset + sub.size > sub.maxsize
    {
      sub := ShareRegion(offset, SharedSizeAsWritten(maxsize, offset, size));
    }

    /** gst_fd_mem_share with size -1 meaning the rest of this memory: a
        share of a region inside this memory stays inside it. */
    method Share(offset: int, size: int) returns (sub: FdMemory)
      requires Valid()
      ensures fresh(sub) && sub.Valid()
      ensures sub.parent == Root() && sub.fd == fd && sub.MappingState() == Unmapped
      ensures sub.objectFlags == Root().objectFlags + {LockReadonly}
      ensures sub.maxsize == maxsize && sub.align == align
      ensures sub.offset == this.offset + offset && sub.size == SharedSize(this.size, offset, size)
      ensures InBounds() && 0 <= offset <= this.size && (size == -1 || (0 <= size && offset + size <= this.size))
              ==> sub.InBounds() && sub.offset + sub.size <= this.offset + this.size
    {
      sub := ShareRegion(offset, SharedSize(this.size, offset, size));
      if InBounds() && 0 <= offset <= this.size && (size == -1 || (0 <= size && offset + size <= this.size)) {
        SharedRegionInBounds(this.offset, this.size, maxsize, offset, size);
      }
    }

    /** gst_fd_mem_free: a memory still mapped is unmapped (with a warning
        unless KEEP_MAPPED), and only a root with a real fd closes it. */
    method Free() returns (a: FreeActions)
      ensures a.munmap <==> data.Some?
      ensures a.warnStillMapped <==> data.Some? && KeepMapped !in flags
      ensures a.close.Some? <==> parent == null && fd >= 0
      ensures a.close.Some? ==> a.close.value == fd
    {
      var warn := false;
      var unmapped := false;
      if data.Some? {
        if KeepMapped !in flags {
          warn := true;
        }
        unmapped := true;
      }
      var closed := None;
      if fd >= 0 && parent == null {
        closed := Some(fd);
      }
      return FreeActions(warn, unmapped, closed);
    }
  }
}
