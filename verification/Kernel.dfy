/** os.cpp as objects: the frame allocator, and the mapper that writes page tables in
    place, each proved to compute the function of module Frames that specifies it. */
module Kernel {
  import opened Types
  import opened Paging
  import opened Frames
  import opened Hardware

  class Allocator {
    var watermark: nat
    var limit: nat
    var freeList: seq<nat>

    ghost function Value(): FrameAllocator
      reads this
    {
      FrameAllocator(watermark, limit, freeList)
    }

    constructor (watermark: nat, limit: nat)
      ensures Value() == FrameAllocator(watermark, limit, [])
    {
      this.watermark, this.limit, freeList := watermark, limit, [];
    }

    /** alloc_frame; None is out of memory, and `ok` is false where the frame to clear lies
        outside memory. */
    method AllocFrame(mem: Memory) returns (ok: bool, frame: Option<nat>)
      modifies this, mem.data
      ensures var r := Frames.AllocFrame(old(mem.data[..]), old(Value()));
              && ok == r.Done?
              && (ok && r.value.None? ==> frame == None && Value() == old(Value()) && mem.data[..] == old(mem.data[..]))
              && (ok && r.value.Some? ==> frame.Some? && Allocated(mem.data[..], Value(), frame.value) == r.value.value)
    {
      var pa;
      if freeList != [] {
        pa := freeList[|freeList| - 1];
        freeList := freeList[..|freeList| - 1];
      } else {
        if watermark + PAGE_SIZE > limit {
          return true, None;
        }
        pa := watermark;
        watermark := watermark + PAGE_SIZE;
      }
      if pa + PAGE_SIZE > mem.data.Length {
        return false, None;
      }
      mem.Clear(pa);
      return true, Some(pa);
    }

    /** free_frame */
    method FreeFrame(pa: nat)
      modifies `freeList
      ensures Value() == Frames.FreeFrame(old(Value()), pa)
    {
      freeList := freeList + [pa];
    }
  }

  /** One process, the memory and the allocator as a value. */
  ghost function OsOf(proc: Process, fa: Allocator, mem: Memory): Os
    reads proc, fa, mem.data
  {
    Os([proc.pml4], mem.data[..], fa.Value())
  }

  /** map_page; `done` is its result. */
  method MapPage(proc: Process, fa: Allocator, mem: Memory, v: nat, pa: nat) returns (ok: bool, done: bool)
    modifies proc, fa, mem.data
    ensures var r := Frames.MapPage(old(OsOf(proc, fa, mem)), 0, v, pa);
            ok == r.Done? && (ok ==> (OsOf(proc, fa, mem), done) == r.value)
  {
    hide ReadPte, WritePte, Frames.AllocFrame;
    var i := Idx(v, 3);
    var frame;
    if !proc.pml4[i].present {
      ok, frame := fa.AllocFrame(mem);
      if !ok || frame.None? {
        return ok, false;
      }
      proc.pml4 := proc.pml4[i := Pte(frame.value, true)];
    }
    var table := proc.pml4[i].pa;
    var level := 2;
    ghost var whole := MapFrom(mem.data[..], fa.Value(), table, 2, v, pa);
    ghost var root := proc.pml4;
    assert [root] == old(OsOf(proc, fa, mem)).roots[0 := root];
    while level > 0
      invariant level <= 2 && proc.pml4 == root
      invariant MapFrom(mem.data[..], fa.Value(), table, level, v, pa) == whole
    {
      var a := Slot(table, v, level);
      if a + ENTRY_SIZE > mem.data.Length {
        return false, false;
      }
      var entry := ReadPte(mem.data[..], a);
      if !entry.present {
        ok, frame := fa.AllocFrame(mem);
        if !ok || frame.None? {
          return ok, false;
        }
        entry := Pte(frame.value, true);
        mem.WriteEntry(a, entry);
      }
      table := entry.pa;
      level := level - 1;
    }
    var a := Slot(table, v, 0);
    if a + ENTRY_SIZE > mem.data.Length {
      return false, false;
    }
    mem.WriteEntry(a, Pte(pa, true));
    return true, true;
  }

  /** alloc_and_map; None is out of memory. */
  method AllocAndMap(proc: Process, fa: Allocator, mem: Memory, v: nat) returns (ok: bool, frame: Option<nat>)
    modifies proc, fa, mem.data
    ensures var r := Frames.AllocAndMap(old(OsOf(proc, fa, mem)), 0, v);
            ok == r.Done? && (ok ==> (OsOf(proc, fa, mem), frame) == r.value)
  {
    hide Frames.AllocFrame, Frames.MapPage;
    ok, frame := fa.AllocFrame(mem);
    if !ok || frame.None? {
      return;
    }
    var done;
    ok, done := MapPage(proc, fa, mem, v, frame.value);
    if ok && !done {
      fa.FreeFrame(frame.value);
      frame := None;
    }
  }
}
