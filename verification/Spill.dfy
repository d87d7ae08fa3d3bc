/** Pages with a table index of 256 or more, whose entries lie in the frame after the table's. */
module Spill {
  import opened Types
  import opened Paging
  import opened Frames
  import opened Mapping

  // ---------------------------------------------------------------------------
  // What a later allocation does
  // ---------------------------------------------------------------------------

  /** Whether alloc_frame may wipe out a present leaf entry by clearing some other frame:
      never for an index below 256, and for any other index by clearing the next frame. */
  lemma SafeFromClearing(mem: seq<byte>, t: nat, v: nat)
    requires t % PAGE_SIZE == 0 && TableFits(mem, t) && ReadPte(mem, Slot(t, v, 0)).present
    ensures (forall f: nat :: f % PAGE_SIZE == 0 && f != t && f + PAGE_SIZE <= |mem| ==>
               WalkFrom(ZeroFrame(mem, f), t, 0, v) == WalkFrom(mem, t, 0, v))
            <==> Idx(v, 0) < ENTRIES_IN_FRAME
  {
    hide ReadPte, ZeroFrame, Idx;
    if Idx(v, 0) < ENTRIES_IN_FRAME {
      forall f: nat | f % PAGE_SIZE == 0 && f != t && f + PAGE_SIZE <= |mem|
        ensures WalkFrom(ZeroFrame(mem, f), t, 0, v) == WalkFrom(mem, t, 0, v)
      {
        Apart(t, f);
        ReadZeroed(mem, f, Slot(t, v, 0));
      }
    } else {
      ReadZeroed(mem, t + PAGE_SIZE, Slot(t, v, 0));
      assert WalkFrom(ZeroFrame(mem, t + PAGE_SIZE), t, 0, v) != WalkFrom(mem, t, 0, v);
    }
  }

  /** From a new process: page 256 is mapped and walks to its frame, and the next frame
      handed out takes the mapping with it. */
  lemma SpilledMappingIsLost(mem: seq<byte>, base: nat)
    requires base % PAGE_SIZE == 0 && base + 5 * PAGE_SIZE <= |mem| < WORD_LIMIT
    ensures var r := AllocAndMap(InitOs(1, mem, base, |mem|), 0, 256);
            && r.Done? && r.value.1 == Some(base)
            && var os := r.value.0;
               && WalkOf(os, 0, 256) == Some(base)
               && var next := AllocFrame(os.mem, os.fa);
                  && next.Done? && next.value.Some?
                  && Walk(os.roots[0], next.value.value.mem, 256) == None
  {
    hide ReadPte, WritePte, ZeroFrame, MapFrom, MapPage, AllocAndMap;
    assert Idx(256, 3) == 0 && Idx(256, 2) == 0 && Idx(256, 1) == 0 && Idx(256, 0) == 256;
    var t2, t1, t0 := base + PAGE_SIZE, base + 2 * PAGE_SIZE, base + 3 * PAGE_SIZE;
    var spill := t0 + PAGE_SIZE;
    var m0 := ZeroFrame(ZeroFrame(mem, base), t2);
    ReadZeroed(ZeroFrame(mem, base), t2, t2);
    var m1 := WritePte(ZeroFrame(m0, t1), t2, Pte(t1, true));
    ReadZeroed(m0, t1, t2);
    ReadZeroed(m0, t1, t1);
    ReadWritten(ZeroFrame(m0, t1), t2, Pte(t1, true));
    ReadOther(ZeroFrame(m0, t1), t2, Pte(t1, true), t1);
    var m2 := WritePte(ZeroFrame(m1, t0), t1, Pte(t0, true));
    ReadZeroed(m1, t0, t2);
    ReadOther(ZeroFrame(m1, t0), t1, Pte(t0, true), t2);
    ReadWritten(ZeroFrame(m1, t0), t1, Pte(t0, true));
    var m3 := WritePte(m2, spill, Pte(base, true));
    ReadOther(m2, spill, Pte(base, true), t2);
    ReadOther(m2, spill, Pte(base, true), t1);
    ReadWritten(m2, spill, Pte(base, true));
    ReadZeroed(m3, spill, t2);
    ReadZeroed(m3, spill, t1);
    ReadZeroed(m3, spill, spill);
    SpilledSteps(mem, base, m0, m1, m2, m3);
  }

  lemma SpilledSteps(mem: seq<byte>, base: nat, m0: seq<byte>, m1: seq<byte>, m2: seq<byte>, m3: seq<byte>)
    requires base % PAGE_SIZE == 0 && base + 5 * PAGE_SIZE <= |mem| < WORD_LIMIT
    requires m0 == ZeroFrame(ZeroFrame(mem, base), base + PAGE_SIZE)
    requires !ReadPte(m0, base + PAGE_SIZE).present
    requires m1 == WritePte(ZeroFrame(m0, base + 2 * PAGE_SIZE), base + PAGE_SIZE, Pte(base + 2 * PAGE_SIZE, true))
    requires !ReadPte(m1, base + 2 * PAGE_SIZE).present
    requires m2 == WritePte(ZeroFrame(m1, base + 3 * PAGE_SIZE), base + 2 * PAGE_SIZE, Pte(base + 3 * PAGE_SIZE, true))
    requires m3 == WritePte(m2, base + 4 * PAGE_SIZE, Pte(base, true))
    ensures AllocAndMap(InitOs(1, mem, base, |mem|), 0, 256)
         == (var roots := InitOs(1, mem, base, |mem|).roots;
             var os := Os(roots[0 := roots[0][0 := Pte(base + PAGE_SIZE, true)]], m3,
                          FrameAllocator(base + 4 * PAGE_SIZE, |mem|, []));
             Done((os, Some(base))))
  {
    hide ReadPte, WritePte, ZeroFrame;
    assert Idx(256, 3) == 0 && Idx(256, 2) == 0 && Idx(256, 1) == 0 && Idx(256, 0) == 256;
    var fa := FrameAllocator(base + 2 * PAGE_SIZE, |mem|, []);
    assert MapFrom(m2, FrameAllocator(base + 4 * PAGE_SIZE, |mem|, []), base + 3 * PAGE_SIZE, 0, 256, base)
        == Done(Mapped(m3, FrameAllocator(base + 4 * PAGE_SIZE, |mem|, []), true));
    assert MapFrom(m1, FrameAllocator(base + 3 * PAGE_SIZE, |mem|, []), base + 2 * PAGE_SIZE, 1, 256, base)
        == Done(Mapped(m3, FrameAllocator(base + 4 * PAGE_SIZE, |mem|, []), true));
    assert MapFrom(m0, fa, base + PAGE_SIZE, 2, 256, base)
        == Done(Mapped(m3, FrameAllocator(base + 4 * PAGE_SIZE, |mem|, []), true));
  }

  // ---------------------------------------------------------------------------
  // Right after the mapping
  // ---------------------------------------------------------------------------

  /** Entries that spill into the very table the call creates next, where a later write of
      the same call replaces them: a level-1 entry by the leaf, or a level-2 entry that
      serves as the level-1 entry too by the leaf. */
  predicate OverwritesItself(v: nat) {
    || Idx(v, 1) == Idx(v, 0) + ENTRIES_IN_FRAME
    || (Idx(v, 2) == Idx(v, 1) + ENTRIES_IN_FRAME && Idx(v, 1) == Idx(v, 0))
  }

  /** No entry between these addresses is present. */
  ghost predicate Vacant(mem: seq<byte>, lo: nat, hi: nat) {
    forall b: nat :: lo <= b && b + ENTRY_SIZE <= hi <= |mem| && b % ENTRY_SIZE == 0 ==> !ReadPte(mem, b).present
  }

  function Hung(mem: seq<byte>, slot: nat, f: nat): (r: seq<byte>)
    requires f + PAGE_SIZE <= |mem| && slot + ENTRY_SIZE <= |mem|
    ensures |r| == |mem|
  {
    WritePte(ZeroFrame(mem, f), slot, Pte(f, true))
  }

  /** A new table and the entry that leads to it, wherever that entry is. */
  lemma HungEntry(mem: seq<byte>, slot: nat, f: nat, b: nat)
    requires f % PAGE_SIZE == 0 && f + PAGE_SIZE <= |mem| < WORD_LIMIT
    requires slot % ENTRY_SIZE == 0 && b % ENTRY_SIZE == 0 && slot + ENTRY_SIZE <= |mem| && b + ENTRY_SIZE <= |mem|
    ensures var entry := ReadPte(Hung(mem, slot, f), b);
            && (b == slot ==> entry == Pte(f, true))
            && (b != slot && f <= b < f + PAGE_SIZE ==> !entry.present)
            && (b != slot && !(f <= b < f + PAGE_SIZE) ==> entry == ReadPte(mem, b))
  {
    hide ReadPte, WritePte, ZeroFrame;
    ReadZeroed(mem, f, b);
    if b == slot {
      ReadWritten(ZeroFrame(mem, f), slot, Pte(f, true));
    } else {
      ReadOther(ZeroFrame(mem, f), slot, Pte(f, true), b);
    }
  }

  lemma LeafEntry(mem: seq<byte>, leaf: nat, pa: nat, b: nat)
    requires pa < WORD_LIMIT && leaf % ENTRY_SIZE == 0 && b % ENTRY_SIZE == 0
    requires leaf + ENTRY_SIZE <= |mem| && b + ENTRY_SIZE <= |mem|
    ensures ReadPte(WritePte(mem, leaf, Pte(pa, true)), b) == if b == leaf then Pte(pa, true) else ReadPte(mem, b)
  {
    hide ReadPte, WritePte;
    if b == leaf {
      ReadWritten(mem, leaf, Pte(pa, true));
    } else {
      ReadOther(mem, leaf, Pte(pa, true), b);
    }
  }

  /** The frames of a new process: its page, and tables of levels 2, 1 and 0. */
  ghost predicate FreshFrom(mem: seq<byte>, base: nat) {
    base % PAGE_SIZE == 0 && base + 5 * PAGE_SIZE <= |mem| < WORD_LIMIT && Vacant(mem, base, base + 5 * PAGE_SIZE)
  }

  function Level2Slot(base: nat, v: nat): nat { Slot(base + PAGE_SIZE, v, 2) }

  function Level1Slot(base: nat, v: nat): nat { Slot(base + 2 * PAGE_SIZE, v, 1) }

  /** Where an entry of the table at t is: in its frame or the next one. */
  lemma SlotIn(t: nat, v: nat, l: nat)
    requires t % PAGE_SIZE == 0 && l <= 3
    ensures var a := Slot(t, v, l); a % ENTRY_SIZE == 0 && t <= a && a + ENTRY_SIZE <= t + 2 * PAGE_SIZE
  {
    hide Idx;
  }

  /** Memory once the page is zeroed and the table of level 2 is there, both empty. */
  lemma TwoZeroed(mem: seq<byte>, base: nat)
    requires FreshFrom(mem, base)
    ensures var m0 := ZeroFrame(ZeroFrame(mem, base), base + PAGE_SIZE); |m0| == |mem| && FreshFrom(m0, base)
  {
    hide ReadPte, ZeroFrame;
    var m := ZeroFrame(mem, base);
    var m0 := ZeroFrame(m, base + PAGE_SIZE);
    forall b: nat | base <= b && b + ENTRY_SIZE <= base + 5 * PAGE_SIZE && b % ENTRY_SIZE == 0
      ensures !ReadPte(m0, b).present
    {
      assert !ReadPte(mem, b).present;
      InOneFrame(base, b);
      InOneFrame(base + PAGE_SIZE, b);
      ReadZeroed(mem, base, b);
      ReadZeroed(m, base + PAGE_SIZE, b);
    }
  }

  /** An entry is in a frame or apart from it. */
  lemma InOneFrame(f: nat, b: nat)
    requires f % PAGE_SIZE == 0 && b % ENTRY_SIZE == 0
    ensures b + ENTRY_SIZE <= f || f + PAGE_SIZE <= b || (f <= b && b + ENTRY_SIZE <= f + PAGE_SIZE)
  {
  }

  /** One level of map_page in fresh memory: a new table, in the next frame. */
  lemma NewLevel(mem: seq<byte>, t: nat, l: nat, v: nat, pa: nat, f: nat, limit: nat)
    requires 1 <= l <= 2 && Slot(t, v, l) + ENTRY_SIZE <= |mem| && !ReadPte(mem, Slot(t, v, l)).present
    requires f + PAGE_SIZE <= limit && f + PAGE_SIZE <= |mem|
    ensures MapFrom(mem, FrameAllocator(f, limit, []), t, l, v, pa)
         == MapFrom(Hung(mem, Slot(t, v, l), f), FrameAllocator(f + PAGE_SIZE, limit, []), f, l - 1, v, pa)
  {
    hide ReadPte, WritePte, ZeroFrame, Idx;
    var fa := FrameAllocator(f + PAGE_SIZE, limit, []);
    assert AllocFrame(mem, FrameAllocator(f, limit, [])) == Done(Some(Allocated(ZeroFrame(mem, f), fa, f)));
  }

  lemma LeafStep(mem: seq<byte>, fa: FrameAllocator, t: nat, v: nat, pa: nat)
    requires Slot(t, v, 0) + ENTRY_SIZE <= |mem|
    ensures MapFrom(mem, fa, t, 0, v, pa) == Done(Mapped(WritePte(mem, Slot(t, v, 0), Pte(pa, true)), fa, true))
  {
    hide WritePte, Idx;
  }

  /** The calls of alloc_frame and the writes, one after the other. */
  lemma ThreeSteps(m0: seq<byte>, base: nat, v: nat, limit: nat)
    requires FreshFrom(m0, base) && base + 4 * PAGE_SIZE <= limit && Level1Slot(base, v) != Level2Slot(base, v)
    ensures var t1, t0 := base + 2 * PAGE_SIZE, base + 3 * PAGE_SIZE;
            var m2 := Hung(Hung(m0, Level2Slot(base, v), t1), Level1Slot(base, v), t0);
            MapFrom(m0, FrameAllocator(t1, limit, []), base + PAGE_SIZE, 2, v, base)
                == Done(Mapped(WritePte(m2, Slot(t0, v, 0), Pte(base, true)),
                               FrameAllocator(base + 4 * PAGE_SIZE, limit, []), true))
  {
    hide ReadPte, WritePte, ZeroFrame, Slot, MapFrom, Hung;
    var t1, t0 := base + 2 * PAGE_SIZE, base + 3 * PAGE_SIZE;
    var s2, s1 := Level2Slot(base, v), Level1Slot(base, v);
    SlotIn(base + PAGE_SIZE, v, 2);
    SlotIn(t1, v, 1);
    SlotIn(t0, v, 0);
    HungEntry(m0, s2, t1, s1);
    assert !ReadPte(m0, s2).present && !ReadPte(m0, s1).present;
    var m1 := Hung(m0, s2, t1);
    NewLevel(m0, base + PAGE_SIZE, 2, v, base, t1, limit);
    NewLevel(m1, t1, 1, v, base, t0, limit);
    LeafStep(Hung(m1, s1, t0), FrameAllocator(base + 4 * PAGE_SIZE, limit, []), t0, v, base);
  }

  /** An entry of the page itself, while nothing else is written there. */
  lemma PageIsEmpty(m0: seq<byte>, base: nat, s2: nat, s1: nat, leaf: nat, b: nat)
    requires FreshFrom(m0, base) && s2 % ENTRY_SIZE == 0 && s1 % ENTRY_SIZE == 0 && leaf % ENTRY_SIZE == 0
    requires base <= b < base + PAGE_SIZE && b % ENTRY_SIZE == 0
    requires base + PAGE_SIZE <= s2 && base + PAGE_SIZE <= s1 && base + PAGE_SIZE <= leaf
    requires s2 + ENTRY_SIZE <= |m0| && s1 + ENTRY_SIZE <= |m0| && leaf + ENTRY_SIZE <= |m0|
    ensures var m2 := Hung(Hung(m0, s2, base + 2 * PAGE_SIZE), s1, base + 3 * PAGE_SIZE);
            !ReadPte(WritePte(m2, leaf, Pte(base, true)), b).present
    ensures !ReadPte(WritePte(Hung(m0, s2, base + 2 * PAGE_SIZE), leaf, Pte(base, true)), b).present
  {
    hide ReadPte, WritePte, ZeroFrame, Hung;
    var m1 := Hung(m0, s2, base + 2 * PAGE_SIZE);
    assert !ReadPte(m0, b).present;
    HungEntry(m0, s2, base + 2 * PAGE_SIZE, b);
    HungEntry(m1, s1, base + 3 * PAGE_SIZE, b);
    LeafEntry(Hung(m1, s1, base + 3 * PAGE_SIZE), leaf, base, b);
    LeafEntry(m1, leaf, base, b);
  }

  /** What the entries written by such a call hold in the end: the page's own entry was
      written last. */
  lemma ThreeEntries(m0: seq<byte>, base: nat, s2: nat, s1: nat, leaf: nat)
    requires FreshFrom(m0, base) && s2 % ENTRY_SIZE == 0 && s1 % ENTRY_SIZE == 0 && leaf % ENTRY_SIZE == 0
    requires base + PAGE_SIZE <= s2 && s2 + ENTRY_SIZE <= base + 3 * PAGE_SIZE && base + 2 * PAGE_SIZE <= s1 != s2
    requires s1 + ENTRY_SIZE <= base + 4 * PAGE_SIZE && base + 3 * PAGE_SIZE <= leaf
    requires leaf + ENTRY_SIZE <= base + 5 * PAGE_SIZE
    ensures var m2 := Hung(Hung(m0, s2, base + 2 * PAGE_SIZE), s1, base + 3 * PAGE_SIZE);
            var m3 := WritePte(m2, leaf, Pte(base, true));
            && ReadPte(m3, s2) == Pte(base + 2 * PAGE_SIZE, true)
            && (leaf != s1 ==> ReadPte(m3, s1) == Pte(base + 3 * PAGE_SIZE, true))
            && ReadPte(m3, leaf) == Pte(base, true)
  {
    hide ReadPte, WritePte, Hung;
    var m1 := Hung(m0, s2, base + 2 * PAGE_SIZE);
    var m2 := Hung(m1, s1, base + 3 * PAGE_SIZE);
    HungEntry(m0, s2, base + 2 * PAGE_SIZE, s2);
    HungEntry(m1, s1, base + 3 * PAGE_SIZE, s2);
    HungEntry(m1, s1, base + 3 * PAGE_SIZE, s1);
    LeafEntry(m2, leaf, base, s2);
    LeafEntry(m2, leaf, base, s1);
    LeafEntry(m2, leaf, base, leaf);
  }

  /** The leaf entry is the entry of level 1, and is then read in the page itself. */
  lemma LeafIsLevel1(base: nat, v: nat)
    ensures Slot(base + 3 * PAGE_SIZE, v, 0) == Level1Slot(base, v) <==> Idx(v, 1) == Idx(v, 0) + ENTRIES_IN_FRAME
    ensures Slot(base + 3 * PAGE_SIZE, v, 0) == Level1Slot(base, v) ==> Slot(base, v, 0) < base + PAGE_SIZE
  {
    hide Idx;
  }

  /** The entry of level 2 is its own, and so is that of level 1: three tables. */
  lemma ThreeTables(m0: seq<byte>, base: nat, v: nat, limit: nat)
    requires FreshFrom(m0, base) && base + 4 * PAGE_SIZE <= limit && Level1Slot(base, v) != Level2Slot(base, v)
    ensures var r := MapFrom(m0, FrameAllocator(base + 2 * PAGE_SIZE, limit, []), base + PAGE_SIZE, 2, v, base);
            && r.Done? && r.value.ok && |r.value.mem| == |m0|
            && WalkFrom(r.value.mem, base + PAGE_SIZE, 2, v)
                == if Idx(v, 1) == Idx(v, 0) + ENTRIES_IN_FRAME then None else Some(base)
  {
    hide ReadPte, WritePte, ZeroFrame, Slot, Hung, MapFrom;
    var t2, t1, t0 := base + PAGE_SIZE, base + 2 * PAGE_SIZE, base + 3 * PAGE_SIZE;
    var s2, s1, leaf := Level2Slot(base, v), Level1Slot(base, v), Slot(t0, v, 0);
    SlotIn(t2, v, 2);
    SlotIn(t1, v, 1);
    SlotIn(t0, v, 0);
    var m3 := WritePte(Hung(Hung(m0, s2, t1), s1, t0), leaf, Pte(base, true));
    ThreeSteps(m0, base, v, limit);
    ThreeEntries(m0, base, s2, s1, leaf);
    LeafIsLevel1(base, v);
    assert WalkFrom(m3, t2, 2, v) == WalkFrom(m3, t1, 1, v);
    if leaf == s1 {
      SlotIn(base, v, 0);
      PageIsEmpty(m0, base, s2, s1, leaf, Slot(base, v, 0));
      assert WalkFrom(m3, t1, 1, v) == WalkFrom(m3, base, 0, v);
    } else {
      assert WalkFrom(m3, t1, 1, v) == WalkFrom(m3, t0, 0, v);
    }
  }

  lemma TwoSteps(m0: seq<byte>, base: nat, v: nat, limit: nat)
    requires FreshFrom(m0, base) && base + 4 * PAGE_SIZE <= limit && Level1Slot(base, v) == Level2Slot(base, v)
    ensures var t1 := base + 2 * PAGE_SIZE;
            MapFrom(m0, FrameAllocator(t1, limit, []), base + PAGE_SIZE, 2, v, base)
                == Done(Mapped(WritePte(Hung(m0, Level2Slot(base, v), t1), Slot(t1, v, 0), Pte(base, true)),
                               FrameAllocator(base + 3 * PAGE_SIZE, limit, []), true))
  {
    hide ReadPte, WritePte, ZeroFrame, Slot, Hung;
    var t1, s2 := base + 2 * PAGE_SIZE, Level2Slot(base, v);
    SlotIn(base + PAGE_SIZE, v, 2);
    SlotIn(t1, v, 0);
    var m1, fa := Hung(m0, s2, t1), FrameAllocator(base + 3 * PAGE_SIZE, limit, []);
    assert !ReadPte(m0, s2).present;
    NewLevel(m0, base + PAGE_SIZE, 2, v, base, t1, limit);
    HungEntry(m0, s2, t1, s2);
    assert MapFrom(m1, fa, t1, 1, v, base) == MapFrom(m1, fa, t1, 0, v, base);
    LeafStep(m1, fa, t1, v, base);
  }

  /** Where the two entries above it are one, the leaf entry is that too. */
  lemma LeafIsLevel2(base: nat, v: nat)
    requires Level1Slot(base, v) == Level2Slot(base, v)
    ensures Slot(base + 2 * PAGE_SIZE, v, 0) == Level2Slot(base, v) <==> Idx(v, 1) == Idx(v, 0)
    ensures Slot(base, v, 1) < base + PAGE_SIZE
  {
    hide Idx;
  }

  /** The entry of level 2 has spilled to where the entry of level 1 belongs: the table of
      level 1 then leads to itself, and there are two tables only. */
  lemma TwoTables(m0: seq<byte>, base: nat, v: nat, limit: nat)
    requires FreshFrom(m0, base) && base + 4 * PAGE_SIZE <= limit && Level1Slot(base, v) == Level2Slot(base, v)
    ensures var r := MapFrom(m0, FrameAllocator(base + 2 * PAGE_SIZE, limit, []), base + PAGE_SIZE, 2, v, base);
            && r.Done? && r.value.ok && |r.value.mem| == |m0|
            && WalkFrom(r.value.mem, base + PAGE_SIZE, 2, v) == if Idx(v, 1) == Idx(v, 0) then None else Some(base)
  {
    hide ReadPte, WritePte, ZeroFrame, Slot, Hung, MapFrom;
    var t2, t1 := base + PAGE_SIZE, base + 2 * PAGE_SIZE;
    var s2, leaf := Level2Slot(base, v), Slot(t1, v, 0);
    SlotIn(t2, v, 2);
    SlotIn(t1, v, 0);
    var m1 := Hung(m0, s2, t1);
    var m2 := WritePte(m1, leaf, Pte(base, true));
    TwoSteps(m0, base, v, limit);
    HungEntry(m0, s2, t1, s2);
    LeafEntry(m1, leaf, base, s2);
    LeafEntry(m1, leaf, base, leaf);
    LeafIsLevel2(base, v);
    assert WalkFrom(m2, t2, 2, v) == WalkFrom(m2, ReadPte(m2, s2).pa, 1, v);
    if leaf == s2 {
      SlotIn(base, v, 1);
      PageIsEmpty(m0, base, s2, s2, leaf, Slot(base, v, 1));
      assert WalkFrom(m2, base, 1, v) == None;
    } else {
      assert WalkFrom(m2, t1, 1, v) == WalkFrom(m2, t1, 0, v);
    }
  }

  /** Any page at all of a new process in blank memory: it is mapped, and it walks to its
      frame right afterwards if and only if its entries do not overwrite each other. */
  lemma FirstMappingWalks(mem: seq<byte>, base: nat, v: nat)
    requires FreshFrom(mem, base)
    ensures var r := AllocAndMap(InitOs(1, mem, base, |mem|), 0, v);
            && r.Done? && r.value.1 == Some(base)
            && WalkOf(r.value.0, 0, v) == if OverwritesItself(v) then None else Some(base)
  {
    hide ReadPte, ZeroFrame, Idx, MapFrom, WalkFrom;
    var os := InitOs(1, mem, base, |mem|);
    var m0 := ZeroFrame(ZeroFrame(mem, base), base + PAGE_SIZE);
    TwoZeroed(mem, base);
    assert Level1Slot(base, v) == Level2Slot(base, v) <==> Idx(v, 2) == Idx(v, 1) + ENTRIES_IN_FRAME;
    if Level1Slot(base, v) == Level2Slot(base, v) {
      TwoTables(m0, base, v, |mem|);
    } else {
      ThreeTables(m0, base, v, |mem|);
    }
  }

  /** Page 131072 is the first such page: alloc_and_map hands out its frame, and page_walk
      does not find it. */
  lemma FirstPageOverwritingItself(mem: seq<byte>, base: nat)
    requires FreshFrom(mem, base)
    ensures OverwritesItself(131072) && forall v: nat :: v < 131072 ==> !OverwritesItself(v)
    ensures var r := AllocAndMap(InitOs(1, mem, base, |mem|), 0, 131072);
            r.Done? && r.value.1 == Some(base) && WalkOf(r.value.0, 0, 131072) == None
  {
    assert Idx(131072, 2) == 0 && Idx(131072, 1) == 256 && Idx(131072, 0) == 0;
    forall v: nat | v < 131072 ensures !OverwritesItself(v) {
      assert Idx(v, 2) == 0 && Idx(v, 1) < 256;
    }
    FirstMappingWalks(mem, base, 131072);
  }
}
