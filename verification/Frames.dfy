/** The frame allocator, the page mapper and which frame belongs to whom (os.cpp). */
module Frames {
  import opened Types
  import opened Paging

  /** freeList's last element is its top. */
  datatype FrameAllocator = FrameAllocator(watermark: nat, limit: nat, freeList: seq<nat>)

  /** The processes' root tables over one memory. */
  datatype Os = Os(roots: seq<Root>, mem: seq<byte>, fa: FrameAllocator)

  datatype Allocated = Allocated(mem: seq<byte>, fa: FrameAllocator, frame: nat)

  datatype Mapped = Mapped(mem: seq<byte>, fa: FrameAllocator, ok: bool)

  // ---------------------------------------------------------------------------
  // os.cpp
  // ---------------------------------------------------------------------------

  /** alloc_frame: Done(None) when out of memory; Abort when the frame to clear does not
      lie in memory, which the source does not check. */
  function AllocFrame(mem: seq<byte>, fa: FrameAllocator): (r: Outcome<Option<Allocated>>)
    ensures r.Done? && r.value.Some? ==> |r.value.value.mem| == |mem|
  {
    if fa.freeList != [] then
      var top := |fa.freeList| - 1;
      var f := fa.freeList[top];
      if f + PAGE_SIZE > |mem| then Abort
      else Done(Some(Allocated(ZeroFrame(mem, f), fa.(freeList := fa.freeList[..top]), f)))
    else if fa.watermark + PAGE_SIZE > fa.limit then Done(None)
    else
      var f := fa.watermark;
      if f + PAGE_SIZE > |mem| then Abort
      else Done(Some(Allocated(ZeroFrame(mem, f), fa.(watermark := f + PAGE_SIZE), f)))
  }

  /** alloc_frame has nothing left to hand out. */
  predicate OutOfFrames(fa: FrameAllocator) { fa.freeList == [] && fa.watermark + PAGE_SIZE > fa.limit }

  /** The frame that alloc_frame hands out next, if it hands out any. */
  function NextFrame(fa: FrameAllocator): nat {
    if fa.freeList != [] then fa.freeList[|fa.freeList| - 1] else fa.watermark
  }

  function Taken(fa: FrameAllocator): FrameAllocator {
    if fa.freeList != [] then fa.(freeList := fa.freeList[..|fa.freeList| - 1])
    else fa.(watermark := fa.watermark + PAGE_SIZE)
  }

  /** The frames that k calls of alloc_frame hand out, in order; fewer than k if they run out. */
  function Upcoming(fa: FrameAllocator, k: nat): (r: seq<nat>)
    ensures |r| <= k
    decreases k
  {
    if k == 0 || OutOfFrames(fa) then [] else [NextFrame(fa)] + Upcoming(Taken(fa), k - 1)
  }

  /** The allocator after those calls. */
  function After(fa: FrameAllocator, k: nat): FrameAllocator
    decreases k
  {
    if k == 0 || OutOfFrames(fa) then fa else After(Taken(fa), k - 1)
  }

  /** free_frame */
  function FreeFrame(fa: FrameAllocator, f: nat): FrameAllocator {
    fa.(freeList := fa.freeList + [f])
  }

  /** map_page below the root: the table at t serves level l. Abort stands for an entry
      outside memory. */
  function MapFrom(mem: seq<byte>, fa: FrameAllocator, t: nat, l: nat, v: nat, pa: nat): (r: Outcome<Mapped>)
    requires l <= 2
    ensures r.Done? ==> |r.value.mem| == |mem|
    decreases l
  {
    var a := Slot(t, v, l);
    if a + ENTRY_SIZE > |mem| then Abort
    else if l == 0 then Done(Mapped(WritePte(mem, a, Pte(pa, true)), fa, true))
    else
      var entry := ReadPte(mem, a);
      if entry.present then MapFrom(mem, fa, entry.pa, l - 1, v, pa)
      else
        var got :- AllocFrame(mem, fa);
        if got.None? then Done(Mapped(mem, fa, false))
        else
          var mem1 := WritePte(got.value.mem, a, Pte(got.value.frame, true));
          MapFrom(mem1, got.value.fa, got.value.frame, l - 1, v, pa)
  }

  /** map_page of process p's page v to pa; false when out of memory. */
  function MapPage(os: Os, p: nat, v: nat, pa: nat): (r: Outcome<(Os, bool)>)
    requires p < |os.roots|
    ensures r.Done? ==> |r.value.0.mem| == |os.mem| && |r.value.0.roots| == |os.roots|
  {
    var i, root := Idx(v, 3), os.roots[p];
    if root[i].present then
      var m :- MapFrom(os.mem, os.fa, root[i].pa, 2, v, pa);
      Done((Os(os.roots, m.mem, m.fa), m.ok))
    else
      var got :- AllocFrame(os.mem, os.fa);
      if got.None? then Done((os, false))
      else
        var f := got.value.frame;
        var m :- MapFrom(got.value.mem, got.value.fa, f, 2, v, pa);
        Done((Os(os.roots[p := root[i := Pte(f, true)]], m.mem, m.fa), m.ok))
  }

  /** alloc_and_map: the frame now mapped at process p's page v; None when out of memory. */
  function AllocAndMap(os: Os, p: nat, v: nat): (r: Outcome<(Os, Option<nat>)>)
    requires p < |os.roots|
    ensures r.Done? ==> |r.value.0.mem| == |os.mem| && |r.value.0.roots| == |os.roots|
  {
    var got :- AllocFrame(os.mem, os.fa);
    if got.None? then Done((os, None)) else
    var f := got.value.frame;
    var (os1, ok) :- MapPage(Os(os.roots, got.value.mem, got.value.fa), p, v, f);
    Done(if ok then (os1, Some(f)) else (os1.(fa := FreeFrame(os1.fa, f)), None))
  }

  // ---------------------------------------------------------------------------
  // Who owns which frame
  // ---------------------------------------------------------------------------

  /** A table's place: whose it is, its level, and the index bits that lead to it. */
  datatype Place = Place(proc: nat, level: nat, prefix: nat)

  datatype Owners = Owners(base: nat, tables: map<nat, Place>, data: set<nat>)

  predicate InUse(own: Owners, f: nat) { f in own.tables || f in own.data }

  /** The page-aligned frames from the initial watermark to the current one. */
  predicate Issued(fa: FrameAllocator, own: Owners, f: nat) {
    f % PAGE_SIZE == 0 && own.base <= f && f + PAGE_SIZE <= fa.watermark
  }

  /** Free frames and frames in use partition the issued frames, without duplicates. */
  ghost predicate Partition(fa: FrameAllocator, own: Owners) {
    && fa.watermark % PAGE_SIZE == 0 && own.base % PAGE_SIZE == 0 && own.base <= fa.watermark
    && (forall i, j :: 0 <= i < j < |fa.freeList| ==> fa.freeList[i] != fa.freeList[j])
    && (forall f: nat :: Issued(fa, own, f) <==> f in fa.freeList || InUse(own, f))
    && (forall f: nat :: f in fa.freeList ==> !InUse(own, f))
    && (forall f: nat :: f in own.tables ==> f !in own.data)
  }

  /** Memory reaches past the last frame that can be handed out. */
  predicate Roomy(mem: seq<byte>, fa: FrameAllocator) {
    fa.watermark <= fa.limit <= |mem| < WORD_LIMIT
  }

  /** Entry i of a placed table, read within its frame. */
  ghost predicate EntryOk(mem: seq<byte>, own: Owners, t: nat, i: nat)
    requires t in own.tables && t + PAGE_SIZE <= |mem| && i < ENTRIES_IN_FRAME
  {
    var at, entry := own.tables[t], ReadPte(mem, t + ENTRY_SIZE * i);
    entry.present && at.level > 0 ==>
      entry.pa in own.tables && own.tables[entry.pa] == Place(at.proc, at.level - 1, at.prefix * 512 + i)
  }

  /** Every present entry above the leaves leads to the table placed there. */
  ghost predicate Tree(mem: seq<byte>, own: Owners) {
    && (forall t :: t in own.tables ==> own.tables[t].level <= 2 && t + PAGE_SIZE <= |mem| && t % PAGE_SIZE == 0)
    && (forall t, i :: t in own.tables && 0 <= i < ENTRIES_IN_FRAME ==> EntryOk(mem, own, t, i))
  }

  ghost predicate RootsOk(roots: seq<Root>, own: Owners) {
    forall p: nat, i: nat :: p < |roots| && i < PAGE_TABLE_ENTRIES && roots[p][i].present ==>
      roots[p][i].pa in own.tables && own.tables[roots[p][i].pa] == Place(p, 2, i)
  }

  ghost predicate Owned(mem: seq<byte>, fa: FrameAllocator, own: Owners) {
    Partition(fa, own) && Roomy(mem, fa) && Tree(mem, own)
  }

  ghost predicate OsOk(os: Os, own: Owners) {
    Owned(os.mem, os.fa, own) && RootsOk(os.roots, own)
  }

  // ---------------------------------------------------------------------------
  // Handing out and taking back a frame
  // ---------------------------------------------------------------------------

  function WithTable(own: Owners, f: nat, place: Place): Owners { own.(tables := own.tables[f := place]) }

  function WithData(own: Owners, f: nat): Owners { own.(data := own.data + {f}) }


  /** The frame handed out was in nobody's use, and whatever it is used for, the frames
      stay partitioned. */
  lemma AllocFresh(mem: seq<byte>, fa: FrameAllocator, own: Owners, place: Place)
    requires Partition(fa, own) && Roomy(mem, fa)
    ensures var r := AllocFrame(mem, fa);
            && r.Done?
            && (r.value.None? <==> OutOfFrames(fa))
            && (r.value.Some? ==>
                  var got := r.value.value;
                  && !InUse(own, got.frame) && got.frame % PAGE_SIZE == 0 && own.base <= got.frame
                  && got.frame + PAGE_SIZE <= got.fa.limit == fa.limit && Roomy(got.mem, got.fa)
                  && got.mem == ZeroFrame(mem, got.frame) && got.frame == NextFrame(fa) && got.fa == Taken(fa)
                  && Partition(got.fa, WithTable(own, got.frame, place))
                  && Partition(got.fa, WithData(own, got.frame)))
  {
    hide ZeroFrame;
    var r := AllocFrame(mem, fa);
    if fa.freeList != [] {
      var top := |fa.freeList| - 1;
      assert fa.freeList[top] in fa.freeList;
      assert Issued(fa, own, fa.freeList[top]);
      assert fa.freeList == fa.freeList[..top] + [fa.freeList[top]];
      HandedOut(fa, r.value.value.fa, own, WithTable(own, r.value.value.frame, place), r.value.value.frame);
      HandedOut(fa, r.value.value.fa, own, WithData(own, r.value.value.frame), r.value.value.frame);
    } else if r.value.Some? {
      assert !Issued(fa, own, fa.watermark);
      forall g: nat ensures Issued(r.value.value.fa, own, g) <==> Issued(fa, own, g) || g == fa.watermark {}
      HandedOut(fa, r.value.value.fa, own, WithTable(own, r.value.value.frame, place), r.value.value.frame);
      HandedOut(fa, r.value.value.fa, own, WithData(own, r.value.value.frame), r.value.value.frame);
    }
  }

  lemma HandedOut(fa: FrameAllocator, fa': FrameAllocator, own: Owners, own': Owners, f: nat)
    requires Partition(fa, own) && own'.base == own.base && fa'.watermark % PAGE_SIZE == 0
        && fa.watermark <= fa'.watermark
    requires !InUse(own, f) && f !in fa'.freeList
    requires forall g: nat :: InUse(own', g) <==> InUse(own, g) || g == f
    requires forall g: nat :: g in own'.tables ==> g !in own'.data
    requires fa'.freeList <= fa.freeList && forall g: nat :: g in fa.freeList <==>
        g in fa'.freeList || (g == f && g in fa.freeList)
    requires forall g: nat :: Issued(fa', own, g) <==> Issued(fa, own, g) || g == f
    ensures Partition(fa', own')
  {
    forall g: nat ensures Issued(fa', own', g) <==> g in fa'.freeList || InUse(own', g) {
      assert Issued(fa', own', g) == Issued(fa', own, g);
      assert Issued(fa, own, g) <==> g in fa.freeList || InUse(own, g);
    }
  }

  /** Freeing keeps the partition exactly when the frame was in use as data. */
  lemma FreeKeeps(fa: FrameAllocator, own: Owners, f: nat)
    requires Partition(fa, own)
    ensures Partition(FreeFrame(fa, f), own.(data := own.data - {f})) <==> f in own.data
  {
    var fa', own' := FreeFrame(fa, f), own.(data := own.data - {f});
    forall g: nat ensures g in fa'.freeList <==> g in fa.freeList || g == f {
      if g == f { assert fa'.freeList[|fa.freeList|] == f; }
    }
    if f in own.data {
      assert InUse(own, f);
      forall g: nat ensures Issued(fa', own', g) <==> g in fa'.freeList || InUse(own', g) {
        assert Issued(fa, own, g) <==> g in fa.freeList || InUse(own, g);
      }
    } else if f in fa.freeList {
      var i :| 0 <= i < |fa.freeList| && fa.freeList[i] == f;
      assert fa'.freeList[i] == f && fa'.freeList[|fa.freeList|] == f;
    } else {
      assert f in fa'.freeList;
      assert Issued(fa', own', f) == Issued(fa, own, f);
    }
  }

  // ---------------------------------------------------------------------------
  // The order in which frames are handed out
  // ---------------------------------------------------------------------------

  datatype Grant = Grant(mem: seq<byte>, fa: FrameAllocator, frames: seq<nat>)

  /** k calls of alloc_frame, as long as they succeed, with the frames that they return. */
  function AllocMany(mem: seq<byte>, fa: FrameAllocator, k: nat): Outcome<Grant>
    decreases k
  {
    if k == 0 then Done(Grant(mem, fa, [])) else
    var one :- AllocFrame(mem, fa);
    if one.None? then Done(Grant(mem, fa, [])) else
    var rest :- AllocMany(one.value.mem, one.value.fa, k - 1);
    Done(rest.(frames := [one.value.frame] + rest.frames))
  }

  /** free_frame on each frame in turn. */
  function FreeMany(fa: FrameAllocator, frames: seq<nat>): FrameAllocator
    decreases |frames|
  {
    if frames == [] then fa else FreeFrame(FreeMany(fa, frames[..|frames| - 1]), frames[|frames| - 1])
  }

  /** Freed frames are handed out before any other, the last one first, and then the allocator
      is as it was before they were freed. */
  lemma {:induction false} FreedComeBack(mem: seq<byte>, fa: FrameAllocator, frames: seq<nat>)
    requires forall i :: 0 <= i < |frames| ==> frames[i] + PAGE_SIZE <= |mem|
    ensures var r := AllocMany(mem, FreeMany(fa, frames), |frames|);
            && r.Done? && r.value.fa == fa && |r.value.frames| == |frames|
            && forall i :: 0 <= i < |frames| ==> r.value.frames[i] == frames[|frames| - 1 - i]
    decreases |frames|
  {
    hide ZeroFrame;
    if frames == [] {
    } else {
      var front, f := frames[..|frames| - 1], frames[|frames| - 1];
      var before := FreeMany(fa, front);
      assert FreeFrame(before, f).freeList[..|before.freeList|] == before.freeList;
      var one := AllocFrame(mem, FreeFrame(before, f)).value.value;
      assert one.fa == before && one.frame == f;
      FreedComeBack(one.mem, fa, front);
    }
  }

  /** With nothing freed, the frames handed out lie one behind the other from the watermark on,
      up to the limit. */
  lemma {:induction false} FreshInOrder(mem: seq<byte>, fa: FrameAllocator, k: nat)
    requires fa.freeList == [] && fa.limit <= |mem|
    ensures var r := AllocMany(mem, fa, k);
            && r.Done?
            && (|r.value.frames| == k || (|r.value.frames| < k && OutOfFrames(r.value.fa)))
            && (forall i :: 0 <= i < |r.value.frames| ==>
                  r.value.frames[i] == fa.watermark + i * PAGE_SIZE && r.value.frames[i] + PAGE_SIZE <= fa.limit)
    decreases k
  {
    hide ZeroFrame;
    if k == 0 || OutOfFrames(fa) {
    } else {
      var one := AllocFrame(mem, fa).value.value;
      FreshInOrder(one.mem, one.fa, k - 1);
    }
  }

  // ---------------------------------------------------------------------------
  // One write to a table
  // ---------------------------------------------------------------------------

  /** Only bytes of the given frames may differ. */
  ghost predicate SameOutside(frames: set<nat>, mem: seq<byte>, mem': seq<byte>) {
    |mem'| == |mem| && forall a: nat :: a < |mem| && a - a % PAGE_SIZE !in frames ==> mem'[a] == mem[a]
  }

  /** The table at t is the one that serves level l for process p's page u. */
  ghost predicate Serves(own: Owners, p: nat, t: nat, l: nat, u: nat) {
    l <= 2 && t in own.tables && own.tables[t] == Place(p, l, Pre(u, l + 1)) && Small(u)
  }

  /** Entry i of the table at t. */
  function EntryAt(mem: seq<byte>, t: nat, i: nat): Pte
    requires i < ENTRIES_IN_FRAME && t + PAGE_SIZE <= |mem|
  {
    ReadPte(mem, t + ENTRY_SIZE * i)
  }

  lemma ZeroKeepsEntries(mem: seq<byte>, own: Owners, f: nat)
    requires Tree(mem, own) && f !in own.tables && f % PAGE_SIZE == 0 && f + PAGE_SIZE <= |mem|
    ensures var mem' := ZeroFrame(mem, f);
            && SameOutside({f}, mem, mem')
            && (forall t, i: nat :: t in own.tables && i < ENTRIES_IN_FRAME ==>
                EntryAt(mem', t, i) == EntryAt(mem, t, i))
            && (forall i: nat :: i < ENTRIES_IN_FRAME ==> !EntryAt(mem', f, i).present)
  {
    hide ZeroFrame, ReadPte, EntryOk;
    forall t, i: nat | t in own.tables && i < ENTRIES_IN_FRAME
      ensures EntryAt(ZeroFrame(mem, f), t, i) == EntryAt(mem, t, i)
    {
      Apart(t, f);
      ReadZeroed(mem, f, t + ENTRY_SIZE * i);
    }
    forall i: nat | i < ENTRIES_IN_FRAME ensures !EntryAt(ZeroFrame(mem, f), f, i).present {
      ReadZeroed(mem, f, f + ENTRY_SIZE * i);
    }
    ZeroOutside(mem, f);
  }

  lemma Apart(t: nat, f: nat)
    requires t % PAGE_SIZE == 0 && f % PAGE_SIZE == 0 && t != f
    ensures t + PAGE_SIZE <= f || f + PAGE_SIZE <= t
  {
  }

  lemma ZeroOutside(mem: seq<byte>, f: nat)
    requires f % PAGE_SIZE == 0 && f + PAGE_SIZE <= |mem|
    ensures SameOutside({f}, mem, ZeroFrame(mem, f))
  {
    forall a: nat | a < |mem| && a - a % PAGE_SIZE != f ensures a < f || f + PAGE_SIZE <= a {}
  }

  lemma WriteKeepsEntries(mem: seq<byte>, own: Owners, t: nat, i: nat, pte: Pte)
    requires Tree(mem, own) && t in own.tables && i < ENTRIES_IN_FRAME && pte.pa < WORD_LIMIT
    ensures var mem' := WritePte(mem, t + ENTRY_SIZE * i, pte);
            && SameOutside({t}, mem, mem')
            && forall t2, j: nat :: t2 in own.tables && j < ENTRIES_IN_FRAME ==>
                 EntryAt(mem', t2, j) == if t2 == t && j == i then pte else EntryAt(mem, t2, j)
  {
    hide WritePte, ReadPte, EntryOk;
    var a := t + ENTRY_SIZE * i;
    ReadWritten(mem, a, pte);
    forall t2, j: nat | t2 in own.tables && j < ENTRIES_IN_FRAME
      ensures EntryAt(WritePte(mem, a, pte), t2, j) == if t2 == t && j == i then pte else EntryAt(mem, t2, j)
    {
      if t2 != t { Apart(t, t2); }
      if t2 != t || j != i { ReadOther(mem, a, pte, t2 + ENTRY_SIZE * j); }
    }
    WriteOutside(mem, t, i, pte);
  }

  lemma WriteOutside(mem: seq<byte>, t: nat, i: nat, pte: Pte)
    requires t % PAGE_SIZE == 0 && i < ENTRIES_IN_FRAME && t + PAGE_SIZE <= |mem|
    ensures SameOutside({t}, mem, WritePte(mem, t + ENTRY_SIZE * i, pte))
  {
    hide WordBytes;
    var a := t + ENTRY_SIZE * i;
    forall b: nat | b < |mem| && b - b % PAGE_SIZE != t ensures b < a || a + 9 <= b {}
  }

  // ---------------------------------------------------------------------------
  // A new table
  // ---------------------------------------------------------------------------

  /** The place of the table that entry i of the table at t leads to. */
  function Below(own: Owners, t: nat, i: nat): Place
    requires t in own.tables && own.tables[t].level > 0
  {
    Place(own.tables[t].proc, own.tables[t].level - 1, own.tables[t].prefix * 512 + i)
  }

  function Linked(mem: seq<byte>, t: nat, i: nat, f: nat): seq<byte>
    requires f + PAGE_SIZE <= |mem| && t + ENTRY_SIZE * i + ENTRY_SIZE <= |mem|
  {
    WritePte(ZeroFrame(mem, f), t + ENTRY_SIZE * i, Pte(f, true))
  }

  lemma LinkedEntries(mem: seq<byte>, own: Owners, t: nat, i: nat, f: nat)
    requires Tree(mem, own) && t in own.tables && i < ENTRIES_IN_FRAME && |mem| < WORD_LIMIT
    requires f !in own.tables && f % PAGE_SIZE == 0 && f + PAGE_SIZE <= |mem|
    ensures var mem' := Linked(mem, t, i, f);
            && SameOutside({t, f}, mem, mem')
            && (forall t2, j: nat :: t2 in own.tables && j < ENTRIES_IN_FRAME ==>
                  EntryAt(mem', t2, j) == if t2 == t && j == i then Pte(f, true) else EntryAt(mem, t2, j))
            && (forall j: nat :: j < ENTRIES_IN_FRAME ==> !EntryAt(mem', f, j).present)
  {
    hide ZeroFrame, WritePte, ReadPte;
    ZeroKeepsEntries(mem, own, f);
    var mem1 := ZeroFrame(mem, f);
    forall t2, j | t2 in own.tables && 0 <= j < ENTRIES_IN_FRAME ensures EntryOk(mem1, own, t2, j) {
      assert EntryAt(mem1, t2, j) == EntryAt(mem, t2, j) && EntryOk(mem, own, t2, j);
    }
    WriteKeepsEntries(mem1, own, t, i, Pte(f, true));
    forall j: nat | j < ENTRIES_IN_FRAME ensures !EntryAt(Linked(mem, t, i, f), f, j).present {
      Apart(t, f);
      ReadOther(mem1, t + ENTRY_SIZE * i, Pte(f, true), f + ENTRY_SIZE * j);
      assert !EntryAt(mem1, f, j).present;
    }
  }

  lemma LinkedTree(mem: seq<byte>, own: Owners, t: nat, i: nat, f: nat)
    requires Tree(mem, own) && t in own.tables && own.tables[t].level > 0 && i < ENTRIES_IN_FRAME && |mem| < WORD_LIMIT
    requires f !in own.tables && f % PAGE_SIZE == 0 && f + PAGE_SIZE <= |mem|
    ensures Tree(Linked(mem, t, i, f), WithTable(own, f, Below(own, t, i)))
  {
    hide ReadPte, Linked;
    LinkedEntries(mem, own, t, i, f);
    var mem', own' := Linked(mem, t, i, f), WithTable(own, f, Below(own, t, i));
    forall t2, j | t2 in own'.tables && 0 <= j < ENTRIES_IN_FRAME ensures EntryOk(mem', own', t2, j) {
      if t2 == f { assert !EntryAt(mem', f, j).present; }
      else {
        assert EntryAt(mem', t2, j) == if t2 == t && j == i then Pte(f, true) else EntryAt(mem, t2, j);
        assert EntryOk(mem, own, t2, j);
      }
    }
  }

  /** The table that page u's entry leads to serves u one level down. */
  lemma ServedBelow(mem: seq<byte>, own: Owners, p: nat, t: nat, l: nat, u: nat)
    requires Tree(mem, own) && Serves(own, p, t, l, u)
    ensures Idx(u, l) < ENTRIES_IN_FRAME && Slot(t, u, l) == t + ENTRY_SIZE * Idx(u, l)
    ensures l > 0 && EntryAt(mem, t, Idx(u, l)).present ==> Serves(own, p, EntryAt(mem, t, Idx(u, l)).pa, l - 1, u)
  {
    hide ReadPte;
    PreStep(u, l);
    assert Idx(u, l) < ENTRIES_IN_FRAME;
    assert EntryOk(mem, own, t, Idx(u, l));
  }

  /** A new table, being empty, changes no walk. */
  lemma {:induction false} LinkedWalk(mem: seq<byte>, own: Owners, t: nat, i: nat, f: nat, p: nat, t2: nat, l: nat,
                                      u: nat)
    requires Tree(mem, own) && t in own.tables && own.tables[t].level > 0 && i < ENTRIES_IN_FRAME && |mem| < WORD_LIMIT
    requires f !in own.tables && f % PAGE_SIZE == 0 && f + PAGE_SIZE <= |mem|
    requires !EntryAt(mem, t, i).present && Serves(own, p, t2, l, u)
    ensures WalkFrom(Linked(mem, t, i, f), t2, l, u) == WalkFrom(mem, t2, l, u)
    decreases l
  {
    hide ReadPte, Linked, Tree, Idx;
    TreeFrame(mem, own, t);
    LinkedEntries(mem, own, t, i, f);
    ServedBelow(mem, own, p, t2, l, u);
    TreeFrame(mem, own, t2);
    var mem' := Linked(mem, t, i, f);
    if TableFits(mem, t2) {
      var j := Idx(u, l);
      assert EntryAt(mem', t2, j) == if t2 == t && j == i then Pte(f, true) else EntryAt(mem, t2, j);
      if t2 == t && j == i {
        var j1 := Idx(u, l - 1);
        assert j1 < ENTRIES_IN_FRAME;
        assert !EntryAt(mem', f, j1).present;
        assert WalkFrom(mem', f, l - 1, u) == None;
      } else if l > 0 && EntryAt(mem, t2, j).present {
        LinkedWalk(mem, own, t, i, f, p, EntryAt(mem, t2, j).pa, l - 1, u);
      }
    }
  }

  lemma TreeFrame(mem: seq<byte>, own: Owners, t: nat)
    requires Tree(mem, own) && t in own.tables
    ensures own.tables[t].level <= 2 && t + PAGE_SIZE <= |mem| && t % PAGE_SIZE == 0
  {
  }
}
