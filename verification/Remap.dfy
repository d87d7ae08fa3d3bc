/** A page mapped a second time while its process runs: the TLBs keep the old translation,
    and loads go on reading the old frame. */
module Remap {
  import opened Types
  import opened Paging
  import opened Frames
  import opened Mapping
  import opened Tlb
  import opened System
  import opened Virtual
  import C = Caches
  import J = Projection
  import S = Snoops
  import F = Flat
  import M = Machine

  /** A mapping that does not outdate the TLBs: of a page that has none, with four frames to
      spare. */
  lemma NewPageIsTame(y: System, own: Owners, p: nat, u: nat)
    requires SysOk(y, own) && p < |y.roots| && Small(u)
    requires WalkOf(OsOf(y), p, u).None? && Spare(y.fa, |y.caches.mem|, 4)
    ensures Tame(y, MapNew(p, u))
  {
    hide TlbOk, OnlySmall, Walk, Small, OsOk, LeavesIn, M.Good, CachedData, MappedTo, AllocAndMap, EntryFor, Spare,
         Foretold, RoomForTables;
    var own' := AllocAndMapWorks(OsOf(y), own, p, u);
    var (os', got) := AllocAndMap(OsOf(y), p, u).value;
    SpareIsRoom(OsOf(y), own, p, u, os', got, own', 0);
    if p == y.active {
      forall c: nat | c < |y.tlbs| ensures !HeldIn(y.tlbs[c], u) {
        assert TlbsOk(y.tlbs[c], y.roots[p], y.caches.mem);
        NothingCached(y.tlbs[c].l1d, OsOf(y), p, u);
        NothingCached(y.tlbs[c].l2d, OsOf(y), p, u);
        NothingCached(y.tlbs[c].itlb, OsOf(y), p, u);
      }
    }
  }

  /** A TLB has no entry for a page without a mapping. */
  lemma NothingCached(tlb: TlbArray, os: Os, p: nat, u: nat)
    requires p < |os.roots| && TlbOk(tlb, os.roots[p], os.mem) && WalkOf(os, p, u).None?
    ensures !EntryFor(tlb, u)
  {
    hide Walk, Pre;
    forall i: nat, w: nat | Entry(tlb, i, w) && Pre(tlb[i].vpn[w], 0) == Pre(u, 0) ensures false {
      SameWalk(os.roots[p], os.mem, tlb[i].vpn[w], u);
    }
  }

  /** A data access leaves its page in the core's first-level TLB. */
  lemma AccessHolds(y: System, own: Owners, call: Call)
    requires SysOk(y, own) && Fits(y, call) && call.Access? && !call.kind.Fetching? && Small(call.va / 4096)
    requires Physical(OsOf(y), y.active, call.va).Some? && Step(y, call).Done?
    ensures var y' := Step(y, call).value.0;
            && |y'.tlbs| == |y.tlbs| && Holds(y'.tlbs[call.core].l1d, call.va / 4096)
  {
    hide TlbOk, Holds, Walk, Small, OsOk, LeavesIn, M.Good, CachedData, OnlySmall, Translate2, M.Step;
    var t, root, mem := y.tlbs[call.core], y.roots[y.active], y.caches.mem;
    assert TlbsOk(t, root, mem);
    Translate2Keeps(t.l1d, t.l2d, root, mem, call.va);
  }

  lemma HitTranslates(l1: TlbArray, l2: TlbArray, root: Root, mem: seq<byte>, root': Root, mem': seq<byte>, va: nat)
    requires TlbOk(l1, root, mem) && Holds(l1, va / 4096)
    ensures FrameOf(root, mem, va / 4096).Some?
    ensures Translate2(l1, l2, root', mem', va).2 == Some(ToAddress(FrameOf(root, mem, va / 4096).value, va % 4096))
  {
    hide TlbOk, Holds, Walk, LookupIn, FillIn, PageWalk;
    LookupKeeps(l1, root, mem, va / 4096);
  }

  /** While a core's TLB holds a page of the running process, mapping the page again shows
      neither in that core's translation nor in what it loads: the page now walks to a frame
      of zeros, and the load returns the bytes of the old one. */
  lemma StaleEntryIsRead(y: System, own: Owners, core: nat, va: nat, size: nat, stamp: nat)
    requires SysOk(y, own) && core < |y.tlbs| && Small(va / 4096) && va % 64 + size <= LINE_SIZE
    requires Holds(y.tlbs[core].l1d, va / 4096)
    requires Affords(OsOf(y), y.active, va / 4096) && RoomForTables(OsOf(y), y.active, va / 4096)
    ensures Step(y, MapNew(y.active, va / 4096)).Done?
    ensures var p, u := y.active, va / 4096;
            var y1, load := Step(y, MapNew(p, u)).value.0, Access(core, va, M.Load(size), stamp);
            && y1.tlbs == y.tlbs && Fits(y1, load) && Page(y, p, u).Some?
            && va % 4096 + size <= |Page(y, p, u).value|
            && Page(y1, p, u) == Some(seq(PAGE_SIZE, _ => 0))
            && Step(y1, load).Done?
            && Step(y1, load).value.1 == Got(Page(y, p, u).value[va % 4096..va % 4096 + size])
  {
    hide TlbOk, Holds, Walk, Small, OsOk, LeavesIn, M.Good, CachedData, OnlySmall, Translate2, M.Step, MappedTo,
         AllocAndMap, Blank, SameData, Foretold, FrameBytes, J.Proj, Affords, RoomForTables, M.LineAfter;
    var p, u := y.active, va / 4096;
    var t, root, mem := y.tlbs[core], y.roots[p], y.caches.mem;
    assert TlbsOk(t, root, mem);
    HitTranslates(t.l1d, t.l2d, root, mem, root, mem, va);
    var f := WalkOf(OsOf(y), p, u).value;
    MappedFrame(OsOf(y), own, p, u);
    MappedZeros(y, own, u);
    var y1 := Step(y, MapNew(p, u)).value.0;
    HitTranslates(t.l1d, t.l2d, root, mem, y1.roots[p], y1.caches.mem, va);
    assert ToAddress(f / 4096, va % 4096) == f + va % 4096;
    LoadFromFrame(y1, core, va, size, stamp, f);
    assert Page(y, p, u) == Some(FrameBytes(y.caches, f));
    assert Fits(y1, Access(core, va, M.Load(size), stamp));
    assert y1.tlbs == y.tlbs;
    PageSize(y, p, u);
  }

  /** A load whose translation is in frame f. */
  lemma LoadFromFrame(y: System, core: nat, va: nat, size: nat, stamp: nat, f: nat)
    requires |y.tlbs| == |y.caches.cores| && y.active < |y.roots| && core < |y.tlbs| && M.Good(y.caches)
    requires va % 64 + size <= LINE_SIZE && f % PAGE_SIZE == 0 && f + PAGE_SIZE <= |y.caches.mem|
    requires Translated(y, core, va, false).1 == Some(f + va % 4096)
    ensures va % 4096 + size <= PAGE_SIZE
    ensures var r := Step(y, Access(core, va, M.Load(size), stamp));
            r.Done? && r.value.1 == Got(FrameBytes(y.caches, f)[va % 4096..va % 4096 + size])
  {
    hide M.Good, FrameBytes, Step, Translated;
    LineInFrame(f, va, size);
    LoadAt(y, core, va, size, stamp, f, va % 4096);
  }

  lemma LineInFrame(f: nat, va: nat, size: nat)
    requires f % PAGE_SIZE == 0 && va % 64 + size <= LINE_SIZE
    ensures var pa := f + va % 4096;
            && pa % 64 + size <= LINE_SIZE && va % 4096 + size <= PAGE_SIZE && 64 * (pa / 64) + 64 <= f + PAGE_SIZE
  {
    SameOffset(va);
    AtOffset(f, va % 4096, size);
  }

  lemma SameOffset(va: nat)
    ensures va % 4096 % 64 == va % 64
  {
  }

  lemma AtOffset(f: nat, o: nat, size: nat)
    requires f % PAGE_SIZE == 0 && o < PAGE_SIZE && o % 64 + size <= LINE_SIZE
    ensures (f + o) % 64 + size <= LINE_SIZE && o + size <= PAGE_SIZE && 64 * ((f + o) / 64) + 64 <= f + PAGE_SIZE
  {
    InFrame(f, o);
    assert o == o / 64 * 64 + o % 64;
  }

  lemma LoadAt(y: System, core: nat, va: nat, size: nat, stamp: nat, f: nat, o: nat)
    requires |y.tlbs| == |y.caches.cores| && y.active < |y.roots| && core < |y.tlbs| && M.Good(y.caches)
    requires va % 64 + size <= LINE_SIZE && f + PAGE_SIZE <= |y.caches.mem|
    requires (f + o) % 64 + size <= LINE_SIZE && o + size <= PAGE_SIZE && C.InMemory(y.caches.mem, (f + o) / 64)
    requires Translated(y, core, va, false).1 == Some(f + o)
    ensures var r := Step(y, Access(core, va, M.Load(size), stamp));
            r.Done? && r.value.1 == Got(FrameBytes(y.caches, f)[o..o + size])
  {
    hide M.Good, C.Read, Translated, FrameBytes, M.Bytes, J.Proj, Step;
    var s := y.caches.(stamp := stamp);
    M.Restamped(y.caches, stamp);
    M.SameBytes(y.caches, s);
    M.LoadReturnsBytes(s, core, f + o, size);
    AccessIsRead(y, core, va, size, stamp, f + o);
    FrameSlice(y.caches, f, o, size);
  }

  lemma AccessIsRead(y: System, core: nat, va: nat, size: nat, stamp: nat, pa: nat)
    requires |y.tlbs| == |y.caches.cores| && y.active < |y.roots| && core < |y.tlbs|
    requires va % 64 + size <= LINE_SIZE && pa % 64 + size <= LINE_SIZE
    requires Translated(y, core, va, false).1 == Some(pa)
    ensures var r := Step(y, Access(core, va, M.Load(size), stamp));
            var read := C.Read(y.caches.(stamp := stamp), core, pa, size);
            r.Done? == read.Done? && (r.Done? ==> r.value.1 == Got(read.value.1))
  {
    hide C.Read, Translated;
  }

  lemma FrameSlice(s: C.State, f: nat, o: nat, size: nat)
    requires f + PAGE_SIZE <= |s.mem| && o + size <= PAGE_SIZE
    ensures M.Bytes(s)[f + o..f + o + size] == FrameBytes(s, f)[o..o + size]
  {
    hide M.Bytes;
  }

  /** The second mapping itself, with the TLBs left aside. */
  lemma MappedZeros(y: System, own: Owners, u: nat)
    requires SysOk(y, own) && Small(u) && WalkOf(OsOf(y), y.active, u).Some?
    requires Affords(OsOf(y), y.active, u) && RoomForTables(OsOf(y), y.active, u)
    ensures var p, r := y.active, Step(y, MapNew(y.active, u));
            && r.Done?
            && var y1 := r.value.0;
               && r.value.1 == Frame(Some(NextFrame(y.fa)))
               && y1 == y.(caches := y1.caches, roots := y1.roots, fa := y1.fa)
               && y1.caches == y.caches.(mem := y1.caches.mem) && |y1.roots| == |y.roots|
               && |y1.caches.mem| == |y.caches.mem| && M.Good(y1.caches)
               && Page(y1, p, u) == Some(seq(PAGE_SIZE, _ => 0))
               && var f := WalkOf(OsOf(y), p, u).value;
                  f + PAGE_SIZE <= |y.caches.mem| && FrameBytes(y1.caches, f) == FrameBytes(y.caches, f)
  {
    hide AllTlbsOk, Walk, Small, OsOk, LeavesIn, M.Good, CachedData, MappedTo, AllocAndMap, Blank, SameData, FrameBytes,
         J.Proj, NewTables, RoomForTables, Affords, PathOf, PathSoFarOf;
    var p := y.active;
    var own' := AllocAndMapWorks(OsOf(y), own, p, u);
    var (os', got) := AllocAndMap(OsOf(y), p, u).value;
    StillFit(OsOf(y), own, p, u, os', got, own');
    MapThenWalk(os', own', p, u, got.value);
    MappedFrame(os', own', p, u);
    MappedFrame(OsOf(y), own, p, u);
    NewMemory(y.caches, os'.mem, own);
    SizeOfData(own, y.caches.mem, os'.mem);
    BlankReads(y.caches, os'.mem, own, got.value);
    DataReads(y.caches, os'.mem, own, WalkOf(OsOf(y), p, u).value);
  }

  // ---------------------------------------------------------------------------
  // A run
  // ---------------------------------------------------------------------------

  lemma {:induction false} NothingMissing(mem: seq<byte>, t: nat, l: nat, u: nat)
    requires l <= 2 && WalkFrom(mem, t, l, u).Some?
    ensures Missing(mem, t, l, u) == 0
    decreases l
  {
    hide ReadPte, Idx;
    if l == 0 {
    } else {
      NothingMissing(mem, ReadPte(mem, Slot(t, u, l)).pa, l - 1, u);
    }
  }

  /** Mapping a mapped page again takes one frame and no tables. */
  lemma MappedAffords(os: Os, p: nat, u: nat)
    requires p < |os.roots| && WalkOf(os, p, u).Some? && !OutOfFrames(os.fa)
    ensures Affords(os, p, u) && RoomForTables(os, p, u)
  {
    hide Missing, WalkFrom, Idx;
    NothingMissing(os.mem, os.roots[p][Idx(u, 3)].pa, 2, u);
    assert Upcoming(os.fa, 1) == [NextFrame(os.fa)] + Upcoming(Taken(os.fa), 0);
  }

  /** Map page 0, store b to its first byte, map it again, load the byte. */
  function Calls(b: byte): seq<Call> {
    [MapNew(0, 0), Access(0, 0, M.Store([b]), 0), MapNew(0, 0), Access(0, 0, M.Load(1), 0)]
  }

  function Answers(base: nat, b: byte): seq<Answer> {
    [Frame(Some(base)), Got([]), Frame(Some(base + 4 * PAGE_SIZE)), Got([b])]
  }

  /** From power-on the run returns b, through an entry for the page's first frame, while the
      page itself is a frame of zeros; private paged memory would return 0. */
  lemma RemappingMisleads(cores: nat, mem: seq<byte>, base: nat, limit: nat, b: byte)
    requires cores > 0 && base % PAGE_SIZE == 0 && base + 5 * PAGE_SIZE <= limit <= |mem| < WORD_LIMIT
    ensures var y := Init(cores, 1, mem, base, limit);
            && AllFit(y, Calls(b)) && Run(y, Calls(b)).Done?
            && Run(y, Calls(b)).value.1 == Answers(base, b)
    ensures b != 0 ==> VirtualRun(VirtualState(map[], 0), Calls(b), Answers(base, b)) == None
  {
    hide SysOk, Step, Page, Walk, Small, Clean, Init, Holds, Affords, RoomForTables;
    assert Small(0) by { ZeroIsSmall(); }
    var y0 := Init(cores, 1, mem, base, limit);
    var own0 := Owners(base, map[], {});
    InitWorks(cores, 1, mem, base, limit);
    InitFits(cores, mem, base, limit);
    var y1, own1 := FirstMapping(y0, own0, base, limit);
    var y2 := FirstStore(y1, own1, b);
    var y3 := SecondMapping(y2, own1, base, limit, b);
    RunsThrough(y0, y1, y2, y3, base, b);
    if b != 0 { VirtualDisagrees(base, b); }
  }

  lemma ZeroIsSmall()
    ensures Small(0)
  {
  }

  lemma InitFits(cores: nat, mem: seq<byte>, base: nat, limit: nat)
    ensures var y := Init(cores, 1, mem, base, limit);
            && |y.roots| == 1 && |y.tlbs| == |y.caches.cores| == cores && |y.caches.mem| == |mem| && y.active == 0
            && y.fa == FrameAllocator(base, limit, [])
            && forall i: nat :: i < PAGE_TABLE_ENTRIES ==> !y.roots[0][i].present
  {
  }

  lemma FirstMapping(y: System, own: Owners, base: nat, limit: nat) returns (y1: System, own1: Owners)
    requires SysOk(y, own) && Clean(y) && |y.roots| == 1 && y.active == 0 && Small(0)
    requires y.fa == FrameAllocator(base, limit, [])
    requires forall i: nat :: i < PAGE_TABLE_ENTRIES ==> !y.roots[0][i].present
    requires base + 5 * PAGE_SIZE <= limit <= |y.caches.mem|
    ensures Step(y, MapNew(0, 0)) == Done((y1, Frame(Some(base))))
    ensures SysOk(y1, own1) && y1.caches.lossless && |y1.roots| == 1 && y1.active == 0 && |y1.tlbs| == |y.tlbs|
        && |y1.caches.cores| == |y.caches.cores| && Clean(y1)
    ensures y1.fa == FrameAllocator(base + 4 * PAGE_SIZE, limit, []) && |y1.caches.mem| == |y.caches.mem|
    ensures Page(y1, 0, 0) == Some(seq(PAGE_SIZE, _ => 0))
  {
    hide AllTlbsOk, Small, M.Good, CachedData, FrameBytes, Running, Idx, AllocAndMap, MappedTo, Clean, OthersKept;
    FourFrames(base, limit);
    AfterFour(base, limit);
    assert WalkOf(OsOf(y), 0, 0) == None;
    assert NewTables(OsOf(y), 0, 0) == [base + PAGE_SIZE, base + 2 * PAGE_SIZE, base + 3 * PAGE_SIZE];
    hide NewTables;
    NewPageIsTame(y, own, 0, 0);
    var own' := AllocAndMapWorks(OsOf(y), own, 0, 0);
    own1 := MapPages(y, own, 0, 0);
    StepStaysClean(y, own, MapNew(0, 0));
    y1 := Step(y, MapNew(0, 0)).value.0;
    assert Clean(y1) by { MapIsNoLoad(y); }
    CleanIsLossless(y1);
  }

  lemma MapIsNoLoad(y: System)
    requires |y.tlbs| == |y.caches.cores| && y.active < |y.roots|
    ensures !DowngradesDirty(y, MapNew(0, 0))
  {
  }

  lemma AfterFour(base: nat, limit: nat)
    requires base + 4 * PAGE_SIZE <= limit
    ensures After(FrameAllocator(base, limit, []), 4) == FrameAllocator(base + 4 * PAGE_SIZE, limit, [])
  {
    var fa1 := FrameAllocator(base + PAGE_SIZE, limit, []);
    var fa2, fa3 := FrameAllocator(base + 2 * PAGE_SIZE, limit, []), FrameAllocator(base + 3 * PAGE_SIZE, limit, []);
    assert After(fa3, 1) == After(FrameAllocator(base + 4 * PAGE_SIZE, limit, []), 0);
    assert After(fa2, 2) == After(fa3, 1);
    assert After(fa1, 3) == After(fa2, 2);
  }

  lemma FirstStore(y: System, own: Owners, b: byte) returns (y1: System)
    requires SysOk(y, own) && Clean(y) && |y.roots| == 1 && y.active == 0 && |y.tlbs| > 0 && Small(0)
    requires |y.tlbs| == |y.caches.cores| && Page(y, 0, 0).Some?
    ensures Fits(y, Access(0, 0, M.Store([b]), 0)) && Step(y, Access(0, 0, M.Store([b]), 0)) == Done((y1, Got([])))
    ensures SysOk(y1, own) && y1.roots == y.roots && y1.fa == y.fa && y1.active == 0 && |y1.tlbs| == |y.tlbs|
    ensures |y1.caches.cores| == |y.caches.cores| && |y1.caches.mem| == |y.caches.mem|
    ensures Holds(y1.tlbs[0].l1d, 0)
    ensures Page(y1, 0, 0).Some? && |Page(y1, 0, 0).value| == PAGE_SIZE && Page(y1, 0, 0).value[0] == b
  {
    hide AllTlbsOk, Small, M.Good, CachedData, FrameBytes, Running, OthersKept, Walk, Clean, M.Step, Holds, Step,
         DowngradesDirty, LosesBytes;
    var call := Access(0, 0, M.Store([b]), 0);
    AccessKeeps(y, own, call);
    y1 := Step(y, call).value.0;
    assert OpOf(call, Physical(OsOf(y), 0, 0).value).kind.Store?;
    StepStaysClean(y, own, call);
    AccessLoses(y, own, call);
    CleanIsLossless(y);
    AccessPages(y, own, call);
    AccessHolds(y, own, call);
    M.StepOutput(y.caches, OpOf(call, Physical(OsOf(y), 0, 0).value));
    SameSize(y.caches, OpOf(call, Physical(OsOf(y), 0, 0).value));
    PageSize(y1, 0, 0);
  }

  lemma PageSize(y: System, p: nat, u: nat)
    requires p < |y.roots| && Page(y, p, u).Some?
    ensures |Page(y, p, u).value| == PAGE_SIZE
  {
    hide Walk, M.Bytes;
  }

  lemma SameSize(s: C.State, op: M.Op)
    requires M.Good(s) && op.Fits(|s.cores|) && M.Step(s, op).Done?
    ensures |M.Step(s, op).value.0.mem| == |s.mem| && |M.Step(s, op).value.0.cores| == |s.cores|
  {
    hide M.Good, M.Step, M.LineAfter;
    M.StepRefinesFlat(s, op);
  }

  lemma SecondMapping(y: System, own: Owners, base: nat, limit: nat, b: byte) returns (y1: System)
    requires SysOk(y, own) && |y.roots| == 1 && y.active == 0 && |y.tlbs| > 0 && Small(0)
    requires |y.tlbs| == |y.caches.cores| && Holds(y.tlbs[0].l1d, 0)
    requires y.fa == FrameAllocator(base + 4 * PAGE_SIZE, limit, [])
    requires base + 5 * PAGE_SIZE <= limit
    requires Page(y, 0, 0).Some? && |Page(y, 0, 0).value| == PAGE_SIZE && Page(y, 0, 0).value[0] == b
    ensures Step(y, MapNew(0, 0)) == Done((y1, Frame(Some(base + 4 * PAGE_SIZE))))
    ensures |y1.roots| == 1 && y1.active == 0 && |y1.tlbs| == |y.tlbs| == |y1.caches.cores|
    ensures Page(y1, 0, 0) == Some(seq(PAGE_SIZE, _ => 0))
    ensures Fits(y1, Access(0, 0, M.Load(1), 0)) && Step(y1, Access(0, 0, M.Load(1), 0)).Done?
        && Step(y1, Access(0, 0, M.Load(1), 0)).value.1 == Got([b])
  {
    hide SysOk, Small, FrameBytes, Holds, Affords, RoomForTables, Walk;
    assert WalkOf(OsOf(y), 0, 0).Some?;
    MappedAffords(OsOf(y), 0, 0);
    hide Step, Page;
    StaleEntryIsRead(y, own, 0, 0, 1, 0);
    MappedZeros(y, own, 0);
    y1 := Step(y, MapNew(0, 0)).value.0;
    assert Page(y, 0, 0).value[0..1] == [b];
  }

  lemma RunsThrough(y0: System, y1: System, y2: System, y3: System, base: nat, b: byte)
    requires |y0.tlbs| == |y0.caches.cores| > 0 && |y0.roots| == 1 && y0.active == 0
    requires Step(y0, MapNew(0, 0)) == Done((y1, Frame(Some(base))))
    requires Fits(y1, Access(0, 0, M.Store([b]), 0)) && Step(y1, Access(0, 0, M.Store([b]), 0)) == Done((y2, Got([])))
    requires Fits(y2, MapNew(0, 0)) && Step(y2, MapNew(0, 0)) == Done((y3, Frame(Some(base + 4 * PAGE_SIZE))))
    requires Fits(y3, Access(0, 0, M.Load(1), 0)) && Step(y3, Access(0, 0, M.Load(1), 0)).Done?
        && Step(y3, Access(0, 0, M.Load(1), 0)).value.1 == Got([b])
    ensures AllFit(y0, Calls(b)) && Run(y0, Calls(b)).Done? && Run(y0, Calls(b)).value.1 == Answers(base, b)
  {
    hide Step;
    var calls := Calls(b);
    FitsLater(y0, calls);
    assert calls[1..] == [calls[1], calls[2], calls[3]];
    FitsLater(y1, calls[1..]);
    assert calls[1..][1..] == [calls[2], calls[3]];
    FitsLater(y2, calls[1..][1..]);
    assert calls[1..][1..][1..] == [calls[3]];
    FitsLater(y3, calls[1..][1..][1..]);
    assert calls[1..][1..][1..][1..] == [];
    var y4 := Step(y3, calls[3]).value.0;
    assert Run(y4, []) == Done((y4, []));
    assert [Got([b])] + [] == [Got([b])];
    assert calls[1..][1..][1..][0] == calls[3] && calls[1..][1..][0] == calls[2] && calls[1..][0] == calls[1];
    assert Run(y3, [calls[3]]) == Done((y4, [Got([b])]));
    assert Run(y2, calls[1..][1..]) == Done((y4, [Frame(Some(base + 4 * PAGE_SIZE))] + [Got([b])]));
    assert Run(y1, calls[1..]) == Done((y4, [Got([])] + ([Frame(Some(base + 4 * PAGE_SIZE))] + [Got([b])])));
  }

  lemma VirtualDisagrees(base: nat, b: byte)
    requires b != 0
    ensures VirtualRun(VirtualState(map[], 0), Calls(b), Answers(base, b)) == None
  {
    var calls, answers := Calls(b), Answers(base, b);
    var zeros := seq(PAGE_SIZE, _ => 0);
    var v0 := VirtualState(map[], 0);
    var key := (0 as nat, Pre(0, 0));
    var v1 := v0.(pages := v0.pages[key := zeros]);
    var page := PatchPage(zeros, 0, [b]);
    var v2 := v1.(pages := v1.pages[key := page]);
    var v3 := v2.(pages := v2.pages[key := zeros]);
    assert VirtualStep(v0, calls[0], answers[0]) == Some(v1);
    assert VirtualStep(v1, calls[1], answers[1]) == Some(v2);
    assert VirtualStep(v2, calls[2], answers[2]) == Some(v3);
    assert zeros[0..1] == [0] && [b][0] != [0 as byte][0];
    assert VirtualStep(v3, calls[3], answers[3]) == None;
    hide VirtualStep, PatchPage;
    assert VirtualRun(v3, calls[1..][1..][1..], answers[1..][1..][1..]) == None;
    assert VirtualRun(v2, calls[1..][1..], answers[1..][1..]) == None;
    assert VirtualRun(v1, calls[1..], answers[1..]) == None;
  }
}
