/** What programs see: private, zero-filled pages behind virtual addresses. */
module Virtual {
  import opened Types
  import opened Paging
  import opened Frames
  import opened Mapping
  import opened Tlb
  import opened System
  import C = Caches
  import L = Coherence
  import J = Projection
  import S = Snoops
  import F = Flat
  import M = Machine
  import R = Runs

  /** The bytes of a frame as loads see them. */
  function FrameBytes(s: C.State, f: nat): seq<byte>
    requires f + PAGE_SIZE <= |s.mem|
  {
    M.Bytes(s)[f..f + PAGE_SIZE]
  }

  /** The bytes of process p's page u, if it is mapped. */
  function Page(y: System, p: nat, u: nat): Option<seq<byte>>
    requires p < |y.roots|
  {
    match WalkOf(OsOf(y), p, u)
    case None => None
    case Some(f) => if f + PAGE_SIZE <= |y.caches.mem| then Some(FrameBytes(y.caches, f)) else None
  }

  function PatchPage(page: seq<byte>, o: nat, bytes: seq<byte>): seq<byte>
    requires o + |bytes| <= |page|
  {
    page[..o] + bytes + page[o + |bytes|..]
  }

  // ---------------------------------------------------------------------------
  // Accesses
  // ---------------------------------------------------------------------------

  /** A store at offset o of frame f changes that frame as a page is patched and no other. */
  lemma StoredFrames(mem: seq<byte>, f: nat, o: nat, bytes: seq<byte>, g: nat)
    requires f % PAGE_SIZE == 0 && g % PAGE_SIZE == 0 && f + PAGE_SIZE <= |mem| && g + PAGE_SIZE <= |mem|
    requires o + |bytes| <= PAGE_SIZE
    ensures M.Stored(mem, f + o, bytes)[g..g + PAGE_SIZE]
         == if g == f then PatchPage(mem[f..f + PAGE_SIZE], o, bytes) else mem[g..g + PAGE_SIZE]
  {
    var mem' := M.Stored(mem, f + o, bytes);
    var page' := mem'[g..g + PAGE_SIZE];
    var page := if g == f then PatchPage(mem[f..f + PAGE_SIZE], o, bytes) else mem[g..g + PAGE_SIZE];
    if g != f { Apart(f, g); }
    forall i | 0 <= i < PAGE_SIZE ensures page'[i] == page[i] {
      assert page'[i] == mem'[g + i];
    }
  }

  /** What an access to page u at offset o, answered with `answer`, makes of the page. */
  predicate Accessed(page: seq<byte>, o: nat, kind: M.Kind, answer: Answer, page': seq<byte>) {
    match kind
    case Store(bytes) => o + |bytes| <= |page| && answer == Got([]) && page' == PatchPage(page, o, bytes)
    case Load(size) => o + size <= |page| && answer == Got(page[o..o + size]) && page' == page
    case Fetching(size) => o + size <= |page| && answer == Got(page[o..o + size]) && page' == page
  }

  /** Pages other than p's u hold what they held. */
  ghost predicate OthersKept(y: System, y': System, p: nat, u: nat) {
    && |y'.roots| == |y.roots|
    && forall q: nat, w :: q < |y.roots| && Small(w) && !SamePage(p, u, q, w) ==> Page(y', q, w) == Page(y, q, w)
  }

  /** Where the call's page is mapped, the call on physical memory loses bytes. */
  predicate LosesBytes(y: System, call: Call)
    requires Fits(y, call)
  {
    && call.Access?
    && var pa := Physical(OsOf(y), y.active, call.va);
       && pa.Some?
       && OpOf(call, pa.value).Fits(|y.caches.cores|)
       && M.Loses(y.caches, OpOf(call, pa.value))
  }

  /** An access that loses no bytes reads or writes its own page and no other page of any
      process. */
  lemma AccessPages(y: System, own: Owners, call: Call)
    requires SysOk(y, own) && Fits(y, call) && call.Access? && Small(call.va / 4096)
    requires Physical(OsOf(y), y.active, call.va).Some? && Step(y, call).Done?
    requires y.caches.lossless && !LosesBytes(y, call)
    ensures var (y', answer) := Step(y, call).value;
            var u := call.va / 4096;
            && Page(y, y.active, u).Some? && Page(y', y.active, u).Some?
            && Accessed(Page(y, y.active, u).value, call.va % 4096, call.kind, answer, Page(y', y.active, u).value)
            && OthersKept(y, y', y.active, u) && y'.caches.lossless
  {
    hide Walk, Small, Running, J.Proj, M.Good, AllTlbsOk, CachedData, M.Step, M.Bytes, Step, M.Stored, PatchPage,
         M.Loses;
    var (y', answer) := Step(y, call).value;
    var u, pa := call.va / 4096, Physical(OsOf(y), y.active, call.va).value;
    var op := OpOf(call, pa);
    AccessKeeps(y, own, call);
    M.StepRefinesFlat(y.caches, op);
    PhysicalIs(y, own, call.va, op.Width());
    var f := WalkOf(OsOf(y), y.active, u).value;
    if call.kind.Store? { StoredFrames(M.Bytes(y.caches), f, call.va % 4096, call.kind.bytes, f); }
    assert y'.roots == y.roots;
    assert WalkOf(OsOf(y'), y.active, u) == Some(f);
    assert Page(y, y.active, u) == Some(FrameBytes(y.caches, f));
    assert Page(y', y.active, u) == Some(FrameBytes(y'.caches, f));
    assert Accessed(Page(y, y.active, u).value, call.va % 4096, call.kind, answer, Page(y', y.active, u).value);
    forall q: nat, w | q < |y.roots| && Small(w) && !SamePage(y.active, u, q, w)
      ensures Page(y', q, w) == Page(y, q, w)
    {
      OtherPageKept(y, y', own, q, w, f, call);
    }
  }

  lemma OtherPageKept(y: System, y': System, own: Owners, q: nat, w: nat, f: nat, call: Call)
    requires SysOk(y, own) && q < |y.roots| && Small(w) && call.Access? && Small(call.va / 4096)
    requires WalkOf(OsOf(y), y.active, call.va / 4096) == Some(f) && !SamePage(y.active, call.va / 4096, q, w)
    requires f % PAGE_SIZE == 0 && f + PAGE_SIZE <= |y.caches.mem|
    requires |y'.roots| == |y.roots| && |y'.caches.mem| == |y.caches.mem|
    requires WalkOf(OsOf(y'), q, w) == WalkOf(OsOf(y), q, w)
    requires var op := OpOf(call, f + call.va % 4096);
             && call.va % 4096 + op.Width() <= PAGE_SIZE
             && M.Bytes(y'.caches) == M.FlatStep(M.Bytes(y.caches), op).0
    ensures Page(y', q, w) == Page(y, q, w)
  {
    hide Walk, Small, Running, M.Good, AllTlbsOk, CachedData, M.Bytes, M.Stored, PatchPage;
    var g := WalkOf(OsOf(y), q, w);
    if g.Some? {
      MappedFrame(OsOf(y), own, q, w);
      if g.value == f { OwnFrames(OsOf(y), own, y.active, call.va / 4096, q, w); }
      if call.kind.Store? { StoredFrames(M.Bytes(y.caches), f, call.va % 4096, call.kind.bytes, g.value); }
    }
  }

  // ---------------------------------------------------------------------------
  // Mapping
  // ---------------------------------------------------------------------------

  /** The kernel's writes to memory that no cache holds. */
  lemma NewMemory(s: C.State, mem: seq<byte>, own: Owners)
    requires M.Good(s) && CachedData(s, own) && SameData(own, s.mem, mem)
    ensures var s' := s.(mem := mem);
            && M.Good(s') && CachedData(s', own)
            && (forall m: nat :: PageBase(m) in own.data ==> J.Proj(s', m) == J.Proj(s, m))
            && (forall m: nat :: PageBase(m) !in own.data ==> F.ViewOf(s', m) == C.MemLine(mem, m))
  {
    hide L.Coherent, L.View, SameData;
    var s' := s.(mem := mem);
    assert |mem| == |s.mem| by { SizeOfData(own, s.mem, mem); }
    forall m: nat
      ensures J.Proj(s', m) == J.Proj(s, m).(mem := C.MemLine(mem, m)) && L.Coherent(J.Proj(s', m))
      ensures PageBase(m) in own.data ==> C.MemLine(mem, m) == C.MemLine(s.mem, m)
    {
      S.L2WayProj(s, m);
      J.ProjEquals(s', J.Proj(s, m).(mem := C.MemLine(mem, m)), m);
      MemoryOnly(J.Proj(s, m), C.MemLine(mem, m));
      if PageBase(m) in own.data { DataLine(s.mem, mem, own, m); }
    }
    forall m: nat | PageBase(m) !in own.data ensures F.ViewOf(s', m) == C.MemLine(mem, m) {
      M.UncachedView(s', m);
    }
  }

  lemma SizeOfData(own: Owners, mem: seq<byte>, mem': seq<byte>)
    requires SameData(own, mem, mem')
    ensures |mem'| == |mem|
  {
  }

  /** Coherence does not look at memory. */
  lemma MemoryOnly(x: L.LineState, line: Line)
    requires L.Coherent(x)
    ensures L.Coherent(x.(mem := line))
  {
  }

  lemma DataLine(mem: seq<byte>, mem': seq<byte>, own: Owners, m: nat)
    requires SameData(own, mem, mem') && PageBase(m) in own.data
    ensures C.MemLine(mem', m) == C.MemLine(mem, m)
  {
    if C.InMemory(mem, m) {
      forall a | 64 * m <= a < 64 * m + 64 ensures mem'[a] == mem[a] {
        assert a / 64 == m && a - a % PAGE_SIZE == PageBase(m);
      }
    }
  }

  /** Frames in use as data read as before. */
  lemma DataReads(s: C.State, mem: seq<byte>, own: Owners, f: nat)
    requires M.Good(s) && CachedData(s, own) && SameData(own, s.mem, mem)
    requires f in own.data && f % PAGE_SIZE == 0 && f + PAGE_SIZE <= |s.mem|
    ensures |mem| == |s.mem| && FrameBytes(s.(mem := mem), f) == FrameBytes(s, f)
  {
    hide J.Proj, M.Good, CachedData, SameData, L.View;
    NewMemory(s, mem, own);
    SizeOfData(own, s.mem, mem);
    forall a | f <= a < f + PAGE_SIZE ensures M.Bytes(s.(mem := mem))[a] == M.Bytes(s)[a] {
      InFrame(f, a - f);
      assert PageBase(a / 64) == f;
    }
  }

  /** A blank frame that no cache holds reads as zeros. */
  lemma BlankReads(s: C.State, mem: seq<byte>, own: Owners, f: nat)
    requires M.Good(s) && CachedData(s, own) && SameData(own, s.mem, mem)
    requires f !in own.data && f % PAGE_SIZE == 0 && Blank(mem, f)
    ensures |mem| == |s.mem| && FrameBytes(s.(mem := mem), f) == seq(PAGE_SIZE, _ => 0)
  {
    hide J.Proj, M.Good, CachedData, SameData, L.View;
    NewMemory(s, mem, own);
    SizeOfData(own, s.mem, mem);
    forall a | f <= a < f + PAGE_SIZE ensures M.Bytes(s.(mem := mem))[a] == 0 {
      InFrame(f, a - f);
      assert PageBase(a / 64) == f && C.InMemory(mem, a / 64);
      assert C.MemLine(mem, a / 64)[a % 64] == mem[a];
    }
  }

  /** Some TLB of some core has an entry for page u. */
  ghost predicate TlbsHold(tlbs: seq<CoreTlbs>, u: nat) { exists c: nat :: c < |tlbs| && HeldIn(tlbs[c], u) }

  ghost predicate HeldIn(t: CoreTlbs, u: nat) { EntryFor(t.l1d, u) || EntryFor(t.l2d, u) || EntryFor(t.itlb, u) }

  /** A mapping that the TLBs do not outlive: alloc_and_map will succeed, for a page of the
      running process that some TLB holds. */
  ghost predicate Outdates(y: System, p: nat, u: nat)
    requires p < |y.roots|
  {
    p == y.active && TlbsHold(y.tlbs, u) && Affords(OsOf(y), p, u)
  }

  /** Given that the page gets another frame, the TLBs of a core agree with the new tables
      exactly when the process is not running or they have no entry for the page. */
  lemma CoreAfterMap(t: CoreTlbs, os: Os, os': Os, p: nat, u: nat, q: nat)
    requires q < |os.roots| && OtherPages(os, os', p, u, true) && TlbsOk(t, os.roots[q], os.mem)
    requires p == q && WalkOf(os, q, u).Some? ==>
               FrameOf(os'.roots[q], os'.mem, u) != FrameOf(os.roots[q], os.mem, u)
    ensures TlbsOk(t, os'.roots[q], os'.mem) <==> p != q || !HeldIn(t, u)
  {
    hide TlbOk, OnlySmall, Walk, Pre, Small, EntryFor;
    MapKeepsTlb(t.l1d, os, os', p, u, q);
    MapKeepsTlb(t.l2d, os, os', p, u, q);
    MapKeepsTlb(t.itlb, os, os', p, u, q);
  }

  /** alloc_and_map leaves every TLB in agreement with the running process's tables exactly
      when it does not outdate them. */
  lemma MapAndTlbs(y: System, own: Owners, p: nat, u: nat)
    requires SysOk(y, own) && p < |y.roots| && Small(u)
    ensures var r := Step(y, MapNew(p, u));
            && r.Done?
            && var y' := r.value.0;
               && y'.tlbs == y.tlbs && y'.active == y.active < |y'.roots|
               && (AllTlbsOk(y'.tlbs, y'.roots[y'.active], y'.caches.mem) <==> !Outdates(y, p, u))
  {
    hide TlbsOk, Walk, Small, OsOk, LeavesIn, M.Good, CachedData, MappedTo, AllocAndMap, Blank, SameData, HeldIn,
         Affords, NewTables, PathOf, PathSoFarOf;
    var own' := AllocAndMapWorks(OsOf(y), own, p, u);
    var (os', got) := AllocAndMap(OsOf(y), p, u).value;
    if got.None? {
      forall c: nat | c < |y.tlbs| ensures TlbsOk(y.tlbs[c], os'.roots[y.active], os'.mem) {
        TlbsSurvive(y.tlbs[c], OsOf(y), os', y.active);
      }
    } else {
      NewFrameDiffers(OsOf(y), own, p, u, os', got.value, own');
      forall c: nat | c < |y.tlbs|
        ensures TlbsOk(y.tlbs[c], os'.roots[y.active], os'.mem) <==> p != y.active || !HeldIn(y.tlbs[c], u)
      {
        CoreAfterMap(y.tlbs[c], OsOf(y), os', p, u, y.active);
      }
    }
  }

  /** The frame handed out is not the one that the page had. */
  lemma NewFrameDiffers(os: Os, own: Owners, p: nat, u: nat, os': Os, f: nat, own': Owners)
    requires Running(os, own) && p < |os.roots| && Small(u) && AllocMaps(os, own, p, u, os', Some(f), own')
    ensures WalkOf(os, p, u).Some? ==> FrameOf(os'.roots[p], os'.mem, u) != FrameOf(os.roots[p], os.mem, u)
  {
    hide Walk, Small, MappedTo, OsOk, LeavesIn;
    MapThenWalk(os', own', p, u, f);
    if WalkOf(os, p, u).Some? {
      MappedFrame(os, own, p, u);
      if WalkOf(os', p, u).Some? { MappedFrame(os', own', p, u); }
    }
  }

  /** The frame that an answer hands out as data, if any. */
  function GivenBy(answer: Answer): set<nat> {
    if answer.Frame? && answer.pa.Some? then {answer.pa.value} else {}
  }

  /** alloc_and_map while the caches are full of data: every invariant holds again, a
      newly mapped page reads as zeros, and every other page of every process reads as
      it did. */
  lemma MapPages(y: System, own: Owners, p: nat, u: nat) returns (own': Owners)
    requires SysOk(y, own) && p < |y.roots| && Small(u) && RoomForTables(OsOf(y), p, u) && !Outdates(y, p, u)
    ensures var r := Step(y, MapNew(p, u));
            && r.Done? && r.value.1.Frame?
            && var (y', answer) := r.value;
               && SysOk(y', own') && y'.active == y.active && y'.caches == y.caches.(mem := y'.caches.mem)
               && |y'.caches.mem| == |y.caches.mem| && own'.base == own.base
               && y'.fa.watermark <= y.fa.watermark + 4 * PAGE_SIZE && own'.data == own.data + GivenBy(answer)
               && (match answer.pa
                   case None => forall q: nat, w :: q < |y.roots| && Small(w) ==> Page(y', q, w) == Page(y, q, w)
                   case Some(_) => Page(y', p, u) == Some(seq(PAGE_SIZE, _ => 0)) && OthersKept(y, y', p, u))
  {
    hide Walk, Small, OsOk, LeavesIn, J.Proj, M.Good, AllTlbsOk, CachedData, FrameBytes, MappedTo, AllocAndMap,
         Blank, SameData, Foretold, RoomForTables, Outdates;
    own' := AllocAndMapWorks(OsOf(y), own, p, u);
    var (os', got) := AllocAndMap(OsOf(y), p, u).value;
    NewMemory(y.caches, os'.mem, own);
    SizeOfData(own, y.caches.mem, os'.mem);
    MapAndTlbs(y, own, p, u);
    StillFit(OsOf(y), own, p, u, os', got, own');
    FewFrames(OsOf(y), own, p, u, os', got, own');
    var y' := y.(caches := y.caches.(mem := os'.mem), roots := os'.roots, fa := os'.fa);
    MoreCachedData(y'.caches, own, own');
    if got.Some? {
      MapThenWalk(os', own', p, u, got.value);
      MappedFrame(os', own', p, u);
      BlankReads(y.caches, os'.mem, own, got.value);
    }
    forall q: nat, w | q < |y.roots| && Small(w) && !(got.Some? && SamePage(p, u, q, w))
      ensures Page(y', q, w) == Page(y, q, w)
    {
      assert WalkOf(os', q, w) == WalkOf(OsOf(y), q, w);
      if WalkOf(OsOf(y), q, w).Some? {
        MappedFrame(OsOf(y), own, q, w);
        DataReads(y.caches, os'.mem, own, WalkOf(OsOf(y), q, w).value);
      }
    }
  }

  lemma MoreCachedData(s: C.State, own: Owners, own': Owners)
    requires CachedData(s, own) && own.data <= own'.data
    ensures CachedData(s, own')
  {
    hide J.Proj;
  }

  /** process_switch: whatever the TLBs held, they agree with the new process's tables. */
  lemma SwitchPages(y: System, own: Owners, p: nat)
    requires SysOk(y, own) && p < |y.roots|
    ensures var r := Step(y, Switch(p));
            && r.Done? && r.value.1 == Switched && SysOk(r.value.0, own) && r.value.0.active == p
            && r.value.0.caches == y.caches && r.value.0.fa == y.fa
            && forall q: nat, w :: q < |y.roots| ==> Page(r.value.0, q, w) == Page(y, q, w)
  {
    hide Walk, Running, M.Good, CachedData, TlbOk, OnlySmall, M.Bytes;
    forall c: nat | c < |y.tlbs| ensures TlbsOk(FlushAll(y.tlbs)[c], y.roots[p], y.caches.mem) {
      FlushOk(y.tlbs[c].l1d, y.roots[p], y.caches.mem);
      FlushOk(y.tlbs[c].l2d, y.roots[p], y.caches.mem);
      FlushOk(y.tlbs[c].itlb, y.roots[p], y.caches.mem);
    }
  }

  lemma FlushOk(tlb: TlbArray, root: Root, mem: seq<byte>)
    ensures TlbOk(Flush(tlb), root, mem) && OnlySmall(Flush(tlb))
  {
    FlushWorks(tlb, root, mem);
    forall i: nat, w: nat ensures !Entry(Flush(tlb), i, w) {}
  }

  // ---------------------------------------------------------------------------
  // The virtual machine
  // ---------------------------------------------------------------------------

  /** Pages by process and page number, and the running process. */
  datatype VirtualState = VirtualState(pages: map<(nat, nat), seq<byte>>, active: nat)

  /** The next state if `answer` is what private paged memory would answer. */
  function VirtualStep(v: VirtualState, call: Call, answer: Answer): Option<VirtualState> {
    match call
    case Access(_, va, kind, _) =>
      var key, o := (v.active, Pre(va / 4096, 0)), va % 4096;
      if key !in v.pages then (if answer == Fault then Some(v) else None) else
      var page := v.pages[key];
      var page' := if kind.Store? && o + |kind.bytes| <= |page| then PatchPage(page, o, kind.bytes) else page;
      if Accessed(page, o, kind, answer, page') then Some(v.(pages := v.pages[key := page'])) else None
    case MapNew(p, u) =>
      if !answer.Frame? then None
      else if answer.pa.None? then Some(v)
      else Some(v.(pages := v.pages[(p, Pre(u, 0)) := seq(PAGE_SIZE, _ => 0)]))
    case Switch(p) =>
      if answer == Switched then Some(v.(active := p)) else None
  }

  function VirtualRun(v: VirtualState, calls: seq<Call>, answers: seq<Answer>): Option<VirtualState>
    requires |calls| == |answers|
    decreases |calls|
  {
    if calls == [] then Some(v) else
    var v1 := VirtualStep(v, calls[0], answers[0]);
    if v1.None? then None else VirtualRun(v1.value, calls[1..], answers[1..])
  }

  function Lookup(v: VirtualState, p: nat, u: nat): Option<seq<byte>> {
    if (p, Pre(u, 0)) in v.pages then Some(v.pages[(p, Pre(u, 0))]) else None
  }

  /** The machine's pages are the virtual machine's. */
  ghost predicate Mirrors(y: System, v: VirtualState) {
    && v.active == y.active
    && forall p: nat, u :: p < |y.roots| && Small(u) ==> Page(y, p, u) == Lookup(v, p, u)
  }

  /** What the machine asks of a call: indices that the tables have room for, new tables
      that page_walk will accept, and no mapping that outdates a TLB. */
  ghost predicate Tame(y: System, call: Call)
    requires Fits(y, call)
  {
    match call
    case Access(_, va, _, _) => Small(va / 4096)
    case MapNew(p, u) => Small(u) && RoomForTables(OsOf(y), p, u) && !Outdates(y, p, u)
    case Switch(_) => true
  }

  lemma AccessLoses(y: System, own: Owners, call: Call)
    requires SysOk(y, own) && Fits(y, call) && call.Access? && Small(call.va / 4096) && Step(y, call).Done?
    ensures Step(y, call).value.0.caches.lossless <==> y.caches.lossless && !LosesBytes(y, call)
  {
    hide Walk, Small, Running, J.Proj, AllTlbsOk, CachedData, M.Good, M.Step, M.Loses, Step, M.LineAfter;
    AccessKeeps(y, own, call);
    var pa := Physical(OsOf(y), y.active, call.va);
    if pa.Some? { M.StepLoses(y.caches, OpOf(call, pa.value)); }
  }

  lemma AccessIsVirtual(y: System, own: Owners, v: VirtualState, call: Call)
    requires SysOk(y, own) && (y.caches.lossless ==> Mirrors(y, v))
    requires Fits(y, call) && call.Access? && Small(call.va / 4096) && Step(y, call).Done?
    ensures var (y', answer) := Step(y, call).value;
            && SysOk(y', own)
            && (y'.caches.lossless <==> y.caches.lossless && !LosesBytes(y, call))
            && (y'.caches.lossless ==>
                  && VirtualStep(v, call, answer).Some? && Mirrors(y', VirtualStep(v, call, answer).value))
  {
    hide SysOk, Walk, Small, Pre, PatchPage, Step, FrameBytes;
    var u := call.va / 4096;
    var (y', answer) := Step(y, call).value;
    AccessKeeps(y, own, call);
    AccessLoses(y, own, call);
    if Physical(OsOf(y), y.active, call.va).None? {
      assert y.caches.lossless ==> Page(y, y.active, u) == Lookup(v, y.active, u);
      forall q: nat, w | q < |y.roots| && Small(w) ensures Page(y', q, w) == Page(y, q, w) {}
    } else if y'.caches.lossless {
      AccessPages(y, own, call);
      assert Page(y, y.active, u) == Lookup(v, y.active, u);
      forall q: nat, w | q < |y.roots| && Small(w) && SamePage(y.active, u, q, w)
        ensures Page(y', q, w) == Page(y', y.active, u)
      {
        SameWalk(y'.roots[q], y'.caches.mem, w, u);
      }
    }
  }

  lemma MapIsVirtual(y: System, y': System, v: VirtualState, p: nat, u: nat, pa: Option<nat>)
    requires Mirrors(y, v) && p < |y.roots| == |y'.roots| && Small(u) && y'.active == y.active
    requires match pa
             case None => forall q: nat, w :: q < |y.roots| && Small(w) ==> Page(y', q, w) == Page(y, q, w)
             case Some(_) => Page(y', p, u) == Some(seq(PAGE_SIZE, _ => 0)) && OthersKept(y, y', p, u)
    ensures VirtualStep(v, MapNew(p, u), Frame(pa)).Some?
    ensures Mirrors(y', VirtualStep(v, MapNew(p, u), Frame(pa)).value)
  {
    hide Walk, Small, Pre, FrameBytes;
    if pa.Some? {
      forall q: nat, w | q < |y.roots| && Small(w) && SamePage(p, u, q, w) ensures Page(y', q, w) == Page(y', p, u) {
        SameWalk(y'.roots[q], y'.caches.mem, w, u);
      }
    }
  }

  /** One call of the machine that lost no bytes is one step of the virtual machine. */
  lemma StepIsVirtual(y: System, own: Owners, v: VirtualState, call: Call) returns (own': Owners)
    requires SysOk(y, own) && (y.caches.lossless ==> Mirrors(y, v))
    requires Fits(y, call) && Tame(y, call) && Step(y, call).Done?
    ensures var (y', answer) := Step(y, call).value;
            && SysOk(y', own')
            && (y'.caches.lossless <==> y.caches.lossless && !LosesBytes(y, call))
            && (y'.caches.lossless ==>
                  && VirtualStep(v, call, answer).Some? && Mirrors(y', VirtualStep(v, call, answer).value))
  {
    hide SysOk, Walk, Small, Pre, PatchPage, Step, FrameBytes, Page, OthersKept;
    own' := own;
    match call {
      case Access(_, va, _, _) =>
        AccessIsVirtual(y, own, v, call);
      case MapNew(p, u) =>
        own' := MapPages(y, own, p, u);
        if y.caches.lossless { MapIsVirtual(y, Step(y, call).value.0, v, p, u, Step(y, call).value.1.pa); }
      case Switch(p) =>
        SwitchPages(y, own, p);
    }
  }

  // ---------------------------------------------------------------------------
  // Runs
  // ---------------------------------------------------------------------------

  predicate AllFit(y: System, calls: seq<Call>) {
    |y.tlbs| == |y.caches.cores| && y.active < |y.roots| && forall i :: 0 <= i < |calls| ==> Fits(y, calls[i])
  }

  function Run(y: System, calls: seq<Call>): (r: Outcome<(System, seq<Answer>)>)
    requires AllFit(y, calls)
    ensures r.Done? ==> |r.value.1| == |calls|
    decreases |calls|
  {
    if calls == [] then Done((y, [])) else
    var (y1, answer) :- Step(y, calls[0]);
    FitsLater(y, calls);
    var (y2, answers) :- Run(y1, calls[1..]);
    Done((y2, [answer] + answers))
  }

  ghost predicate AllTame(y: System, calls: seq<Call>)
    requires AllFit(y, calls)
    decreases |calls|
  {
    calls == [] ||
    (assert Fits(y, calls[0]);
     Tame(y, calls[0]) &&
     (Step(y, calls[0]).Done? ==>
        (FitsLater(y, calls);
         AllTame(Step(y, calls[0]).value.0, calls[1..]))))
  }

  /** No access of the run loses bytes. */
  ghost predicate NeverLoses(y: System, calls: seq<Call>)
    requires AllFit(y, calls)
    decreases |calls|
  {
    calls == [] ||
    (assert Fits(y, calls[0]);
     !LosesBytes(y, calls[0]) &&
     (Step(y, calls[0]).Done? ==>
        (FitsLater(y, calls);
         NeverLoses(Step(y, calls[0]).value.0, calls[1..]))))
  }

  /** Any run of loads, stores and fetches by any cores, page mappings and process
      switches keeps every invariant; and if none of its accesses loses bytes, its answers
      are those of private zero-filled pages, one set for each process. */
  lemma {:induction false} RunIsVirtual(y: System, own: Owners, v: VirtualState, calls: seq<Call>)
    returns (own': Owners)
    requires SysOk(y, own) && AllFit(y, calls) && AllTame(y, calls) && Run(y, calls).Done?
    requires y.caches.lossless ==> Mirrors(y, v)
    ensures var (y', answers) := Run(y, calls).value;
            && SysOk(y', own')
            && (y'.caches.lossless <==> y.caches.lossless && NeverLoses(y, calls))
            && (y.caches.lossless && NeverLoses(y, calls) ==>
                  VirtualRun(v, calls, answers).Some? && Mirrors(y', VirtualRun(v, calls, answers).value))
    decreases |calls|
  {
    hide SysOk, Mirrors, VirtualStep, Step, Tame, Fits, LosesBytes;
    own' := own;
    if calls == [] {
    } else {
      FitsLater(y, calls);
      var own1 := StepIsVirtual(y, own, v, calls[0]);
      var (y1, answer) := Step(y, calls[0]).value;
      var v1 := VirtualStep(v, calls[0], answer);
      own' := RunIsVirtual(y1, own1, if v1.Some? then v1.value else v, calls[1..]);
      var (y2, answers) := Run(y1, calls[1..]).value;
      assert ([answer] + answers)[1..] == answers;
    }
  }

  lemma FitsLater(y: System, calls: seq<Call>)
    requires calls != [] && AllFit(y, calls) && Step(y, calls[0]).Done?
    ensures AllFit(Step(y, calls[0]).value.0, calls[1..])
  {
    hide Step;
    var y1 := Step(y, calls[0]).value.0;
    forall i | 0 <= i < |calls[1..]| ensures Fits(y1, calls[1..][i]) { assert Fits(y, calls[i + 1]); }
  }

  // ---------------------------------------------------------------------------
  // Runs that lose nothing
  // ---------------------------------------------------------------------------

  ghost predicate Clean(y: System) { y.caches.lossless && M.AllClean(y.caches) }

  /** The call is a load that downgrades bytes which memory has not got. */
  predicate DowngradesDirty(y: System, call: Call)
    requires Fits(y, call)
  {
    && call.Access?
    && var pa := Physical(OsOf(y), y.active, call.va);
       && pa.Some?
       && OpOf(call, pa.value).Fits(|y.caches.cores|)
       && M.DirtyDowngrade(y.caches, OpOf(call, pa.value))
  }

  lemma StepStaysClean(y: System, own: Owners, call: Call)
    requires SysOk(y, own) && Clean(y) && Fits(y, call) && Tame(y, call) && Step(y, call).Done?
    ensures var y' := Step(y, call).value.0;
            y'.caches.lossless && (Clean(y') <==> !DowngradesDirty(y, call))
  {
    hide Walk, Small, Running, J.Proj, M.Good, AllTlbsOk, CachedData, M.Step, M.DirtyDowngrade, M.AllClean, AllocAndMap;
    match call {
      case Access(core, va, kind, stamp) =>
        AccessKeeps(y, own, call);
        var pa := Physical(OsOf(y), y.active, va);
        if pa.Some? { M.CleanStep(y.caches, OpOf(call, pa.value)); }
      case MapNew(p, u) =>
        var own' := AllocAndMapWorks(OsOf(y), own, p, u);
        CleanMemory(y.caches, Step(y, call).value.0.caches.mem, own);
      case Switch(p) =>
    }
  }

  lemma CleanMemory(s: C.State, mem: seq<byte>, own: Owners)
    requires M.Good(s) && CachedData(s, own) && SameData(own, s.mem, mem) && M.AllClean(s)
    ensures M.AllClean(s.(mem := mem))
  {
    hide J.Proj, M.Good, SameData;
    NewMemory(s, mem, own);
    forall m: nat ensures !F.StaleIn(s.(mem := mem), m) {
      assert !F.StaleIn(s, m);
    }
  }

  ghost predicate NeverDirty(y: System, calls: seq<Call>)
    requires AllFit(y, calls)
    decreases |calls|
  {
    calls == [] ||
    (assert Fits(y, calls[0]);
     !DowngradesDirty(y, calls[0]) &&
     (Step(y, calls[0]).Done? ==>
        (FitsLater(y, calls);
         NeverDirty(Step(y, calls[0]).value.0, calls[1..]))))
  }

  /** Without a dirty downgrade the machine is private paged memory, whatever it evicts
      and prefetches. */
  lemma {:induction false} CleanRunIsVirtual(y: System, own: Owners, v: VirtualState, calls: seq<Call>)
    requires SysOk(y, own) && Clean(y) && Mirrors(y, v)
    requires AllFit(y, calls) && AllTame(y, calls) && NeverDirty(y, calls) && Run(y, calls).Done?
    ensures var (y', answers) := Run(y, calls).value;
            && Clean(y') && VirtualRun(v, calls, answers).Some? && Mirrors(y', VirtualRun(v, calls, answers).value)
    decreases |calls|
  {
    hide SysOk, Mirrors, VirtualStep, Step, Tame, Fits, DowngradesDirty, Clean;
    if calls == [] {
    } else {
      FitsLater(y, calls);
      StepStaysClean(y, own, calls[0]);
      var own1 := StepIsVirtual(y, own, v, calls[0]);
      var (y1, answer) := Step(y, calls[0]).value;
      assert y.caches.lossless by { CleanIsLossless(y); }
      var v1 := VirtualStep(v, calls[0], answer);
      CleanRunIsVirtual(y1, own1, v1.value, calls[1..]);
      var (y2, answers) := Run(y1, calls[1..]).value;
      assert ([answer] + answers)[1..] == answers;
    }
  }

  lemma CleanIsLossless(y: System)
    requires Clean(y)
    ensures y.caches.lossless
  {
  }

  /** Every access of the run is by core c. */
  predicate AccessesBy(calls: seq<Call>, c: nat) {
    forall i :: 0 <= i < |calls| && calls[i].Access? ==> calls[i].core == c
  }

  /** A core that alone has copies has nobody to downgrade, and alone has copies afterwards. */
  lemma OnlyCoreStays(y: System, own: Owners, call: Call, c: nat)
    requires SysOk(y, own) && Fits(y, call) && Tame(y, call) && R.OnlyCore(y.caches, c)
    requires call.Access? ==> call.core == c
    ensures !DowngradesDirty(y, call)
    ensures Step(y, call).Done? ==> R.OnlyCore(Step(y, call).value.0.caches, c)
  {
    hide Walk, Small, Running, J.Proj, M.Good, AllTlbsOk, CachedData, M.Step, M.DirtyDowngrade, R.OnlyCore, AllocAndMap,
         RoomForTables, Outdates;
    match call {
      case Access(core, va, kind, stamp) =>
        AccessKeeps(y, own, call);
        var pa := Physical(OsOf(y), y.active, va);
        if pa.Some? {
          R.OnlyCoreAlone(y.caches, OpOf(call, pa.value));
          if Step(y, call).Done? { R.OnlyCoreStep(y.caches, OpOf(call, pa.value)); }
        }
      case MapNew(p, u) =>
        if Step(y, call).Done? { OnlyCoreMemory(y.caches, Step(y, call).value.0.caches.mem, c); }
      case Switch(p) =>
    }
  }

  lemma OnlyCoreMemory(s: C.State, mem: seq<byte>, c: nat)
    requires R.OnlyCore(s, c)
    ensures R.OnlyCore(s.(mem := mem), c)
  {
    forall m: nat, b: nat | L.Shares(J.Proj(s.(mem := mem), m).l2, b) ensures b == c {
      assert L.Shares(J.Proj(s, m).l2, b);
    }
  }

  lemma {:induction false} OneCoreRuns(y: System, own: Owners, calls: seq<Call>, c: nat)
    requires SysOk(y, own) && AllFit(y, calls) && AllTame(y, calls) && R.OnlyCore(y.caches, c) && AccessesBy(calls, c)
    ensures NeverDirty(y, calls)
    decreases |calls|
  {
    hide SysOk, Step, Tame, DowngradesDirty, R.OnlyCore;
    if calls == [] {
    } else {
      assert Fits(y, calls[0]);
      OnlyCoreStays(y, own, calls[0], c);
      if Step(y, calls[0]).Done? {
        FitsLater(y, calls);
        var own1 := StepKeeps(y, own, calls[0]);
        OneCoreRuns(Step(y, calls[0]).value.0, own1, calls[1..], c);
      }
    }
  }

  lemma StepKeeps(y: System, own: Owners, call: Call) returns (own': Owners)
    requires SysOk(y, own) && Fits(y, call) && Tame(y, call) && Step(y, call).Done?
    ensures SysOk(Step(y, call).value.0, own') && own'.base == own.base
    ensures var (y', answer) := Step(y, call).value;
            && own'.data == own.data + GivenBy(answer)
            && y'.fa.watermark <= y.fa.watermark + if call.MapNew? then 4 * PAGE_SIZE else 0
  {
    hide SysOk, Walk, Small, Step, FrameBytes, Page, OthersKept;
    own' := own;
    match call {
      case Access(_, _, _, _) => AccessKeeps(y, own, call);
      case MapNew(p, u) => own' := MapPages(y, own, p, u);
      case Switch(p) => SwitchPages(y, own, p);
    }
  }

  // ---------------------------------------------------------------------------
  // From power-on
  // ---------------------------------------------------------------------------

  function EmptyTlb(n: nat): TlbArray
    requires n > 0
  {
    seq(n, _ => EmptyTlbSet())
  }

  /** A zero-initialised CPU, empty processes, and an allocator that has issued nothing. */
  function Init(cores: nat, procs: nat, mem: seq<byte>, base: nat, limit: nat): System {
    System(C.Init(cores, mem), InitOs(procs, mem, base, limit).roots, FrameAllocator(base, limit, []),
           seq(cores, _ => CoreTlbs(EmptyTlb(L1_DTLB_SETS), EmptyTlb(L2_DTLB_SETS), EmptyTlb(ITLB_SETS))), 0)
  }

  lemma InitWorks(cores: nat, procs: nat, mem: seq<byte>, base: nat, limit: nat)
    requires procs > 0 && base % PAGE_SIZE == 0 && base <= limit <= |mem| < WORD_LIMIT
    ensures var y := Init(cores, procs, mem, base, limit);
            SysOk(y, Owners(base, map[], {})) && Clean(y) && Mirrors(y, VirtualState(map[], 0))
  {
    hide J.Proj, M.Good, Walk, Small, OsOk, LeavesIn;
    var y := Init(cores, procs, mem, base, limit);
    M.InitGood(cores, mem);
    InitRunning(procs, mem, base, limit);
    forall m: nat ensures !F.StaleIn(y.caches, m) {}
    forall c: nat | c < cores ensures TlbsOk(y.tlbs[c], y.roots[0], mem) {
      EmptyTlbOk(L1_DTLB_SETS, y.roots[0], mem);
      EmptyTlbOk(L2_DTLB_SETS, y.roots[0], mem);
      EmptyTlbOk(ITLB_SETS, y.roots[0], mem);
    }
    forall p: nat, u | p < procs ensures Page(y, p, u) == None { assert WalkOf(OsOf(y), p, u) == None; }
  }

  lemma EmptyTlbOk(n: nat, root: Root, mem: seq<byte>)
    requires n > 0
    ensures TlbOk(EmptyTlb(n), root, mem) && OnlySmall(EmptyTlb(n))
  {
    forall i: nat, w: nat ensures !Entry(EmptyTlb(n), i, w) {}
  }

  /** With any number of cores, if one of them makes all the accesses, the machine from
      power-on is private paged memory, unconditionally. */
  lemma OneCoreIsVirtual(cores: nat, procs: nat, mem: seq<byte>, base: nat, limit: nat, calls: seq<Call>, c: nat)
    requires procs > 0 && base % PAGE_SIZE == 0 && base <= limit <= |mem| < WORD_LIMIT && AccessesBy(calls, c)
    requires var y := Init(cores, procs, mem, base, limit);
             AllFit(y, calls) && AllTame(y, calls) && Run(y, calls).Done?
    ensures var (y', answers) := Run(Init(cores, procs, mem, base, limit), calls).value;
            && VirtualRun(VirtualState(map[], 0), calls, answers).Some?
            && Mirrors(y', VirtualRun(VirtualState(map[], 0), calls, answers).value)
  {
    hide SysOk, Mirrors, Run, AllTame, Clean, NeverDirty, R.OnlyCore;
    var y := Init(cores, procs, mem, base, limit);
    InitWorks(cores, procs, mem, base, limit);
    R.InitClean(cores, mem);
    OneCoreRuns(y, Owners(base, map[], {}), calls, c);
    CleanRunIsVirtual(y, Owners(base, map[], {}), VirtualState(map[], 0), calls);
  }
}
