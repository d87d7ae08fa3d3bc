/** The whole machine: processes and their page tables, TLBs and caches, run by virtual
    addresses. */
module System {
  import opened Types
  import opened Paging
  import opened Frames
  import opened Mapping
  import opened Tlb
  import C = Caches
  import L = Coherence
  import J = Projection
  import S = Snoops
  import F = Flat
  import M = Machine

  datatype CoreTlbs = CoreTlbs(l1d: TlbArray, l2d: TlbArray, itlb: TlbArray)

  /** Every core's active_pml4 is the root of process `active`. */
  datatype System = System(caches: C.State, roots: seq<Root>, fa: FrameAllocator, tlbs: seq<CoreTlbs>, active: nat)

  /** One cpu_* call by virtual address, one alloc_and_map, or one process_switch. */
  datatype Call =
    | Access(core: nat, va: nat, kind: M.Kind, stamp: nat)
    | MapNew(proc: nat, page: nat)
    | Switch(proc: nat)

  datatype Answer = Fault | Got(bytes: seq<byte>) | Frame(pa: Option<nat>) | Switched

  function OsOf(y: System): Os { Os(y.roots, y.caches.mem, y.fa) }

  predicate Fits(y: System, call: Call) {
    && |y.tlbs| == |y.caches.cores| && y.active < |y.roots|
    && match call
       case Access(core, va, kind, _) => core < |y.tlbs| && va % 64 + M.Op(core, va, kind, 0).Width() <= LINE_SIZE
       case MapNew(proc, _) => proc < |y.roots|
       case Switch(proc) => proc < |y.roots|
  }

  /** The translation at the head of a cpu_* call. */
  function Translated(y: System, core: nat, va: nat, fetching: bool): (r: (System, Option<nat>))
    requires core < |y.tlbs| && y.active < |y.roots|
    ensures r.0 == y.(tlbs := r.0.tlbs) && |r.0.tlbs| == |y.tlbs|
  {
    var t, root, mem := y.tlbs[core], y.roots[y.active], y.caches.mem;
    if fetching then
      var (i, pa) := Translate(t.itlb, root, mem, va);
      (y.(tlbs := y.tlbs[core := t.(itlb := i)]), pa)
    else
      var (a, b, pa) := Translate2(t.l1d, t.l2d, root, mem, va);
      (y.(tlbs := y.tlbs[core := t.(l1d := a, l2d := b)]), pa)
  }

  function FlushAll(tlbs: seq<CoreTlbs>): (r: seq<CoreTlbs>)
    ensures |r| == |tlbs|
  {
    seq(|tlbs|, c requires 0 <= c < |tlbs| => CoreTlbs(Flush(tlbs[c].l1d), Flush(tlbs[c].l2d), Flush(tlbs[c].itlb)))
  }

  /** An access whose physical address would cross a line aborts, as the source asserts. */
  function Step(y: System, call: Call): (r: Outcome<(System, Answer)>)
    requires Fits(y, call)
    ensures r.Done? ==> |r.value.0.tlbs| == |y.tlbs| && |r.value.0.caches.cores| == |y.caches.cores|
    ensures r.Done? ==> |r.value.0.roots| == |y.roots| && r.value.0.active < |y.roots|
  {
    match call
    case Access(core, va, kind, stamp) =>
      var (y1, pa) := Translated(y, core, va, kind.Fetching?);
      if pa.None? then Done((y1, Fault)) else
      var op := M.Op(core, pa.value, kind, stamp);
      if !op.Fits(|y.caches.cores|) then Abort else
      var (caches, out) :- M.Step(y1.caches, op);
      Done((y1.(caches := caches), Got(out)))
    case MapNew(proc, page) =>
      var (os, got) :- AllocAndMap(OsOf(y), proc, page);
      Done((y.(caches := y.caches.(mem := os.mem), roots := os.roots, fa := os.fa), Frame(got)))
    case Switch(proc) =>
      Done((y.(active := proc, tlbs := FlushAll(y.tlbs)), Switched))
  }

  // ---------------------------------------------------------------------------
  // What holds between calls
  // ---------------------------------------------------------------------------

  ghost predicate TlbsOk(t: CoreTlbs, root: Root, mem: seq<byte>) {
    && TlbOk(t.l1d, root, mem) && TlbOk(t.l2d, root, mem) && TlbOk(t.itlb, root, mem)
    && OnlySmall(t.l1d) && OnlySmall(t.l2d) && OnlySmall(t.itlb)
  }

  ghost predicate AllTlbsOk(tlbs: seq<CoreTlbs>, root: Root, mem: seq<byte>) {
    forall c: nat :: c < |tlbs| ==> TlbsOk(tlbs[c], root, mem)
  }

  function PageBase(m: nat): nat { m / 64 * PAGE_SIZE }

  /** Whatever line is cached lies in a frame in use as data, never in a table. */
  ghost predicate CachedData(s: C.State, own: Owners) {
    forall m: nat :: J.Proj(s, m).l2.InL2? ==> PageBase(m) in own.data
  }

  ghost predicate SysOk(y: System, own: Owners) {
    && M.Good(y.caches) && Running(OsOf(y), own) && CachedData(y.caches, own)
    && |y.tlbs| == |y.caches.cores| && y.active < |y.roots|
    && AllTlbsOk(y.tlbs, y.roots[y.active], y.caches.mem)
    && TablesFit(|y.caches.mem|, own)
  }

  // ---------------------------------------------------------------------------
  // Translating
  // ---------------------------------------------------------------------------

  /** Where a virtual address is: its page's frame plus its offset. */
  function Physical(os: Os, p: nat, va: nat): Option<nat>
    requires p < |os.roots|
  {
    match WalkOf(os, p, va / 4096) case None => None case Some(f) => Some(f + va % 4096)
  }

  lemma TranslatedIs(y: System, own: Owners, core: nat, va: nat, fetching: bool)
    requires SysOk(y, own) && core < |y.tlbs| && Small(va / 4096)
    ensures var (y1, pa) := Translated(y, core, va, fetching);
            && AllTlbsOk(y1.tlbs, y.roots[y.active], y.caches.mem)
            && pa == Physical(OsOf(y), y.active, va)
  {
    hide TlbOk, OnlySmall, Walk, Translate, Translate2, Running, PageWalk, Small;
    var t, root, mem := y.tlbs[core], y.roots[y.active], y.caches.mem;
    var v, o := va / 4096, va % 4096;
    assert TlbsOk(t, root, mem);
    if Walk(root, mem, v).Some? { MappedFrame(OsOf(y), own, y.active, v); }
    assert AlignedLeaf(root, mem, v);
    AlignedWalk(root, mem, va);
    assert va == v * 4096 + o;
    if fetching {
      TranslateKeeps(t.itlb, root, mem, va);
      TranslateSmall(t.itlb, root, mem, va);
      TranslateIsWalk(t.itlb, root, mem, v);
      assert WalksTo(root, mem, v, o, At(t.itlb, root, mem, v, o));
    } else {
      Translate2Keeps(t.l1d, t.l2d, root, mem, va);
      Translate2Small(t.l1d, t.l2d, root, mem, va);
      Translate2IsWalk(t.l1d, t.l2d, root, mem, v);
      assert WalksTo(root, mem, v, o, At2(t.l1d, t.l2d, root, mem, v, o));
    }
  }

  lemma AlignedWalk(root: Root, mem: seq<byte>, va: nat)
    requires AlignedLeaf(root, mem, va / 4096)
    ensures PageWalk(root, mem, va) ==
            match Walk(root, mem, va / 4096) case None => None case Some(f) => Some(f + va % 4096)
  {
    hide Walk, OrOffset;
    var f := Walk(root, mem, va / 4096);
    if f.Some? { OrOffsetIs(f.value, va % 4096); }
  }

  // ---------------------------------------------------------------------------
  // Accesses leave the tables alone
  // ---------------------------------------------------------------------------

  /** A cpu_* call on line n writes memory only where a MODIFIED line of a data frame
      goes back. */
  lemma LineStays(s: C.State, s': C.State, fa: FrameAllocator, own: Owners, n: nat, m: nat)
    requires CachedData(s, own) && Partition(fa, own) && F.Tracks(s, s', n)
    requires J.Proj(s', n).mem == J.Proj(s, n).mem && PageBase(m) in own.tables
    ensures C.MemLine(s'.mem, m) == C.MemLine(s.mem, m)
  {
    hide J.Proj, F.ViewOf, F.StaleIn, L.Stale, C.MemLine, Issued;
    S.L2WayProj(s, m);
    S.L2WayProj(s', m);
    assert m == n || L.Calm(J.Proj(s, m), J.Proj(s', m));
  }

  /** So no table changes. */
  lemma TableBytesStay(s: C.State, s': C.State, fa: FrameAllocator, own: Owners, n: nat)
    requires CachedData(s, own) && Partition(fa, own) && S.SameShape(s, s') && F.Tracks(s, s', n)
    requires J.Proj(s', n).mem == J.Proj(s, n).mem
    ensures SameTableBytes(own, s.mem, s'.mem)
  {
    hide J.Proj, F.Tracks, CachedData, Partition;
    forall a: nat | a < |s.mem| && FrameBase(a) in own.tables ensures s'.mem[a] == s.mem[a] {
      assert PageBase(a / 64) == FrameBase(a);
      LineStays(s, s', fa, own, n, a / 64);
      LineByte(s, s', a);
    }
  }

  lemma LineByte(s: C.State, s': C.State, a: nat)
    requires S.SameShape(s, s') && a < |s.mem| && C.MemLine(s'.mem, a / 64) == C.MemLine(s.mem, a / 64)
    ensures s'.mem[a] == s.mem[a]
  {
    hide S.Tail;
    if C.InMemory(s.mem, a / 64) {
      assert C.MemLine(s'.mem, a / 64)[a % 64] == C.MemLine(s.mem, a / 64)[a % 64];
    } else {
      M.TailByte(s, s', a);
    }
  }

  lemma CachedDataStays(s: C.State, s': C.State, own: Owners, n: nat)
    requires CachedData(s, own) && F.Tracks(s, s', n) && PageBase(n) in own.data
    ensures CachedData(s', own)
  {
    hide J.Proj, F.ViewOf, F.StaleIn, L.Calm;
  }

  /** The access as a call on physical memory. */
  function OpOf(call: Call, pa: nat): M.Op
    requires call.Access?
  {
    M.Op(call.core, pa, call.kind, call.stamp)
  }

  /** The frame, the line and the offset behind a translated address. */
  lemma PhysicalIs(y: System, own: Owners, va: nat, width: nat)
    requires SysOk(y, own) && Small(va / 4096) && va % 64 + width <= LINE_SIZE
    requires Physical(OsOf(y), y.active, va).Some?
    ensures var pa, f := Physical(OsOf(y), y.active, va).value, WalkOf(OsOf(y), y.active, va / 4096);
            && f.Some? && f.value in own.data && pa == f.value + va % 4096
            && f.value % PAGE_SIZE == 0 && f.value + PAGE_SIZE <= |y.caches.mem|
            && pa % 64 == va % 64 && PageBase(pa / 64) == f.value && C.InMemory(y.caches.mem, pa / 64)
            && va % 4096 + width <= PAGE_SIZE
  {
    hide Walk, M.Good, AllTlbsOk, CachedData, Running, Small;
    var f := WalkOf(OsOf(y), y.active, va / 4096).value;
    MappedFrame(OsOf(y), own, y.active, va / 4096);
    InFrame(f, va % 4096);
    assert va % 4096 % 64 == va % 64;
  }

  lemma InFrame(f: nat, o: nat)
    requires f % PAGE_SIZE == 0 && o < PAGE_SIZE
    ensures (f + o) % 64 == o % 64 && (f + o) / 64 / 64 * PAGE_SIZE == f && 64 * ((f + o) / 64) + 64 <= f + PAGE_SIZE
    ensures o / 64 * 64 + 64 <= PAGE_SIZE
  {
    var k := f / PAGE_SIZE;
    assert f == 4096 * k;
    assert (f + o) / 64 == 64 * k + o / 64;
  }

  lemma GoodAfter(y: System, own: Owners, n: nat, x: L.LineState, s': C.State, tlbs: seq<CoreTlbs>, stamp: nat)
    requires SysOk(y, own) && PageBase(n) in own.data && M.Good(s')
    requires F.Call(y.caches.(stamp := stamp), s', n, x) && x.mem == J.Proj(y.caches, n).mem
    requires |tlbs| == |y.tlbs| && AllTlbsOk(tlbs, y.roots[y.active], y.caches.mem)
    ensures var y' := y.(caches := s', tlbs := tlbs);
            && SysOk(y', own)
            && forall p: nat, u :: p < |y.roots| && Small(u) ==> WalkOf(OsOf(y'), p, u) == WalkOf(OsOf(y), p, u)
  {
    hide Walk, Small, J.Proj, L.Coherent, J.Placed, Running, TlbsOk, F.Tracks, Partition;
    var s0 := y.caches.(stamp := stamp);
    M.Restamped(y.caches, stamp);
    assert CachedData(s0, own);
    assert Partition(y.fa, own) by { RunningParts(OsOf(y), own); }
    TableBytesStay(s0, s', y.fa, own, n);
    CachedDataStays(s0, s', own, n);
    var y' := y.(caches := s', tlbs := tlbs);
    TablesUntouched(OsOf(y), OsOf(y'), own);
    forall c: nat | c < |tlbs| ensures TlbsOk(tlbs[c], y.roots[y.active], s'.mem) {
      TlbsSurvive(tlbs[c], OsOf(y), OsOf(y'), y.active);
    }
  }

  lemma RunningParts(os: Os, own: Owners)
    requires Running(os, own)
    ensures Partition(os.fa, own)
  {
  }

  /** TLBs stay right while no walk of their process changes. */
  lemma TlbsSurvive(t: CoreTlbs, os: Os, os': Os, p: nat)
    requires |os'.roots| == |os.roots| && p < |os.roots| && TlbsOk(t, os.roots[p], os.mem)
    requires forall u :: Small(u) ==> WalkOf(os', p, u) == WalkOf(os, p, u)
    ensures TlbsOk(t, os'.roots[p], os'.mem)
  {
    hide Walk, Small;
    OneSurvives(t.l1d, os, os', p);
    OneSurvives(t.l2d, os, os', p);
    OneSurvives(t.itlb, os, os', p);
  }

  lemma OneSurvives(tlb: TlbArray, os: Os, os': Os, p: nat)
    requires |os'.roots| == |os.roots| && p < |os.roots| && TlbOk(tlb, os.roots[p], os.mem) && OnlySmall(tlb)
    requires forall u :: Small(u) ==> WalkOf(os', p, u) == WalkOf(os, p, u)
    ensures TlbOk(tlb, os'.roots[p], os'.mem)
  {
    hide Walk, Small;
    forall i: nat, w: nat | Entry(tlb, i, w)
      ensures FrameOf(os'.roots[p], os'.mem, tlb[i].vpn[w]) == Some(tlb[i].frame[w])
    {
      assert WalkOf(os', p, tlb[i].vpn[w]) == WalkOf(os, p, tlb[i].vpn[w]);
    }
  }

  /** An access to an unmapped page faults and touches no cache. An access to a mapped one
      completes unless it fetches from a dirty line, and then every invariant holds again
      and every page of every process walks as before: stores never change a translation. */
  lemma AccessKeeps(y: System, own: Owners, call: Call)
    requires SysOk(y, own) && Fits(y, call) && call.Access? && Small(call.va / 4096)
    ensures var r, pa := Step(y, call), Physical(OsOf(y), y.active, call.va);
            && (pa.None? ==> r.Done? && r.value.1 == Fault && r.value.0 == y.(tlbs := r.value.0.tlbs))
            && (pa.Some? ==> OpOf(call, pa.value).Fits(|y.caches.cores|)
                             && (r.Done? <==> !M.FetchesModified(y.caches, OpOf(call, pa.value))))
            && (pa.Some? && r.Done? ==>
                  var m := M.Step(y.caches, OpOf(call, pa.value));
                  m.Done? && r.value.1 == Got(m.value.1)
                      && r.value.0 == y.(caches := m.value.0, tlbs := r.value.0.tlbs))
            && (r.Done? ==>
                  && SysOk(r.value.0, own)
                  && forall p: nat, u :: p < |y.roots| && Small(u) ==>
                      WalkOf(OsOf(r.value.0), p, u) == WalkOf(OsOf(y), p, u))
  {
    hide Walk, Small, Running, J.Proj, J.Placed, L.Coherent, Translated, TlbsOk, CachedData, M.Step, F.Tracks,
         L.View, L.Patch;
    TranslatedIs(y, own, call.core, call.va, call.kind.Fetching?);
    var pa := Physical(OsOf(y), y.active, call.va);
    if pa.Some? {
      var op := OpOf(call, pa.value);
      PhysicalIs(y, own, call.va, op.Width());
      M.StepIsAction(y.caches, op);
      if M.Step(y.caches, op).Done? {
        M.StepKeepsDemandedLine(y.caches, op);
        var tlbs := Translated(y, call.core, call.va, call.kind.Fetching?).0.tlbs;
        GoodAfter(y, own, pa.value / 64, J.Proj(M.Step(y.caches, op).value.0, pa.value / 64),
                  M.Step(y.caches, op).value.0, tlbs, call.stamp);
      }
    }
  }
}
