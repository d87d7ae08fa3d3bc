/** Programs whose pages fit L2, on any number of cores. */
module Fitting {
  import opened Types
  import opened Paging
  import opened Frames
  import opened Mapping
  import opened System
  import opened Virtual
  import C = Caches
  import J = Projection
  import M = Machine
  import W = WorkingSet

  /** The numbers of these frames. */
  function Numbers(frames: set<nat>): set<nat> { set f | f in frames :: f / PAGE_SIZE }

  /** L2 holds lines of data frames only. */
  lemma L2IsData(y: System, own: Owners)
    requires SysOk(y, own)
    ensures W.Confined(y.caches, Numbers(own.data))
  {
    hide J.Proj, Running, AllTlbsOk, TablesFit, M.Good;
    forall m: nat | J.Proj(y.caches, m).l2.InL2? ensures m / 64 in Numbers(own.data) {
      assert PageBase(m) in own.data && PageBase(m) / PAGE_SIZE == m / 64;
    }
  }

  /** While the frames in use as data fit L2, no call loses bytes. */
  lemma FittingLosesNothing(y: System, own: Owners, call: Call)
    requires SysOk(y, own) && W.FitsL2(Numbers(own.data)) && Fits(y, call) && Tame(y, call)
    ensures !LosesBytes(y, call)
  {
    hide SysOk, Walk, Small, RoomForTables, Outdates, W.FitsL2, W.Confined, M.Loses;
    if call.Access? {
      var pa := Physical(OsOf(y), y.active, call.va);
      if pa.Some? {
        var op := OpOf(call, pa.value);
        PhysicalIs(y, own, call.va, op.Width());
        L2IsData(y, own);
        GoodOf(y, own);
        assert PageBase(pa.value / 64) / PAGE_SIZE == pa.value / PAGE_SIZE;
        if op.Fits(|y.caches.cores|) { W.ConfinedStep(y.caches, op, Numbers(own.data)); }
      }
    }
  }

  lemma GoodOf(y: System, own: Owners)
    requires SysOk(y, own)
    ensures M.Good(y.caches)
  {
  }

  lemma FewerFit(pages: set<nat>, more: set<nat>)
    requires pages <= more && W.FitsL2(more)
    ensures W.FitsL2(pages)
  {
    forall r: nat | r < 64 ensures |W.Rivals(pages, r)| <= NUM_L2_WAYS {
      W.SubsetSize(W.Rivals(pages, r), W.Rivals(more, r));
    }
  }

  /** The frames that a run's mappings returned. */
  function Given(answers: seq<Answer>): set<nat> {
    if answers == [] then {} else GivenBy(answers[0]) + Given(answers[1..])
  }

  /** How many pages the run maps. */
  function Mappings(calls: seq<Call>): nat {
    if calls == [] then 0 else (if calls[0].MapNew? then 1 else 0) + Mappings(calls[1..])
  }

  /** A run hands out as data the frames that its mappings returned, and issues at most four
      frames for each mapping. */
  lemma {:induction false} RunGives(y: System, own: Owners, calls: seq<Call>) returns (own': Owners)
    requires SysOk(y, own) && AllFit(y, calls) && AllTame(y, calls) && Run(y, calls).Done?
    ensures var (y', answers) := Run(y, calls).value;
            && SysOk(y', own') && own'.base == own.base && own'.data == own.data + Given(answers)
            && y'.fa.watermark <= y.fa.watermark + 4 * PAGE_SIZE * Mappings(calls)
    decreases |calls|
  {
    hide SysOk, Step, Tame, Fits, GivenBy;
    own' := own;
    if calls == [] {
    } else {
      FitsLater(y, calls);
      var own1 := StepKeeps(y, own, calls[0]);
      var (y1, answer) := Step(y, calls[0]).value;
      own' := RunGives(y1, own1, calls[1..]);
      var (y2, answers) := Run(y1, calls[1..]).value;
      assert ([answer] + answers)[1..] == answers;
    }
  }

  lemma {:induction false} FittingRunsLoseNothing(y: System, own: Owners, calls: seq<Call>)
    requires SysOk(y, own) && AllFit(y, calls) && AllTame(y, calls) && Run(y, calls).Done?
    requires W.FitsL2(Numbers(own.data + Given(Run(y, calls).value.1)))
    ensures NeverLoses(y, calls)
    decreases |calls|
  {
    hide SysOk, Step, Tame, LosesBytes, W.FitsL2, GivenBy;
    if calls == [] {
    } else {
      assert Fits(y, calls[0]);
      FewerFit(Numbers(own.data), Numbers(own.data + Given(Run(y, calls).value.1)));
      FittingLosesNothing(y, own, calls[0]);
      FitsLater(y, calls);
      var own1 := StepKeeps(y, own, calls[0]);
      var (y1, answer) := Step(y, calls[0]).value;
      var (y2, answers) := Run(y1, calls[1..]).value;
      assert ([answer] + answers)[1..] == answers;
      assert own1.data + Given(answers) == own.data + Given([answer] + answers);
      FittingRunsLoseNothing(y1, own1, calls[1..]);
    }
  }

  /** With any number of cores and processes, and whatever the cores share: a run from
      power-on is private paged memory if the frames that its mappings returned fit L2. */
  lemma FittingPagesAreVirtual(cores: nat, procs: nat, mem: seq<byte>, base: nat, limit: nat, calls: seq<Call>)
    requires procs > 0 && base % PAGE_SIZE == 0 && base <= limit <= |mem| < WORD_LIMIT
    requires var y := Init(cores, procs, mem, base, limit);
             && AllFit(y, calls) && AllTame(y, calls) && Run(y, calls).Done?
             && W.FitsL2(Numbers(Given(Run(y, calls).value.1)))
    ensures var (y', answers) := Run(Init(cores, procs, mem, base, limit), calls).value;
            && VirtualRun(VirtualState(map[], 0), calls, answers).Some?
            && Mirrors(y', VirtualRun(VirtualState(map[], 0), calls, answers).value)
  {
    hide SysOk, Mirrors, Run, AllTame, Clean, NeverLoses, W.FitsL2;
    var y, own := Init(cores, procs, mem, base, limit), Owners(base, map[], {});
    InitWorks(cores, procs, mem, base, limit);
    CleanIsLossless(y);
    assert own.data + Given(Run(y, calls).value.1) == Given(Run(y, calls).value.1);
    FittingRunsLoseNothing(y, own, calls);
    var own' := RunIsVirtual(y, own, VirtualState(map[], 0), calls);
  }

  // ---------------------------------------------------------------------------
  // Few pages fit
  // ---------------------------------------------------------------------------

  const MAX_PAGES: nat := 64 * NUM_L2_WAYS

  /** As many frames as L2 has room for, from the allocator's first one on. */
  function Pages(base: nat): set<nat> { W.Window(base / PAGE_SIZE, MAX_PAGES) }

  /** While the allocator has issued no others, the frames in use as data are among them. */
  lemma DataIsFew(y: System, own: Owners)
    requires SysOk(y, own) && y.fa.watermark <= own.base + PAGE_SIZE * MAX_PAGES
    ensures Numbers(own.data) <= Pages(own.base)
  {
    hide M.Good, CachedData, AllTlbsOk, Tree, RootsOk, LeavesIn, TablesFit;
    forall f: nat | f in own.data ensures f / PAGE_SIZE in Pages(own.base) {
      assert InUse(own, f);
      assert Issued(y.fa, own, f);
    }
  }

  /** So a run from power-on that maps at most 256 pages is private paged memory,
      unconditionally. */
  lemma FewPagesAreVirtual(cores: nat, procs: nat, mem: seq<byte>, base: nat, limit: nat, calls: seq<Call>)
    requires procs > 0 && base % PAGE_SIZE == 0 && base <= limit <= |mem| < WORD_LIMIT && Mappings(calls) <= 256
    requires var y := Init(cores, procs, mem, base, limit);
             AllFit(y, calls) && AllTame(y, calls) && Run(y, calls).Done?
    ensures var (y', answers) := Run(Init(cores, procs, mem, base, limit), calls).value;
            && VirtualRun(VirtualState(map[], 0), calls, answers).Some?
            && Mirrors(y', VirtualRun(VirtualState(map[], 0), calls, answers).value)
  {
    hide SysOk, Mirrors, Run, AllTame, Mappings, Given, W.FitsL2, W.Window;
    var y, own := Init(cores, procs, mem, base, limit), Owners(base, map[], {});
    InitWorks(cores, procs, mem, base, limit);
    var own' := RunGives(y, own, calls);
    var (y', answers) := Run(y, calls).value;
    DataIsFew(y', own');
    assert own'.data == Given(answers);
    W.WindowFits(base / PAGE_SIZE, MAX_PAGES);
    FewerFit(Numbers(Given(answers)), Pages(base));
    FittingPagesAreVirtual(cores, procs, mem, base, limit, calls);
  }
}
