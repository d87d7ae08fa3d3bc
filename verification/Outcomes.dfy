/** What each call leaves besides bytes: the MESI states of its line, the performance counters
    and the prefetcher's table. */
module Outcomes {
  import opened Types
  import opened Coherence
  import opened Caches
  import opened Projection
  import opened Snoops
  import opened Flat
  import opened Prefetch
  import opened Losses
  import opened Machine
  import opened Arrivals
  import opened Streams
  import C = Calls

  // ---------------------------------------------------------------------------
  // Counters and tables, branch by branch
  // ---------------------------------------------------------------------------

  /** The call counted pmc for core c, and left the other counters and every table. */
  ghost predicate Counts(s: State, s': State, c: nat, pmc: Pmc) {
    && |s'.cores| == |s.cores|
    && forall b: nat :: b < |s.cores| ==>
         s'.cores[b].pf == s.cores[b].pf && s'.cores[b].pmc == if b == c then pmc else s.cores[b].pmc
  }

  lemma ReadFromL2Counts(s: State, c: nat, pa: nat, w2: nat)
    requires Inv(s) && c < |s.cores| && w2 < NUM_L2_WAYS && w2 == L2WayOf(s, pa / 64)
    requires ReadFromL2(s, c, pa, w2).Done?
    ensures Counts(s, ReadFromL2(s, c, pa, w2).value.0, c, s.cores[c].pmc.(l2Hits := s.cores[c].pmc.l2Hits + 1))
  {
    hide Placed, Proj, Coherent, EvictL1, ReadL2Way, L1Fill, Stretch;
    var n := pa / 64;
    var state := s.l2[n % 4096].state[w2];
    var s0 := Emit(s, L2Hit, c, 2, n % 4096, w2, pa, state, state, None);
    SameStretch(s, s0, n);
    StretchKeeps(s, s0, n);
    EvictL1Moves(s0, c, false, n % 64);
    var (s1, w1) := EvictL1(s0, c, false, n % 64).value;
    C.L2Ways(s, s0, s1, n);
    C.ReadL2WayMoves(s1, c, false, n, w2);
  }

  lemma FetchFromL2Counts(s: State, c: nat, n: nat, w2: nat)
    requires Inv(s) && c < |s.cores| && w2 < NUM_L2_WAYS && w2 == L2WayOf(s, n) && FetchFromL2(s, c, n, w2).Done?
    ensures Counts(s, FetchFromL2(s, c, n, w2).value.0, c, s.cores[c].pmc.(l2Hits := s.cores[c].pmc.l2Hits + 1))
  {
    hide Placed, Proj, Coherent, EvictL1, ReadL2Way, L1Fill;
    EvictL1Moves(s, c, true, n % 64);
    var (s1, w1) := EvictL1(s, c, true, n % 64).value;
    SameL2WaysFinds(s, s1, n);
    C.ReadL2WayMoves(s1, c, true, n, w2);
  }

  lemma WriteHitCounts(s: State, c: nat, pa: nat, w: nat, bytes: seq<byte>)
    requires Inv(s) && c < |s.cores| && w < NUM_L1_WAYS && pa % 64 + |bytes| <= LINE_SIZE
    requires w == L1WayOf(s, c, false, pa / 64) && WriteHit(s, c, pa, w, bytes).Done?
    ensures Counts(s, WriteHit(s, c, pa, w, bytes).value, c, s.cores[c].pmc.(l1dHits := s.cores[c].pmc.l1dHits + 1))
  {
    hide Placed, Proj, Coherent, Stretch, Upgrade, Patch, L1Write, InvalidatePeersI, Killed;
    var n := pa / 64;
    L2WayProj(s, n);
    var w2 := L2WayOf(s, n);
    var was := s.cores[c].l1d[n % 64].state[w];
    var s1 := if was == Shared then Upgrade(s, c, n, w2) else s;
    if was == Shared {
      C.UpgradeStretch(s, c, n, w2);
      C.StretchRest(s, s1, n, Proj(s1, n));
    }
    L2WayProj(s1, n);
    assert Coherent(Proj(s1, n));
    InMasks(Proj(s1, n));
    C.TakeOverMoves(s1, c, n, w2, false);
  }

  lemma WriteFromL2Counts(s: State, c: nat, pa: nat, w2: nat, bytes: seq<byte>)
    requires Inv(s) && c < |s.cores| && pa % 64 + |bytes| <= LINE_SIZE
    requires var n := pa / 64; w2 < NUM_L2_WAYS && w2 == L2WayOf(s, n) && L1WayOf(s, c, false, n) == NUM_L1_WAYS
    requires WriteFromL2(s, c, pa, w2, bytes).Done?
    ensures Counts(s, WriteFromL2(s, c, pa, w2, bytes).value, c, s.cores[c].pmc.(l2Hits := s.cores[c].pmc.l2Hits + 1))
  {
    hide Inv, Proj, Coherent, Stretch, InvalidatePeers, InvalidatePeersI, EvictL1, Patch, L1Fill, L1WayOf, L2WayOf,
         C.TakeOver, Killed;
    var n := pa / 64;
    var l2 := s.l2[n % 4096];
    var s0 := Emit(s, L2Hit, c, 2, n % 4096, w2, pa, l2.state[w2], l2.state[w2], None);
    SameStretch(s, s0, n);
    StretchKeeps(s, s0, n);
    C.SameL2Array(s, s0, n);
    C.InvalidateStretch(s0, c, n, w2, l2.data[w2]);
    var (s1, newest) := InvalidatePeers(s0, l2.dm[w2] - {c}, n, w2, l2.data[w2]);
    C.StretchKeepsInv(s0, s1, n);
    C.StretchRest(s0, s1, n, Proj(s1, n));
    L2WayProj(s0, n);
    C.SameL1Way(s, s0, c, false, n);
    KeepsOwnCore(s0, s1, c, n, l2.dm[w2]);
    OwnFillCounts(s1, c, pa, w2, Patch(newest, pa % 64, bytes));
    Owned(s, c, pa, w2, bytes);
  }

  /** WriteFromL2 ends by taking the way over. */
  lemma Owned(s: State, c: nat, pa: nat, w2: nat, bytes: seq<byte>)
    requires c < |s.cores| && w2 < NUM_L2_WAYS && pa % 64 + |bytes| <= LINE_SIZE
    ensures var n, l2 := pa / 64, s.l2[pa / 64 % 4096];
            var s0 := Emit(s, L2Hit, c, 2, n % 4096, w2, pa, l2.state[w2], l2.state[w2], None);
            var (s1, newest) := InvalidatePeers(s0, l2.dm[w2] - {c}, n, w2, l2.data[w2]);
            var line, r, r' := Patch(newest, pa % 64, bytes), EvictL1(s1, c, false, n % 64), WriteFromL2(s, c, pa, w2,
                bytes);
            && r.Done? == r'.Done?
            && (r.Done? ==>
                  var (s2, w1) := r.value;
                  var s3 := PutL1(s2, c, false, n % 64, L1Fill(s2.cores[c].l1d[n % 64], n / 64, w1, line, Modified));
                  var s4 := Emit(s3, L1dFill, c, 1, n % 64, w1, pa, Invalid, Modified, Some(line));
                  r'.value == CountL2(C.TakeOver(s4, c, n, w2, true), c))
  {
    hide InvalidatePeers, InvalidatePeersI, EvictL1, Patch, L1Fill;
  }

  lemma OwnFillCounts(s: State, c: nat, pa: nat, w2: nat, line: Line)
    requires Inv(s) && c < |s.cores| && w2 < NUM_L2_WAYS && w2 == L2WayOf(s, pa / 64)
    requires L1WayOf(s, c, false, pa / 64) == NUM_L1_WAYS
    ensures var n := pa / 64;
            var r := EvictL1(s, c, false, n % 64);
            && r.Done?
            && var (s2, w1) := r.value;
               var s3 := PutL1(s2, c, false, n % 64, L1Fill(s2.cores[c].l1d[n % 64], n / 64, w1, line, Modified));
               var s4 := Emit(s3, L1dFill, c, 1, n % 64, w1, pa, Invalid, Modified, Some(line));
               SameRest(s, C.TakeOver(s4, c, n, w2, true))
  {
    hide Placed, Proj, Coherent, EvictL1, L1Fill, C.TakeOver, L1WayOf, L2WayOf, Stretch;
    var n := pa / 64;
    EvictL1Stretch(s, c, false, n);
    var (s2, w1) := EvictL1(s, c, false, n % 64).value;
    StretchKeeps(s, s2, n);
    C.StretchRest(s, s2, n, Proj(s, n));
    SameL2WaysFinds(s, s2, n);
    L1WayProj(s, c, false, n);
    L1WayProj(s2, c, false, n);
    L1FillMoves(s2, c, false, n, w1, line, Modified);
    var s3 := PutL1(s2, c, false, n % 64, L1Fill(s2.cores[c].l1d[n % 64], n / 64, w1, line, Modified));
    var s4 := Emit(s3, L1dFill, c, 1, n % 64, w1, pa, Invalid, Modified, Some(line));
    C.SameMoved(s3, s4, n);
    L2WayProj(s2, n);
    assert Coherent(Proj(s2, n));
    InMasks(Proj(s2, n));
    C.SameL2Array(s2, s4, n);
    C.TakeOverMoves(s4, c, n, w2, true);
  }

  /** A load or store that misses L2 counts a memory fetch and has one entry of the core's
      table serve it. */
  lemma MissCounts(s: State, c: nat, n: nat, line: Line, state: Mesi) returns (i: nat)
    requires Inv(s) && Windowed(s) && c < |s.cores| && Proj(s, n).l2.NotInL2? && InMemory(s.mem, n)
    requires state == Exclusive || state == Modified
    ensures var r1 := MakeRoom(s, c, false, n);
            && r1.Done?
            && var (s1, w2, w1) := r1.value;
               var r2 := InstallBoth(s1, c, false, n, w2, w1, line, state);
               && r2.Done?
               && var r3 := StreamOnMiss(r2.value, c, 64 * n);
                  && r3.Done?
                  && var s' := CountMem(r3.value, c);
                     && |s'.cores| == |s.cores|
                     && Serves(s.cores[c].pf, s'.cores[c].pf, n, |s.mem|, i)
                     && (forall b: nat :: b < |s.cores| && b != c ==> s'.cores[b].pf == s.cores[b].pf)
                     && (forall b: nat :: b < |s.cores| ==>
                           var pmc := s.cores[b].pmc;
                           s'.cores[b].pmc == if b == c then pmc.(memFetches := pmc.memFetches + 1) else pmc)
  {
    hide Inv, Proj, MakeRoom, InstallBoth, StreamOnMiss, MatesArrive, Serves, Call;
    FillMates(s, c, false, n, line, state);
    FillLoses(s, c, false, n, line, state);
    var (s1, w2, w1) := MakeRoom(s, c, false, n).value;
    var s2 := InstallBoth(s1, c, false, n, w2, w1, line, state).value;
    WindowedRest(s, s2);
    i := StreamOnMissServes(s2, c, n);
    L2WayProj(s2, n);
    StreamOnMissCall(s2, c, n);
  }

  lemma FetchMissCounts(s: State, c: nat, n: nat)
    requires Inv(s) && c < |s.cores| && Proj(s, n).l2.NotInL2? && InMemory(s.mem, n)
    ensures var r := FetchFromMemory(s, c, n);
            && r.Done?
            && Counts(s, r.value.0, c, s.cores[c].pmc.(memFetches := s.cores[c].pmc.memFetches + 1))
  {
    hide Inv, Proj, MakeRoom, InstallBoth, PfFill, Brings, MatesArrive;
    FillMates(s, c, true, n, MemLine(s.mem, n), Exclusive);
    C.MakeRoomStretch(s, c, true, n);
    var (s1, w2, w1) := MakeRoom(s, c, true, n).value;
    SameMemLine(s, s1, n);
    var s2 := InstallBoth(s1, c, true, n, w2, w1, MemLine(s1.mem, n), Exclusive).value;
    PageOfLine(n);
    PfFillBrings(s2, 64 * n, 64 * n + 64);
  }

  // ---------------------------------------------------------------------------
  // Counters
  // ---------------------------------------------------------------------------

  /** One more in the counter of the cache that had the line. */
  function CountedIn(s: State, op: Op): Pmc
    requires op.Fits(|s.cores|)
  {
    var pmc, n := s.cores[op.core].pmc, op.pa / 64;
    if HeldBy(s, op) then
      if op.kind.Fetching? then pmc.(l1iHits := pmc.l1iHits + 1) else pmc.(l1dHits := pmc.l1dHits + 1)
    else if L2WayOf(s, n) < NUM_L2_WAYS then pmc.(l2Hits := pmc.l2Hits + 1)
    else pmc.(memFetches := pmc.memFetches + 1)
  }

  /** Entry i served the miss, if the call is a load or store that misses L2; otherwise no
      table changed. */
  ghost predicate Trained(s: State, s': State, op: Op, i: nat)
    requires op.Fits(|s.cores|) && |s'.cores| == |s.cores|
  {
    var missed := L2WayOf(s, op.pa / 64) == NUM_L2_WAYS && !op.kind.Fetching?;
    && (if missed then Serves(s.cores[op.core].pf, s'.cores[op.core].pf, op.pa / 64, |s.mem|, i)
        else s'.cores[op.core].pf == s.cores[op.core].pf)
    && forall b: nat :: b < |s.cores| && b != op.core ==> s'.cores[b].pf == s.cores[b].pf
  }

  ghost predicate CountedOnce(s: State, s': State, op: Op)
    requires op.Fits(|s.cores|) && |s'.cores| == |s.cores|
  {
    forall b: nat :: b < |s.cores| ==>
      s'.cores[b].pmc == if b == op.core then CountedIn(s, op) else s.cores[b].pmc
  }

  lemma ReadCounts(s: State, c: nat, pa: nat, size: nat) returns (i: nat)
    requires Good(s) && c < |s.cores| && pa % 64 + size <= LINE_SIZE && Read(s, c, pa, size).Done?
    ensures var op := Op(c, pa, Load(size), s.stamp);
            CountedOnce(s, Read(s, c, pa, size).value.0, op) && Trained(s, Read(s, c, pa, size).value.0, op, i)
  {
    hide Inv, Windowed, Proj, ReadFromL2, MakeRoom, InstallBoth, StreamOnMiss, CountMem, Serves;
    var n := pa / 64;
    var w, w2 := L1WayOf(s, c, false, n), L2WayOf(s, n);
    L2WayProj(s, n);
    i := 0;
    if w < NUM_L1_WAYS {
      HeldCached(s, c, false, n);
    } else if w2 < NUM_L2_WAYS {
      ReadFromL2Counts(s, c, pa, w2);
    } else {
      C.MakeRoomStretch(s, c, false, n);
      SameMemLine(s, MakeRoom(s, c, false, n).value.0, n);
      i := MissCounts(s, c, n, MemLine(s.mem, n), Exclusive);
    }
  }

  lemma WriteCounts(s: State, c: nat, pa: nat, bytes: seq<byte>) returns (i: nat)
    requires Good(s) && c < |s.cores| && pa % 64 + |bytes| <= LINE_SIZE && Write(s, c, pa, bytes).Done?
    ensures var op := Op(c, pa, Store(bytes), s.stamp);
            CountedOnce(s, Write(s, c, pa, bytes).value, op) && Trained(s, Write(s, c, pa, bytes).value, op, i)
  {
    hide Inv, Windowed, Proj, WriteHit, WriteFromL2, MakeRoom, InstallBoth, StreamOnMiss, CountMem, Patch, Serves;
    var n := pa / 64;
    var w, w2 := L1WayOf(s, c, false, n), L2WayOf(s, n);
    L2WayProj(s, n);
    i := 0;
    if w < NUM_L1_WAYS {
      HeldCached(s, c, false, n);
      WriteHitCounts(s, c, pa, w, bytes);
    } else if w2 < NUM_L2_WAYS {
      WriteFromL2Counts(s, c, pa, w2, bytes);
    } else {
      i := MissCounts(s, c, n, Patch(MemLine(s.mem, n), pa % 64, bytes), Modified);
    }
  }

  lemma FetchCounts(s: State, c: nat, pa: nat, size: nat)
    requires Good(s) && c < |s.cores| && pa % 64 + size <= LINE_SIZE && Fetch(s, c, pa, size).Done?
    ensures var op := Op(c, pa, Fetching(size), s.stamp);
            CountedOnce(s, Fetch(s, c, pa, size).value.0, op) && Trained(s, Fetch(s, c, pa, size).value.0, op, 0)
  {
    hide Inv, Windowed, Proj, FetchFromL2, FetchFromMemory, L1Touch, Serves;
    var n := pa / 64;
    var w, w2 := L1WayOf(s, c, true, n), L2WayOf(s, n);
    L2WayProj(s, n);
    if w < NUM_L1_WAYS {
    } else if w2 < NUM_L2_WAYS {
      FetchFromL2Counts(s, c, n, w2);
    } else if InMemory(s.mem, n) {
      FetchMissCounts(s, c, n);
    } else {
      NoFetch(s, c, n);
    }
  }

  /** Every completed call counts once, in one counter of its core, for the first cache that
      has its line; and a load or store that misses L2, no other call, is served by an entry
      of its core's prefetcher table. */
  lemma StepCounts(s: State, op: Op) returns (i: nat)
    requires Good(s) && op.Fits(|s.cores|) && Step(s, op).Done?
    ensures var s' := Step(s, op).value.0;
            CountedOnce(s, s', op) && Trained(s, s', op, i)
  {
    hide Inv, Windowed, Proj, Read, Write, Fetch, Serves, L1WayOf, L2WayOf, CountedOnce, Trained;
    var s0 := s.(stamp := op.stamp);
    Restamped(s, op.stamp);
    i := 0;
    match op.kind {
      case Load(size) => i := ReadCounts(s0, op.core, op.pa, size);
      case Store(bytes) => i := WriteCounts(s0, op.core, op.pa, bytes);
      case Fetching(size) => FetchCounts(s0, op.core, op.pa, size);
    }
    SameCounts(s, op, Step(s, op).value.0, i);
  }

  lemma SameCounts(s: State, op: Op, s': State, i: nat)
    requires op.Fits(|s.cores|) && |s'.cores| == |s.cores|
    requires CountedOnce(s.(stamp := op.stamp), s', op) && Trained(s.(stamp := op.stamp), s', op, i)
    ensures CountedOnce(s, s', op) && Trained(s, s', op, i)
  {
    hide Serves;
  }

  // ---------------------------------------------------------------------------
  // States
  // ---------------------------------------------------------------------------

  /** Some core other than c is in the masks. */
  ghost predicate Others(x: LineState, c: nat) { exists b: nat :: b != c && Shares(x.l2, b) }

  lemma OthersAre(x: LineState, c: nat)
    requires x.l2.InL2?
    ensures OthersShare(x, c) <==> Others(x, c)
  {
    if OthersShare(x, c) {
      var b :| b in (x.l2.dm - {c}) + (x.l2.im - {c});
      assert Shares(x.l2, b);
    }
    if Others(x, c) {
      var b: nat :| b != c && Shares(x.l2, b);
      assert b in x.l2.dm - {c} || b in x.l2.im - {c};
    }
  }

  /** A load that core c's L1D did not have: EXCLUSIVE if c is alone, else all SHARED. */
  ghost predicate LoadStates(x: LineState, y: LineState, c: nat) {
    && (forall b: nat :: Holds(y.d, b) <==> Holds(x.d, b) || b == c)
    && (forall b: nat :: Holds(y.i, b) <==> Holds(x.i, b))
    && (forall b: nat :: Holds(y.d, b) ==> y.d[b].state == if Others(x, c) then Shared else Exclusive)
    && y.l2.InL2?
    && y.l2.state == (if x.l2.NotInL2? then Exclusive else if Others(x, c) then Shared else x.l2.state)
  }

  /** A store: core c alone has the line, MODIFIED, and L2 says so. */
  ghost predicate StoreStates(y: LineState, c: nat) {
    && (forall b: nat :: Holds(y.d, b) <==> b == c) && (forall b: nat :: !Holds(y.i, b))
    && Holds(y.d, c) && y.d[c].state == Modified
    && y.l2.InL2? && y.l2.state == Modified && y.l2.dm == {c} && y.l2.im == {}
  }

  /** A fetch that core c's L1I did not have: the data copies of other cores become SHARED. */
  ghost predicate FetchStates(x: LineState, y: LineState, c: nat) {
    && (forall b: nat :: Holds(y.d, b) <==> Holds(x.d, b))
    && (forall b: nat :: Holds(y.i, b) <==> Holds(x.i, b) || b == c)
    && (forall b: nat :: Holds(y.d, b) ==>
          y.d[b].state == if Others(x, c) && b != c then Shared else x.d[b].state)
    && Holds(y.i, c) && y.i[c].state == Shared
    && y.l2.InL2?
    && y.l2.state == (if x.l2.NotInL2? then Exclusive else if Others(x, c) then Shared else x.l2.state)
  }

  lemma DowngradeStates(x: LineState, c: nat)
    requires x.l2.InL2?
    ensures var y := Downgrade(x, c);
            && |y.d| == |x.d| && y.i == x.i && y.l2.InL2? && y.l2.state == Shared
            && (forall b: nat :: Holds(y.d, b) <==> Holds(x.d, b))
            && (forall b: nat :: Holds(y.d, b) ==> y.d[b].state == if b == c then x.d[b].state else Shared)
  {
  }

  lemma AloneHoldsNone(x: LineState, c: nat)
    requires Coherent(x) && x.l2.InL2? && !Others(x, c)
    ensures forall b: nat :: Holds(x.d, b) ==> b == c
  {
    assert forall b: nat :: Holds(x.d, b) ==> Shares(x.l2, b);
  }

  lemma ReadSharedStates(x: LineState, c: nat)
    requires Coherent(x) && x.l2.InL2? && c < |x.d| && x.d[c].Absent?
    ensures LoadStates(x, ReadShared(x, c), c)
  {
    OthersAre(x, c);
    if Others(x, c) { DowngradeStates(x, c); } else { AloneHoldsNone(x, c); }
    hide Downgrade, Coherent, OthersShare, Others;
    var y := if OthersShare(x, c) then Downgrade(x, c) else x;
    CopyAdded(y.d, c, Copy(if OthersShare(x, c) then Shared else Exclusive, y.l2.data));
  }

  lemma FetchSharedStates(x: LineState, c: nat)
    requires Coherent(x) && x.l2.InL2? && c < |x.i| && x.i[c].Absent?
    ensures FetchStates(x, FetchShared(x, c), c)
  {
    OthersAre(x, c);
    if Others(x, c) { DowngradeStates(x, c); } else { AloneHoldsNone(x, c); }
    hide Downgrade, Coherent, OthersShare, Others;
    var y := if OthersShare(x, c) then Downgrade(x, c) else x;
    CopyAdded(y.i, c, Copy(Shared, y.l2.data));
  }

  lemma FilledStates(x: LineState, c: nat, line: Line, state: Mesi)
    requires Coherent(x) && x.l2.NotInL2? && c < |x.d| == |x.i|
    ensures state == Exclusive ==> LoadStates(x, FillD(x, c, line, state), c)
    ensures state == Modified ==> StoreStates(FillD(x, c, line, state), c)
    ensures FetchStates(x, FillI(x, c), c)
  {
    assert forall b: nat :: !Holds(x.d, b) && !Holds(x.i, b) && !Shares(x.l2, b);
    assert !Others(x, c);
    CopyAdded(x.d, c, Copy(state, line));
    CopyAdded(x.i, c, Copy(Shared, x.mem));
  }

  lemma OwnedStates(x: LineState, c: nat, line: Line)
    requires x.l2.InL2? && c < |x.d|
    ensures StoreStates(OwnedBy(x, c, line), c)
  {
  }

  /** Which state each copy of the line is in after a call: a hit of a load or a fetch
      changes none of them. */
  lemma StepStates(s: State, op: Op)
    requires Good(s) && op.Fits(|s.cores|) && Step(s, op).Done?
    ensures var x, y := Proj(s, op.pa / 64), Proj(Step(s, op).value.0, op.pa / 64);
            match op.kind
            case Load(_) => if HeldBy(s, op) then y == x else LoadStates(x, y, op.core)
            case Store(_) => StoreStates(y, op.core)
            case Fetching(_) => if HeldBy(s, op) then y == x else FetchStates(x, y, op.core)
  {
    hide Inv, Windowed, Proj, Step, Coherent, Patch, View, ReadShared, FetchShared, FillD, FillI, OwnedBy, LoadStates,
         StoreStates, FetchStates, Tracks;
    var n := op.pa / 64;
    var x := Proj(s, n);
    StepIsAction(s, op);
    L1WayProj(s, op.core, op.kind.Fetching?, n);
    assert Coherent(x) by { CoherentAt(s, n); }
    match op.kind {
      case Load(_) =>
        if x.l2.InL2? {
          if !HeldBy(s, op) { ReadSharedStates(x, op.core); }
        } else {
          FilledStates(x, op.core, x.mem, Exclusive);
        }
      case Store(bytes) =>
        if x.l2.InL2? { OwnedStates(x, op.core, Patch(View(x), op.pa % 64, bytes)); }
        else { FilledStates(x, op.core, Patch(x.mem, op.pa % 64, bytes), Modified); }
      case Fetching(_) =>
        if x.l2.InL2? {
          if !HeldBy(s, op) { FetchSharedStates(x, op.core); }
        } else {
          FilledStates(x, op.core, x.mem, Exclusive);
        }
    }
  }

  lemma CoherentAt(s: State, n: nat)
    requires Good(s)
    ensures Coherent(Proj(s, n))
  {
  }

  /** No way is SHARED without a sharer. */
  ghost predicate AllBusy(s: State) { forall m: nat :: !Idle(Proj(s, m)) }

  /** The last sharer that leaves a SHARED way leaves it EXCLUSIVE. */
  lemma StepStaysBusy(s: State, op: Op)
    requires Good(s) && AllBusy(s) && op.Fits(|s.cores|) && Step(s, op).Done?
    ensures AllBusy(Step(s, op).value.0)
  {
    hide Placed, Windowed, Coherent, Proj, Step, LineAfter, View, Stale, Patch, Idle;
    var n, s0, s' := op.pa / 64, s.(stamp := op.stamp), Step(s, op).value.0;
    StepKeepsDemandedLine(s, op);
    Restamped(s, op.stamp);
    StepIsAction(s, op);
    forall m: nat ensures !Idle(Proj(s', m)) {
      if m == n {
        HeldIsBusy(s', op);
      } else {
        assert Calm(Proj(s0, m), Proj(s', m));
        assert !Idle(Proj(s, m));
      }
    }
  }

  lemma HeldIsBusy(s: State, op: Op)
    requires Good(s) && op.Fits(|s.cores|) && HeldBy(s, op)
    ensures !Idle(Proj(s, op.pa / 64))
  {
    hide Placed, Proj;
    L1WayProj(s, op.core, op.kind.Fetching?, op.pa / 64);
    assert Coherent(Proj(s, op.pa / 64));
  }
}
