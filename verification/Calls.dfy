/** cpu_read, cpu_write and cpu_fetch, each as the per-line action it performs. */
module Calls {
  import opened Types
  import opened Coherence
  import opened Caches
  import opened Projection
  import opened Snoops
  import opened Flat
  import opened Prefetch
  import Plru

  lemma MovedTwice(s: State, s1: State, s2: State, n: nat, x1: LineState, x2: LineState)
    requires Moved(s, s1, n, x1) && Moved(s1, s2, n, x2)
    ensures Moved(s, s2, n, x2)
  {
  }

  lemma SameMoved(s: State, s': State, n: nat)
    requires Placed(s) && |s'.cores| == |s.cores| && s'.l2 == s.l2 && s'.mem == s.mem
    requires forall c: nat :: c < |s.cores| ==> s'.cores[c].l1d == s.cores[c].l1d && s'.cores[c].l1i == s.cores[c].l1i
    ensures Moved(s, s', n, Proj(s, n))
  {
    hide Placed, Proj;
    SameCaches(s, s');
  }

  // ---------------------------------------------------------------------------
  // Filling from memory
  // ---------------------------------------------------------------------------

  lemma MakeRoomStretch(s: State, c: nat, instr: bool, n: nat)
    requires Inv(s) && c < |s.cores| && Proj(s, n).l2.NotInL2?
    ensures var r := MakeRoom(s, c, instr, n);
            && r.Done?
            && var (s', w2, w1) := r.value;
               && Stretch(s, s', n, Proj(s, n))
               && s'.l2[n % 4096].state[w2] == Invalid
               && GetL1(s', c, instr, n % 64).state[w1] == Invalid
  {
    hide Placed, Proj, Stretch, EvictL1, EvictL2;
    EvictL2Stretch(s, n % 4096, n);
    var (s1, w2) := EvictL2(s, n % 4096).value;
    StretchKeeps(s, s1, n);
    NotInL1(s1, c, instr, n);
    EvictL1Stretch(s1, c, instr, n);
    var (s2, w1) := EvictL1(s1, c, instr, n % 64).value;
    StretchTwice(s, s1, s2, n, Proj(s, n), Proj(s, n));
    assert Valid(s2.l2[n % 4096].state, w2) == Valid(s1.l2[n % 4096].state, w2);
  }

  /** Inclusion: a line that L2 does not hold is in no L1. */
  lemma NotInL1(s: State, c: nat, instr: bool, n: nat)
    requires Inv(s) && c < |s.cores| && Proj(s, n).l2.NotInL2?
    ensures L1WayOf(s, c, instr, n) == NUM_L1_WAYS
  {
    hide Placed, Proj;
    L1WayProj(s, c, instr, n);
  }

  /** The line as InstallBoth leaves it. */
  function Installed(x: LineState, c: nat, instr: bool, line: Line, state: Mesi): LineState
    requires c < |x.d| && c < |x.i|
  {
    if instr then x.(i := x.i[c := Copy(Shared, line)], l2 := InL2(state, {}, {c}, line))
    else FillD(x, c, line, state)
  }

  lemma InstallBothMoves(s: State, c: nat, instr: bool, n: nat, w2: nat, w1: nat, line: Line, state: Mesi)
    requires Placed(s) && c < |s.cores| && w2 < NUM_L2_WAYS && w1 < NUM_L1_WAYS && state != Invalid
    requires Proj(s, n).l2.NotInL2? && InMemory(s.mem, n) && L1WayOf(s, c, instr, n) == NUM_L1_WAYS
    requires s.l2[n % 4096].state[w2] == Invalid && GetL1(s, c, instr, n % 64).state[w1] == Invalid
    ensures var r := InstallBoth(s, c, instr, n, w2, w1, line, state);
            && |Proj(s, n).d| == |Proj(s, n).i| == |s.cores|
            && r.Done? && Moved(s, r.value, n, Installed(Proj(s, n), c, instr, line, state))
            && SameRest(s, r.value) && SameMemory(s, r.value)
  {
    hide Placed, Proj, L2Install, L1Fill;
    L2WayProj(s, n);
    var dm, im := if instr then {} else {c}, if instr then {c} else {};
    InstallL2Moves(s, n, w2, line, state, dm, im);
    var s1 := PutL2(s, n % 4096, L2Install(s.l2[n % 4096], n / 4096, w2, line, state, dm, im).value);
    var s2 := if instr then s1 else Emit(s1, L2Fill, c, 2, n % 4096, w2, 64 * n, Invalid, state, Some(line));
    SameMoved(s1, s2, n);
    var state1 := if instr then Shared else state;
    L1FillMoves(s2, c, instr, n, w1, line, state1);
    var s3 := PutL1(s2, c, instr, n % 64, L1Fill(GetL1(s2, c, instr, n % 64), n / 64, w1, line, state1));
    var s4 := InstallBoth(s, c, instr, n, w2, w1, line, state).value;
    SameMoved(s3, s4, n);
  }

  /** From a miss in L2 to the filled line, before any prefetch. */
  lemma FillStretch(s: State, c: nat, instr: bool, n: nat, w2: nat, w1: nat, line: Line, state: Mesi)
    requires Inv(s) && c < |s.cores| && w2 < NUM_L2_WAYS && w1 < NUM_L1_WAYS
    requires Proj(s, n).l2.NotInL2? && InMemory(s.mem, n)
    requires s.l2[n % 4096].state[w2] == Invalid && GetL1(s, c, instr, n % 64).state[w1] == Invalid
    requires state == Exclusive || (state == Modified && !instr)
    requires instr ==> line == MemLine(s.mem, n)
    ensures |Proj(s, n).d| == |Proj(s, n).i| == |s.cores|
    ensures var r := InstallBoth(s, c, instr, n, w2, w1, line, state);
            r.Done? && Stretch(s, r.value, n, Installed(Proj(s, n), c, instr, line, state))
  {
    hide Placed, Proj, Stretch, InstallBoth, L1WayOf;
    L2WayProj(s, n);
    NotInL1(s, c, instr, n);
    InstallBothMoves(s, c, instr, n, w2, w1, line, state);
    if instr { FillIKeeps(Proj(s, n), c); } else { FillDKeeps(Proj(s, n), c, line, state); }
    MovedStretch(s, InstallBoth(s, c, instr, n, w2, w1, line, state).value, n, Installed(Proj(s, n), c, instr, line,
        state));
  }

  /** A whole miss: make room, fill, prefetch, count. */
  ghost predicate CallKeeps(s: State, s': State, n: nat, x: LineState) {
    Call(s, s', n, x) && Windowed(s')
  }

  lemma CountCall(s: State, s1: State, c: nat, pmc: Pmc, n: nat, x: LineState)
    requires c < |s.cores| && c < |s1.cores| && CallKeeps(s, s1, n, x)
    ensures CallKeeps(s, Count(s1, c, pmc), n, x)
  {
    hide Inv, Proj;
    SameCall(s1, Count(s1, c, pmc), n);
    TracksTwice(s, s1, Count(s1, c, pmc), n);
  }

  lemma MissCall(s: State, c: nat, n: nat, line: Line, state: Mesi)
    requires Inv(s) && Windowed(s) && c < |s.cores| && Proj(s, n).l2.NotInL2? && InMemory(s.mem, n)
    requires state == Exclusive || state == Modified
    ensures |Proj(s, n).d| == |Proj(s, n).i| == |s.cores|
    ensures var r1 := MakeRoom(s, c, false, n);
            && r1.Done?
            && var (s1, w2, w1) := r1.value;
               && MemLine(s1.mem, n) == Proj(s, n).mem
               && var r2 := InstallBoth(s1, c, false, n, w2, w1, line, state);
                  && r2.Done?
                  && var r3 := StreamOnMiss(r2.value, c, 64 * n);
                     r3.Done? && CallKeeps(s, CountMem(r3.value, c), n, FillD(Proj(s, n), c, line, state))
  {
    hide Inv, Proj, Stretch, Call, StreamOnMiss, InstallBoth, MakeRoom, FillD;
    L2WayProj(s, n);
    MakeRoomStretch(s, c, false, n);
    var (s1, w2, w1) := MakeRoom(s, c, false, n).value;
    L2WayProj(s1, n);
    StretchKeeps(s, s1, n);
    StretchRest(s, s1, n, Proj(s, n));
    FillStretch(s1, c, false, n, w2, w1, line, state);
    var x := FillD(Proj(s, n), c, line, state);
    var s2 := InstallBoth(s1, c, false, n, w2, w1, line, state).value;
    StretchTwice(s, s1, s2, n, Proj(s, n), x);
    StretchRest(s, s2, n, x);
    WindowedRest(s, s2);
    FilledInL2(Proj(s, n), c, line, state);
    StreamOnMissCall(s2, c, n);
    var s3 := StreamOnMiss(s2, c, 64 * n).value;
    StretchThenCall(s, s2, s3, n, x, x);
    CountCall(s, s3, c, CountMem(s3, c).cores[c].pmc, n, x);
  }

  lemma FilledInL2(x: LineState, c: nat, line: Line, state: Mesi)
    requires c < |x.d|
    ensures FillD(x, c, line, state).l2.InL2? && FillD(x, c, line, state).mem == x.mem
  {
  }

  lemma StretchRest(s: State, s': State, n: nat, x: LineState)
    requires Stretch(s, s', n, x)
    ensures Inv(s') && SameRest(s, s') && Proj(s', n) == x
  {
  }

  lemma ReadFromMemoryCall(s: State, c: nat, pa: nat)
    requires Inv(s) && Windowed(s) && c < |s.cores|
    requires var n := pa / 64; Proj(s, n).l2.NotInL2? && InMemory(s.mem, n)
    ensures var n := pa / 64; c < |Proj(s, n).d|
    ensures var n, r := pa / 64, ReadFromMemory(s, c, pa);
            && r.Done? && CallKeeps(s, r.value.0, n, FillD(Proj(s, n), c, Proj(s, n).mem, Exclusive))
            && r.value.1 == Proj(s, n).mem
  {
    hide Inv, Proj, StreamOnMiss, InstallBoth, MakeRoom, FillD, Tracks;
    var n := pa / 64;
    MissCall(s, c, n, Proj(s, n).mem, Exclusive);
    var s' := ReadFromMemory(s, c, pa).value.0;
    L2WayProj(s', n);
    FilledInL2(Proj(s, n), c, Proj(s, n).mem, Exclusive);
  }

  lemma WriteFromMemoryCall(s: State, c: nat, pa: nat, bytes: seq<byte>)
    requires Inv(s) && Windowed(s) && c < |s.cores| && pa % 64 + |bytes| <= LINE_SIZE
    requires var n := pa / 64; Proj(s, n).l2.NotInL2? && InMemory(s.mem, n)
    ensures var n := pa / 64; c < |Proj(s, n).d|
    ensures var n, r := pa / 64, WriteFromMemory(s, c, pa, bytes);
            r.Done? && CallKeeps(s, r.value, n, FillD(Proj(s, n), c, Patch(Proj(s, n).mem, pa % 64, bytes), Modified))
  {
    hide Inv, Proj, StreamOnMiss, InstallBoth, MakeRoom, FillD, Call, Patch;
    var n := pa / 64;
    L2WayProj(s, n);
    MissCall(s, c, n, Patch(Proj(s, n).mem, pa % 64, bytes), Modified);
  }

  /** Up to the prefetch. */
  lemma FetchFills(s: State, c: nat, n: nat)
    requires Inv(s) && c < |s.cores| && Proj(s, n).l2.NotInL2? && InMemory(s.mem, n)
    ensures c < |Proj(s, n).i|
    ensures var r1 := MakeRoom(s, c, true, n);
            && r1.Done?
            && var (s1, w2, w1) := r1.value;
               var r2 := InstallBoth(s1, c, true, n, w2, w1, MemLine(s1.mem, n), Exclusive);
               r2.Done? && Stretch(s, r2.value, n, FillI(Proj(s, n), c))
  {
    hide Inv, Proj, Stretch, InstallBoth, MakeRoom;
    L2WayProj(s, n);
    MakeRoomStretch(s, c, true, n);
    var (s1, w2, w1) := MakeRoom(s, c, true, n).value;
    L2WayProj(s1, n);
    StretchRest(s, s1, n, Proj(s, n));
    FillStretch(s1, c, true, n, w2, w1, MemLine(s1.mem, n), Exclusive);
    var s2 := InstallBoth(s1, c, true, n, w2, w1, MemLine(s1.mem, n), Exclusive).value;
    StretchTwice(s, s1, s2, n, Proj(s, n), FillI(Proj(s, n), c));
  }

  lemma FetchedInL2(x: LineState, c: nat)
    requires c < |x.i|
    ensures FillI(x, c).l2.InL2? && FillI(x, c).mem == x.mem
  {
  }

  lemma FetchFromMemoryCall(s: State, c: nat, n: nat)
    requires Inv(s) && Windowed(s) && c < |s.cores| && Proj(s, n).l2.NotInL2? && InMemory(s.mem, n)
    ensures c < |Proj(s, n).i|
    ensures var r := FetchFromMemory(s, c, n);
            r.Done? && CallKeeps(s, r.value.0, n, FillI(Proj(s, n), c)) && r.value.1 == Proj(s, n).mem
  {
    hide Inv, Proj, Stretch, Call, InstallBoth, MakeRoom, PfFill, FillI;
    FetchFills(s, c, n);
    var (s1, w2, w1) := MakeRoom(s, c, true, n).value;
    var x := FillI(Proj(s, n), c);
    FetchedInL2(Proj(s, n), c);
    var s2 := InstallBoth(s1, c, true, n, w2, w1, MemLine(s1.mem, n), Exclusive).value;
    StretchRest(s, s2, n, x);
    PfFillStretch(s2, 64 * n, 64 * n + 64, n);
    var s3 := PfFill(s2, 64 * n, 64 * n + 64).value.0;
    StretchTwice(s, s2, s3, n, x, x);
    StretchRest(s, s3, n, x);
    WindowedRest(s, s3);
    StretchIsCall(s, s3, n, x);
    CountCall(s, s3, c, CountMem(s3, c).cores[c].pmc, n, x);
    L2WayProj(s3, n);
  }

  // ---------------------------------------------------------------------------
  // Reading a line that L2 holds
  // ---------------------------------------------------------------------------

  /** The line once the reader is recorded and its peers are downgraded. */
  function Read1(x: LineState, c: nat, instr: bool): LineState
    requires x.l2.InL2?
  {
    var y := if OthersShare(x, c) then Downgrade(x, c) else x;
    y.(l2 := if instr then y.l2.(im := y.l2.im + {c}) else y.l2.(dm := y.l2.dm + {c}))
  }

  lemma ReadL2WayMoves(s: State, c: nat, instr: bool, n: nat, w2: nat)
    requires Inv(s) && c < |s.cores| && w2 < NUM_L2_WAYS && w2 == L2WayOf(s, n)
    ensures Proj(s, n).l2.InL2?
    ensures var (s', line, shared) := ReadL2Way(s, c, instr, n, w2);
            && Moved(s, s', n, Read1(Proj(s, n), c, instr))
            && SameRest(s, s') && SameMemory(s, s') && s'.cores[c] == s.cores[c]
            && line == Read1(Proj(s, n), c, instr).l2.data
            && shared == OthersShare(Proj(s, n), c)
  {
    hide Placed, Proj, Coherent, DowngradePeers, DownSome, Downgrade;
    L2WayProj(s, n);
    var x := Proj(s, n);
    var l2 := L2Read(s.l2[n % 4096], c, w2, instr);
    L2KeepMoves(s, n, w2, l2);
    var s1 := PutL2(s, n % 4096, l2);
    var dSharers := l2.dm[w2] - {c};
    assert dSharers == x.l2.dm - {c};
    assert l2.im[w2] - {c} == x.l2.im - {c};
    if OthersShare(x, c) {
      DowngradeAllMoves(s1, dSharers, n, w2);
      DownSomeIsDowngrade(x, c, l2.dm[w2], l2.im[w2]);
      var s2 := SnoopDowngradePeers(s1, dSharers, n, w2, x.l2.data).0;
      MovedTwice(s, s1, s2, n, Proj(s1, n), Proj(s2, n));
      DowngradeMasks(x, c);
    }
  }

  lemma DowngradeMasks(x: LineState, c: nat)
    requires x.l2.InL2?
    ensures Downgrade(x, c).l2.InL2? && Downgrade(x, c).l2.dm == x.l2.dm && Downgrade(x, c).l2.im == x.l2.im
    ensures Downgrade(x, c).l2.state == Shared
    ensures |Downgrade(x, c).d| == |x.d| && Downgrade(x, c).i == x.i
  {
  }

  lemma DowngradeAllMoves(s: State, sharers: set<nat>, n: nat, w2: nat)
    requires Placed(s) && w2 < NUM_L2_WAYS && w2 == L2WayOf(s, n)
    ensures var x, line := Proj(s, n), s.l2[n % 4096].data[w2];
            var (s', line') := SnoopDowngradePeers(s, sharers, n, w2, line);
            && x.l2.InL2?
            && var y := DownSome(x.(l2 := x.l2.(state := Shared)), sharers);
               && Moved(s, s', n, y) && SnoopKeeps(s, s', sharers) && y.l2.InL2? && line' == y.l2.data
  {
    hide Placed, Proj, DowngradePeers, DownSome, SnoopKeeps;
    L2WayProj(s, n);
    var l2 := s.l2[n % 4096];
    var l2': L2Set := l2.(state := l2.state[w2 := Shared]);
    L2KeepMoves(s, n, w2, l2');
    var s1 := PutL2(s, n % 4096, l2');
    var line := l2.data[w2];
    DowngradePeersMoves(s1, sharers, n, w2, line);
    var s2 := DowngradePeers(s1, sharers, n, w2, line).0;
    MovedTwice(s, s1, s2, n, Proj(s1, n), Proj(s2, n));
    assert SnoopKeeps(s, s1, {}) by { PutL2Keeps(s, n % 4096, l2'); }
    SnoopKeepsTwice(s, s1, s2, {}, sharers);
    assert {} + sharers == sharers;
  }

  lemma PutL2Keeps(s: State, k: nat, l2: L2Set)
    requires k < L2_SETS && SameL2Ways(s, PutL2(s, k, l2))
    ensures SnoopKeeps(s, PutL2(s, k, l2), {})
  {
  }

  /** Snoop, then fill core c's L1 with what came back. */
  lemma ReadThenFill(s: State, c: nat, instr: bool, n: nat, w2: nat, w1: nat)
    requires Inv(s) && c < |s.cores| && w2 < NUM_L2_WAYS && w2 == L2WayOf(s, n) && w1 < NUM_L1_WAYS
    requires GetL1(s, c, instr, n % 64).state[w1] == Invalid && L1WayOf(s, c, instr, n) == NUM_L1_WAYS
    requires instr ==> s.l2[n % 4096].state[w2] != Modified
    ensures var x := Proj(s, n); x.l2.InL2? && c < |x.d| && c < |x.i|
    ensures var x := Proj(s, n);
            var (s2, line, shared) := ReadL2Way(s, c, instr, n, w2);
            var fill := if shared || instr then Shared else Exclusive;
            var s3 := PutL1(s2, c, instr, n % 64, L1Fill(GetL1(s2, c, instr, n % 64), n / 64, w1, line, fill));
            && Stretch(s, s3, n, if instr then FetchShared(x, c) else ReadShared(x, c))
            && line == View(x)
  {
    hide Placed, Proj, ReadL2Way, Coherent, L1Fill, Downgrade, L1WayOf;
    var x := Proj(s, n);
    L2WayProj(s, n);
    L1WayProj(s, c, instr, n);
    ReadL2WayMoves(s, c, instr, n, w2);
    var (s2, line, shared) := ReadL2Way(s, c, instr, n, w2);
    SameL1Way(s, s2, c, instr, n);
    var fill := if shared || instr then Shared else Exclusive;
    DowngradeMasks(x, c);
    L1FillMoves(s2, c, instr, n, w1, line, fill);
    var s3 := PutL1(s2, c, instr, n % 64, L1Fill(GetL1(s2, c, instr, n % 64), n / 64, w1, line, fill));
    var y := if instr then FetchShared(x, c) else ReadShared(x, c);
    if instr { FetchSharedKeeps(x, c); } else { ReadSharedKeeps(x, c); }
    MovedTwice(s, s2, s3, n, Read1(x, c, instr), y);
    MovedStretch(s, s3, n, y);
  }

  lemma SameL1Way(s: State, s': State, c: nat, instr: bool, n: nat)
    requires c < |s.cores| == |s'.cores| && s.cores[c] == s'.cores[c]
    ensures L1WayOf(s', c, instr, n) == L1WayOf(s, c, instr, n)
  {
  }

  lemma CountFillCall(s: State, s1: State, s2: State, n: nat, x: LineState)
    requires Windowed(s) && Stretch(s, s1, n, x)
    requires SameShape(s1, s2) && s2.lossless == s1.lossless && s2.l2 == s1.l2 && s2.mem == s1.mem
    requires forall c: nat :: c < |s1.cores| ==>
               s2.cores[c].l1d == s1.cores[c].l1d && s2.cores[c].l1i == s1.cores[c].l1i
                   && s2.cores[c].pf == s1.cores[c].pf
    ensures CallKeeps(s, s2, n, x)
  {
    hide Inv, Tracks, Proj;
    SameCall(s1, s2, n);
    StretchThenCall(s, s1, s2, n, x, x);
  }

  lemma ReadFromL2Call(s: State, c: nat, pa: nat, w2: nat)
    requires Inv(s) && Windowed(s) && c < |s.cores|
    requires var n := pa / 64; w2 < NUM_L2_WAYS && w2 == L2WayOf(s, n) && L1WayOf(s, c, false, n) == NUM_L1_WAYS
    ensures var n := pa / 64; Proj(s, n).l2.InL2? && c < |Proj(s, n).d|
    ensures var n, r := pa / 64, ReadFromL2(s, c, pa, w2);
            && r.Done? && CallKeeps(s, r.value.0, n, ReadShared(Proj(s, n), c))
            && r.value.1 == View(Proj(s, n))
  {
    hide Inv, Proj, Stretch, EvictL1, ReadL2Way, L1Fill, ReadShared, L1WayOf, L2WayOf, CallKeeps, View;
    var n := pa / 64;
    L2WayProj(s, n);
    var state := s.l2[n % 4096].state[w2];
    var s0 := Emit(s, L2Hit, c, 2, n % 4096, w2, pa, state, state, None);
    SameStretch(s, s0, n);
    StretchKeeps(s, s0, n);
    SameL1Way(s, s0, c, false, n);
    EvictL1Stretch(s0, c, false, n);
    var (s1, w1) := EvictL1(s0, c, false, n % 64).value;
    StretchTwice(s, s0, s1, n, Proj(s, n), Proj(s, n));
    StretchKeeps(s, s1, n);
    L2Ways(s, s0, s1, n);
    L1WayProj(s, c, false, n);
    L1WayProj(s1, c, false, n);
    ReadThenFill(s1, c, false, n, w2, w1);
    var (s2, line, shared) := ReadL2Way(s1, c, false, n, w2);
    var fill := if shared then Shared else Exclusive;
    var s3 := PutL1(s2, c, false, n % 64, L1Fill(GetL1(s2, c, false, n % 64), n / 64, w1, line, fill));
    StretchTwice(s, s1, s3, n, Proj(s, n), ReadShared(Proj(s, n), c));
    CountFillCall(s, s3, ReadFromL2(s, c, pa, w2).value.0, n, ReadShared(Proj(s, n), c));
  }

  lemma L2Ways(s: State, s0: State, s1: State, n: nat)
    requires s0.l2 == s.l2 && SameL2Ways(s0, s1)
    ensures L2WayOf(s1, n) == L2WayOf(s, n)
  {
    SameL2WaysFinds(s0, s1, n);
  }

  lemma FetchFromL2Call(s: State, c: nat, n: nat, w2: nat)
    requires Inv(s) && Windowed(s) && c < |s.cores|
    requires w2 < NUM_L2_WAYS && w2 == L2WayOf(s, n) && L1WayOf(s, c, true, n) == NUM_L1_WAYS
    ensures Proj(s, n).l2.InL2? && c < |Proj(s, n).i|
    ensures var r := FetchFromL2(s, c, n, w2);
            && (r.Done? <==> Proj(s, n).l2.state != Modified)
            && (r.Done? ==> CallKeeps(s, r.value.0, n, FetchShared(Proj(s, n), c)) && r.value.1 == View(Proj(s, n)))
  {
    hide Inv, Proj, Stretch, EvictL1, ReadL2Way, L1Fill, FetchShared, L1WayOf, L2WayOf, CallKeeps, View;
    L2WayProj(s, n);
    if s.l2[n % 4096].state[w2] != Modified {
      EvictL1Stretch(s, c, true, n);
      var (s1, w1) := EvictL1(s, c, true, n % 64).value;
      StretchKeeps(s, s1, n);
      SameL2WaysFinds(s, s1, n);
      L2WayProj(s1, n);
      L1WayProj(s, c, true, n);
      L1WayProj(s1, c, true, n);
      ReadThenFill(s1, c, true, n, w2, w1);
      var (s2, line, shared) := ReadL2Way(s1, c, true, n, w2);
      var s3 := PutL1(s2, c, true, n % 64, L1Fill(GetL1(s2, c, true, n % 64), n / 64, w1, line, Shared));
      StretchTwice(s, s1, s3, n, Proj(s, n), FetchShared(Proj(s, n), c));
      CountFillCall(s, s3, FetchFromL2(s, c, n, w2).value.0, n, FetchShared(Proj(s, n), c));
    }
  }

  // ---------------------------------------------------------------------------
  // Hits
  // ---------------------------------------------------------------------------

  lemma TouchStretch(s: State, c: nat, instr: bool, n: nat, w: nat)
    requires Inv(s) && c < |s.cores| && w < NUM_L1_WAYS && w == L1WayOf(s, c, instr, n)
    ensures Stretch(s, PutL1(s, c, instr, n % 64, L1Touch(GetL1(s, c, instr, n % 64), w)), n, Proj(s, n))
  {
    hide Placed, Proj, Coherent;
    L1WayProj(s, c, instr, n);
    var x := Proj(s, n);
    L1KeepMoves(s, c, instr, n, w, L1Touch(GetL1(s, c, instr, n % 64), w));
    if instr { assert x.i[c := x.i[c]] == x.i; } else { assert x.d[c := x.d[c]] == x.d; }
    MovedStretch(s, PutL1(s, c, instr, n % 64, L1Touch(GetL1(s, c, instr, n % 64), w)), n, x);
  }

  lemma ReadHitCall(s: State, c: nat, pa: nat, w: nat)
    requires Inv(s) && Windowed(s) && c < |s.cores| && w < NUM_L1_WAYS && w == L1WayOf(s, c, false, pa / 64)
    ensures CallKeeps(s, ReadHit(s, c, pa, w), pa / 64, Proj(s, pa / 64))
    ensures s.cores[c].l1d[pa / 64 % 64].data[w] == ViewOf(s, pa / 64)
  {
    hide Placed, Proj, Tracks, Coherent;
    var n := pa / 64;
    L1WayProj(s, c, false, n);
    CopyIsView(Proj(s, n), c);
    TouchStretch(s, c, false, n, w);
    var s1 := PutL1(s, c, false, n % 64, L1Touch(s.cores[c].l1d[n % 64], w));
    CountFillCall(s, s1, ReadHit(s, c, pa, w), n, Proj(s, n));
  }

  lemma FetchHitCall(s: State, c: nat, n: nat, w: nat)
    requires Inv(s) && Windowed(s) && c < |s.cores| && w < NUM_L1_WAYS && w == L1WayOf(s, c, true, n)
    ensures CallKeeps(s, PutL1(CountL1i(s, c), c, true, n % 64, L1Touch(s.cores[c].l1i[n % 64], w)), n, Proj(s, n))
    ensures s.cores[c].l1i[n % 64].data[w] == ViewOf(s, n)
  {
    hide Placed, Proj, Tracks, Coherent;
    L1WayProj(s, c, true, n);
    CopyIsView(Proj(s, n), c);
    TouchStretch(s, c, true, n, w);
    var s1 := PutL1(s, c, true, n % 64, L1Touch(s.cores[c].l1i[n % 64], w));
    CountFillCall(s, s1, PutL1(CountL1i(s, c), c, true, n % 64, L1Touch(s.cores[c].l1i[n % 64], w)), n, Proj(s, n));
  }

  // ---------------------------------------------------------------------------
  // Stores to a line that L2 holds
  // ---------------------------------------------------------------------------

  /** The end of both store paths: drop every instruction copy, then own the way. */
  function TakeOver(s: State, c: nat, n: nat, w2: nat, touch: bool): (r: State)
    requires w2 < NUM_L2_WAYS
    ensures |r.cores| == |s.cores|
  {
    var s1 := InvalidatePeersI(s, s.l2[n % 4096].im[w2], n);
    var l2 := L2Own(s1.l2[n % 4096], c, w2);
    PutL2(s1, n % 4096, if touch then L2Touch(l2, w2) else l2)
  }

  lemma TakeOverMoves(s: State, c: nat, n: nat, w2: nat, touch: bool)
    requires Placed(s) && w2 < NUM_L2_WAYS && w2 == L2WayOf(s, n)
    requires forall b: nat :: Holds(Proj(s, n).i, b) ==> b in s.l2[n % 4096].im[w2]
    ensures var x, s' := Proj(s, n), TakeOver(s, c, n, w2, touch);
            && x.l2.InL2?
            && Moved(s, s', n, x.(i := AllAbsent(|x.i|), l2 := InL2(Modified, {c}, {}, x.l2.data)))
            && SameRest(s, s') && SameMemory(s, s')
            && (forall b: nat :: b < |s.cores| ==> s'.cores[b].l1d == s.cores[b].l1d)
  {
    hide Placed, Proj;
    L2WayProj(s, n);
    var x := Proj(s, n);
    InvalidatePeersIMoves(s, x.l2.im, n);
    var s1 := InvalidatePeersI(s, x.l2.im, n);
    var i1 := Proj(s1, n).i;
    assert i1 == AllAbsent(|x.i|) by {
      forall b: nat | b < |x.i| ensures i1[b] == Absent { assert Holds(x.i, b) || x.i[b] == Absent; }
    }
    assert L2WayOf(s1, n) == w2;
    var l2 := L2Own(s1.l2[n % 4096], c, w2);
    var l2' := if touch then L2Touch(l2, w2) else l2;
    L2KeepMoves(s1, n, w2, l2');
    MovedTwice(s, s1, PutL2(s1, n % 4096, l2'), n, Proj(s1, n), Proj(PutL2(s1, n % 4096, l2'), n));
  }

  /** With its peers gone, the line is still coherent, though its view may be old. */
  lemma KilledCoherent(x: LineState, y: LineState, c: nat)
    requires Coherent(x) && x.l2.InL2? && Killed(x, y, x.l2.dm - {c})
    ensures Coherent(y) && y.l2.InL2?
    ensures forall b: nat :: Holds(y.d, b) ==> b == c
    ensures c < |x.d| ==> y.d[c] == x.d[c]
    ensures forall b: nat :: Holds(y.i, b) ==> b in y.l2.im
  {
    OwnerCases(x);
    assert forall b: nat :: Holds(y.d, b) <==> Holds(x.d, b) && b !in x.l2.dm - {c};
    assert forall b: nat :: Holds(y.i, b) <==> Holds(x.i, b);
    assert forall b: nat :: Shares(y.l2, b) ==> Shares(x.l2, b);
  }

  lemma OwnerAt(x: LineState, o: nat)
    requires Coherent(x) && o == OwnerFrom(x.d, 0)
    ensures forall b: nat :: HoldsIn(x.d, b, Modified) ==> b == o
  {
    OwnerCases(x);
    forall b: nat | HoldsIn(x.d, b, Modified) ensures b == o { assert Holds(x.d, b); }
  }

  /** Snooping the other data caches for a store, as a stretch of the call. */
  lemma InvalidateStretch(s: State, c: nat, n: nat, w2: nat, line: Line)
    requires Inv(s) && c < |s.cores| && w2 < NUM_L2_WAYS && w2 == L2WayOf(s, n)
    ensures Proj(s, n).l2.InL2?
    ensures var x := Proj(s, n);
            var (s', line') := InvalidatePeers(s, s.l2[n % 4096].dm[w2] - {c}, n, w2, line);
            && Stretch(s, s', n, Proj(s', n))
            && Killed(x, Proj(s', n), x.l2.dm - {c})
            && SnoopKeeps(s, s', x.l2.dm - {c})
            && L2WayOf(s', n) == w2
            && (x.d[c].Absent? && line == x.l2.data ==> line' == View(x))
  {
    hide Placed, Proj, InvalidatePeers, Coherent, Killed;
    L2WayProj(s, n);
    var x := Proj(s, n);
    var o := OwnerFrom(x.d, 0);
    OwnerAt(x, o);
    InvalidatePeersMoves(s, x.l2.dm - {c}, n, w2, line, o);
    var s' := InvalidatePeers(s, x.l2.dm - {c}, n, w2, line).0;
    KilledCoherent(x, Proj(s', n), c);
    MovedStretch(s, s', n, Proj(s', n));
    OwnerCases(x);
    assert o < |x.d| ==> HoldsIn(x.d, o, Modified);
  }

  lemma OwnedIs(x: LineState, y: LineState, c: nat, line: Line)
    requires Coherent(x) && x.l2.InL2? && Killed(x, y, x.l2.dm - {c}) && c < |x.d|
    ensures y.(d := y.d[c := Copy(Modified, line)], i := AllAbsent(|y.i|), l2 := InL2(Modified, {c}, {}, y.l2.data))
         == OwnedBy(x, c, line)
  {
    KilledCoherent(x, y, c);
    var d1 := y.d[c := Copy(Modified, line)];
    forall b: nat | b < |x.d| ensures d1[b] == OwnedBy(x, c, line).d[b] {
      assert Holds(y.d, b) ==> b == c;
    }
    assert d1 == OwnedBy(x, c, line).d;
  }

  /** The store of a hit: peers and instruction copies go, then the way is rewritten. */
  lemma WriteHitMoves(s: State, c: nat, pa: nat, w: nat, w2: nat, bytes: seq<byte>, x: LineState)
    requires Inv(s) && c < |s.cores| && w < NUM_L1_WAYS && w2 < NUM_L2_WAYS && pa % 64 + |bytes| <= LINE_SIZE
    requires var n := pa / 64; w == L1WayOf(s, c, false, n) && w2 == L2WayOf(s, n)
    requires Coherent(x) && x.l2.InL2? && c < |x.d| && Killed(x, Proj(s, pa / 64), x.l2.dm - {c})
    requires Holds(x.d, c) && x.d[c].data == View(x)
    ensures var n := pa / 64;
            var s3 := TakeOver(s, c, n, w2, false);
            var l1 := L1Write(s3.cores[c].l1d[n % 64], w, pa % 64, bytes);
            && Stretch(s, PutL1(s3, c, false, n % 64, l1), n, OwnedBy(x, c, Patch(View(x), pa % 64, bytes)))
            && (forall b: nat :: b < |s.cores| ==> s3.cores[b].pmc == s.cores[b].pmc)
  {
    hide Placed, Proj, Coherent, TakeOver, Patch, Killed;
    var n := pa / 64;
    var y := Proj(s, n);
    L2WayProj(s, n);
    L1WayProj(s, c, false, n);
    KilledCoherent(x, y, c);
    TakeOverMoves(s, c, n, w2, false);
    var s3 := TakeOver(s, c, n, w2, false);
    var line := Patch(View(x), pa % 64, bytes);
    var l1 := L1Write(s3.cores[c].l1d[n % 64], w, pa % 64, bytes);
    assert L1WayOf(s3, c, false, n) == w;
    L1KeepMoves(s3, c, false, n, w, l1);
    var s4 := PutL1(s3, c, false, n % 64, l1);
    OwnedIs(x, y, c, line);
    MovedTwice(s, s3, s4, n, Proj(s3, n), OwnedBy(x, c, line));
    OwnedByKeeps(x, c, line);
    MovedStretch(s, s4, n, OwnedBy(x, c, line));
  }

  lemma KilledNone(x: LineState, c: nat)
    requires Coherent(x) && x.l2.InL2? && Holds(x.d, c) && x.d[c].state != Shared
    ensures Killed(x, x, x.l2.dm - {c})
  {
    assert x.l2.dm == {c};
    assert x.l2.dm - {c} == {};
  }

  lemma WriteHitCall(s: State, c: nat, pa: nat, w: nat, bytes: seq<byte>)
    requires Inv(s) && Windowed(s) && c < |s.cores| && w < NUM_L1_WAYS && pa % 64 + |bytes| <= LINE_SIZE
    requires w == L1WayOf(s, c, false, pa / 64)
    ensures var n := pa / 64; Proj(s, n).l2.InL2? && c < |Proj(s, n).d|
    ensures var n, r := pa / 64, WriteHit(s, c, pa, w, bytes);
            && r.Done?
            && CallKeeps(s, r.value, n, OwnedBy(Proj(s, n), c, Patch(ViewOf(s, n), pa % 64, bytes)))
  {
    hide Placed, Proj, Coherent, Stretch, InvalidatePeersI, Upgrade, Patch, L1Write, CallKeeps, View, OwnedBy;
    var n := pa / 64;
    var x := Proj(s, n);
    L1WayProj(s, c, false, n);
    L2WayProj(s, n);
    CopyIsView(x, c);
    HeldInL2(x, c);
    var w2 := L2WayOf(s, n);
    var s1 := if x.d[c].state == Shared then Upgrade(s, c, n, w2) else s;
    if x.d[c].state == Shared {
      UpgradeStretch(s, c, n, w2);
    } else {
      StretchNone(s, n);
      KilledNone(x, c);
    }
    StretchKeepsInv(s, s1, n);
    SameL1Way(s, s1, c, false, n);
    var y := OwnedBy(x, c, Patch(ViewOf(s, n), pa % 64, bytes));
    WriteHitMoves(s1, c, pa, w, w2, bytes, x);
    var s3 := TakeOver(s1, c, n, w2, false);
    var l1 := L1Write(s3.cores[c].l1d[n % 64], w, pa % 64, bytes);
    var s4 := PutL1(s3, c, false, n % 64, l1);
    StretchTwice(s, s1, s4, n, Proj(s1, n), y);
    CountFillCall(s, s4, WriteHit(s, c, pa, w, bytes).value, n, y);
  }

  lemma UpgradeStretch(s: State, c: nat, n: nat, w2: nat)
    requires Inv(s) && c < |s.cores| && w2 < NUM_L2_WAYS && w2 == L2WayOf(s, n)
    ensures Proj(s, n).l2.InL2?
    ensures var x, s1 := Proj(s, n), Upgrade(s, c, n, w2);
            && Stretch(s, s1, n, Proj(s1, n))
            && Killed(x, Proj(s1, n), x.l2.dm - {c})
            && s1.cores[c] == s.cores[c]
            && L2WayOf(s1, n) == w2
  {
    hide Placed, Proj, Coherent, Stretch, InvalidatePeers, Killed, L2Touch;
    InvalidateStretch(s, c, n, w2, ZeroLine());
    var s1 := InvalidatePeers(s, s.l2[n % 4096].dm[w2] - {c}, n, w2, ZeroLine()).0;
    StretchKeepsInv(s, s1, n);
    TouchL2Stretch(s1, n, w2);
    var s2 := Upgrade(s, c, n, w2);
    StretchTwice(s, s1, s2, n, Proj(s1, n), Proj(s1, n));
    StretchRest(s, s2, n, Proj(s1, n));
  }

  lemma HeldInL2(x: LineState, c: nat)
    requires Coherent(x) && Holds(x.d, c)
    ensures x.l2.InL2?
  {
  }

  lemma StretchKeepsInv(s: State, s': State, n: nat)
    requires Stretch(s, s', n, Proj(s', n))
    ensures Inv(s')
  {
  }

  lemma TouchL2Stretch(s: State, n: nat, w2: nat)
    requires Inv(s) && w2 < NUM_L2_WAYS && w2 == L2WayOf(s, n)
    ensures var s' := PutL2(s, n % 4096, L2Touch(s.l2[n % 4096], w2));
            Stretch(s, s', n, Proj(s, n)) && L2WayOf(s', n) == w2
  {
    hide Placed, Proj, Coherent;
    L2WayProj(s, n);
    L2KeepMoves(s, n, w2, L2Touch(s.l2[n % 4096], w2));
    MovedStretch(s, PutL2(s, n % 4096, L2Touch(s.l2[n % 4096], w2)), n, Proj(s, n));
  }

  /** The store of an L2 hit, once room is made in L1. */
  lemma WriteThenOwn(s: State, c: nat, n: nat, w2: nat, w1: nat, line: Line, pa: nat, x: LineState)
    requires Inv(s) && c < |s.cores| && w2 < NUM_L2_WAYS && w2 == L2WayOf(s, n) && w1 < NUM_L1_WAYS
    requires s.cores[c].l1d[n % 64].state[w1] == Invalid && L1WayOf(s, c, false, n) == NUM_L1_WAYS
    requires Coherent(x) && x.l2.InL2? && c < |x.d| && Killed(x, Proj(s, n), x.l2.dm - {c})
    ensures var s3 := PutL1(s, c, false, n % 64, L1Fill(s.cores[c].l1d[n % 64], n / 64, w1, line, Modified));
            var s4 := Emit(s3, L1dFill, c, 1, n % 64, w1, pa, Invalid, Modified, Some(line));
            Stretch(s, TakeOver(s4, c, n, w2, true), n, OwnedBy(x, c, line))
  {
    hide Placed, Proj, Coherent, TakeOver, Killed, L1Fill;
    var y := Proj(s, n);
    L2WayProj(s, n);
    KilledCoherent(x, y, c);
    L1FillMoves(s, c, false, n, w1, line, Modified);
    var s3 := PutL1(s, c, false, n % 64, L1Fill(s.cores[c].l1d[n % 64], n / 64, w1, line, Modified));
    var s4 := Emit(s3, L1dFill, c, 1, n % 64, w1, pa, Invalid, Modified, Some(line));
    SameMoved(s3, s4, n);
    TakeOverMoves(s4, c, n, w2, true);
    var s5 := TakeOver(s4, c, n, w2, true);
    OwnedIs(x, y, c, line);
    MovedTwice(s, s4, s5, n, Proj(s4, n), OwnedBy(x, c, line));
    OwnedByKeeps(x, c, line);
    MovedStretch(s, s5, n, OwnedBy(x, c, line));
  }

  lemma WriteFromL2Call(s: State, c: nat, pa: nat, w2: nat, bytes: seq<byte>)
    requires Inv(s) && Windowed(s) && c < |s.cores| && pa % 64 + |bytes| <= LINE_SIZE
    requires var n := pa / 64; w2 < NUM_L2_WAYS && w2 == L2WayOf(s, n) && L1WayOf(s, c, false, n) == NUM_L1_WAYS
    ensures var n := pa / 64; Proj(s, n).l2.InL2? && c < |Proj(s, n).d|
    ensures var n, r := pa / 64, WriteFromL2(s, c, pa, w2, bytes);
            && r.Done?
            && CallKeeps(s, r.value, n, OwnedBy(Proj(s, n), c, Patch(ViewOf(s, n), pa % 64, bytes)))
  {
    hide Inv, Proj, Coherent, Stretch, InvalidatePeers, InvalidatePeersI, EvictL1, Patch, L1Fill, CallKeeps, View,
         OwnedBy, Killed, L1WayOf, L2WayOf;
    var n := pa / 64;
    var x := Proj(s, n);
    L2WayProj(s, n);
    L1WayProj(s, c, false, n);
    var l2 := s.l2[n % 4096];
    var s0 := Emit(s, L2Hit, c, 2, n % 4096, w2, pa, l2.state[w2], l2.state[w2], None);
    SameStretch(s, s0, n);
    StretchKeeps(s, s0, n);
    SameL2Array(s, s0, n);
    InvalidateStretch(s0, c, n, w2, l2.data[w2]);
    var (s1, newest) := InvalidatePeers(s0, l2.dm[w2] - {c}, n, w2, l2.data[w2]);
    StretchTwice(s, s0, s1, n, x, Proj(s1, n));
    StretchKeepsInv(s, s1, n);
    WriteFromL2Rest(s1, c, pa, w2, Patch(newest, pa % 64, bytes), x);
    var (s2, w1) := EvictL1(s1, c, false, n % 64).value;
    var line := Patch(newest, pa % 64, bytes);
    var s3 := PutL1(s2, c, false, n % 64, L1Fill(s2.cores[c].l1d[n % 64], n / 64, w1, line, Modified));
    var s5 := TakeOver(Emit(s3, L1dFill, c, 1, n % 64, w1, pa, Invalid, Modified, Some(line)), c, n, w2, true);
    StretchTwice(s, s1, s5, n, Proj(s1, n), OwnedBy(x, c, line));
    CountFillCall(s, s5, WriteFromL2(s, c, pa, w2, bytes).value, n, OwnedBy(x, c, line));
  }

  lemma SameL2Array(s: State, s': State, n: nat)
    requires s'.l2 == s.l2
    ensures L2WayOf(s', n) == L2WayOf(s, n)
  {
  }

  lemma WriteFromL2Rest(s: State, c: nat, pa: nat, w2: nat, line: Line, x: LineState)
    requires Inv(s) && c < |s.cores| && w2 < NUM_L2_WAYS && w2 == L2WayOf(s, pa / 64)
    requires Coherent(x) && x.l2.InL2? && c < |x.d| && x.d[c].Absent?
    requires Killed(x, Proj(s, pa / 64), x.l2.dm - {c})
    ensures var n := pa / 64;
            var r := EvictL1(s, c, false, n % 64);
            && r.Done?
            && var (s2, w1) := r.value;
               var s3 := PutL1(s2, c, false, n % 64, L1Fill(s2.cores[c].l1d[n % 64], n / 64, w1, line, Modified));
               var s5 := TakeOver(Emit(s3, L1dFill, c, 1, n % 64, w1, pa, Invalid, Modified, Some(line)), c, n, w2,
                   true);
               Stretch(s, s5, n, OwnedBy(x, c, line))
  {
    hide Inv, Proj, Stretch, EvictL1, TakeOver, L1Fill, OwnedBy, L1WayOf, L2WayOf, Coherent;
    var n := pa / 64;
    L1WayProj(s, c, false, n);
    EvictL1Stretch(s, c, false, n);
    var (s2, w1) := EvictL1(s, c, false, n % 64).value;
    StretchKeeps(s, s2, n);
    SameL2WaysFinds(s, s2, n);
    L1WayProj(s2, c, false, n);
    WriteThenOwn(s2, c, n, w2, w1, line, pa, x);
    var s3 := PutL1(s2, c, false, n % 64, L1Fill(s2.cores[c].l1d[n % 64], n / 64, w1, line, Modified));
    var s5 := TakeOver(Emit(s3, L1dFill, c, 1, n % 64, w1, pa, Invalid, Modified, Some(line)), c, n, w2, true);
    StretchTwice(s, s2, s5, n, Proj(s, n), OwnedBy(x, c, line));
  }
}
