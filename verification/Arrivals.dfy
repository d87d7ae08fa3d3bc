/** What a call brings into L2 besides its own line: exactly the lines that it prefetches. */
module Arrivals {
  import opened Types
  import opened Coherence
  import opened Caches
  import opened Projection
  import opened Snoops
  import opened Flat
  import opened Prefetch
  import opened Losses
  import opened Machine
  import C = Calls

  /** The line as a prefetch leaves it: EXCLUSIVE in L2 with memory's bytes, in no L1. */
  function Arrived(x: LineState): LineState { x.(l2 := InL2(Exclusive, {}, {}, x.mem)) }

  /** On line n's page the listed lines that were missing have arrived and the others are as
      they were; lines of other pages are as they were, or have left L2. */
  ghost predicate Brings(s: State, s': State, n: nat, lines: seq<nat>) {
    && (forall m: nat :: m / 64 == n / 64 ==>
          Proj(s', m) == if m in lines && Proj(s, m).l2.NotInL2? then Arrived(Proj(s, m)) else Proj(s, m))
    && (forall m: nat :: m / 64 != n / 64 ==> Proj(s', m) == Proj(s, m) || Proj(s', m).l2.NotInL2?)
  }

  lemma BringsTwice(s: State, s1: State, s2: State, n: nat, a: seq<nat>, b: seq<nat>)
    requires Brings(s, s1, n, a) && Brings(s1, s2, n, b)
    ensures Brings(s, s2, n, a + b)
  {
    hide Proj;
  }

  lemma BringsNothing(s: State, s': State, n: nat)
    requires forall m: nat :: Proj(s', m) == Proj(s, m)
    ensures Brings(s, s', n, [])
  {
    hide Proj;
  }

  /** Making room for a missing line drops a line of another page. */
  lemma EvictL2Brings(s: State, p: nat)
    requires Inv(s) && Proj(s, p).l2.NotInL2?
    ensures var r := EvictL2(s, p % 4096);
            && r.Done? && Inv(r.value.0) && SameRest(s, r.value.0) && Brings(s, r.value.0, p, [])
            && r.value.0.l2[p % 4096].state[r.value.1] == Invalid
  {
    hide Placed, Coherent, Proj, EvictL2, EvictShared;
    EvictL2Moves(s, p % 4096);
    var s' := EvictL2(s, p % 4096).value.0;
    if s' == s {
      BringsNothing(s, s', p);
    } else {
      var m: nat :| m % 4096 == p % 4096 && EvictsLine(s, s', m);
      if m / 64 == p / 64 { OneLinePerSet(m, p); }
      assert EvictShared(Proj(s, m)).l2.NotInL2? by { OutOfL2(Proj(s, m)); }
    }
  }

  lemma OutOfL2(x: LineState)
    requires x.l2.InL2?
    ensures EvictShared(x).l2.NotInL2?
  {
  }

  /** pf_fill_l2 answers true exactly for a line of the page and of memory other than line 0,
      and then that line is in L2. */
  lemma PfFillBrings(s: State, from: int, next: int)
    requires Inv(s) && next % 64 == 0
    ensures var r := PfFill(s, from, next);
            && r.Done? && Inv(r.value.0) && SameRest(s, r.value.0)
            && (r.value.1 <==> next / 4096 == from / 4096 && next >= LINE_SIZE && next + LINE_SIZE <= |s.mem|)
            && (!r.value.1 ==> r.value.0 == s)
            && (r.value.1 ==> Brings(s, r.value.0, next / 64, [next / 64]))
  {
    hide Placed, Coherent, Proj, EvictL2, L2Install;
    if next / 4096 == from / 4096 && next >= 64 && next + 64 <= |s.mem| {
      var p: nat := next / 64;
      L2WayProj(s, p);
      if L2WayOf(s, p) == NUM_L2_WAYS {
        PfMissBrings(s, p);
      } else {
        BringsNothing(s, s, p);
      }
    }
  }

  lemma PfMissBrings(s: State, p: nat)
    requires Inv(s) && Proj(s, p).l2.NotInL2? && 64 * p + 64 <= |s.mem|
    ensures var r1 := EvictL2(s, p % 4096);
            && r1.Done?
            && var (s1, w) := r1.value;
               var line := MemLine(s1.mem, p);
               var r2 := L2Install(s1.l2[p % 4096], p / 4096, w, line, Exclusive, {}, {});
               && r2.Done?
               && var s' := Emit(PutL2(s1, p % 4096, r2.value), PrefetchL2, 0, 2, p % 4096, w, 64 * p, Invalid,
                                 Exclusive, Some(line));
                  Inv(s') && SameRest(s, s') && Brings(s, s', p, [p])
  {
    hide Placed, Coherent, Proj, EvictL2, L2Install;
    EvictL2Brings(s, p);
    var (s1, w) := EvictL2(s, p % 4096).value;
    var line := MemLine(s1.mem, p);
    L2WayProj(s1, p);
    InstallL2Moves(s1, p, w, line, Exclusive, {}, {});
    var s2 := PutL2(s1, p % 4096, L2Install(s1.l2[p % 4096], p / 4096, w, line, Exclusive, {}, {}).value);
    PrefetchKeeps(Proj(s1, p));
    MovedStretch(s1, s2, p, Coherence.Prefetch(Proj(s1, p)));
    var s3 := Emit(s2, PrefetchL2, 0, 2, p % 4096, w, 64 * p, Invalid, Exclusive, Some(line));
    SameCaches(s2, s3);
    assert Brings(s1, s3, p, [p]);
    BringsTwice(s, s1, s3, p, [], [p]);
    assert [] + [p] == [p];
  }

  // ---------------------------------------------------------------------------
  // Bursts
  // ---------------------------------------------------------------------------

  lemma SamePage(s: State, s': State, p: nat, n: nat, lines: seq<nat>)
    requires Brings(s, s', p, lines) && p / 64 == n / 64
    ensures Brings(s, s', n, lines)
  {
    hide Proj;
  }

  lemma {:induction false} BurstBrings(s: State, head: int, miss: int, stride: int, left: nat, n: nat)
    requires Inv(s) && (stride == 1 || stride == -1) && head % LINE_SIZE == 0
    requires head / PAGE_SIZE == n / 64 || (head + stride * LINE_SIZE) / PAGE_SIZE != head / PAGE_SIZE
    ensures var r := RunBurst(s, head, miss, stride, left);
            && r.Done?
            && var b := r.value;
               Inv(b.state) && SameRest(s, b.state)
               && Brings(s, b.state, n, BurstLines(|s.mem|, head, miss, stride, left))
    decreases left
  {
    hide Inv, PfFill, Brings, Proj;
    if left == 0 || (head - miss) * stride >= PREFETCH_DISTANCE * LINE_SIZE {
      BringsNothing(s, s, n);
    } else {
      var next := head + stride * LINE_SIZE;
      NextLineOver(head, stride);
      PfFillBrings(s, head, next);
      var (s1, ok) := PfFill(s, head, next).value;
      if ok {
        SamePage(s, s1, next / 64, n, [next / 64]);
        BurstBrings(s1, next, miss, stride, left - 1, n);
        var rest := BurstLines(|s.mem|, next, miss, stride, left - 1);
        BringsTwice(s, s1, RunBurst(s1, next, miss, stride, left - 1).value.state, n, [next / 64], rest);
      } else {
        BringsNothing(s, s, n);
      }
    }
  }

  lemma StreamBrings(s: State, c: nat, n: nat)
    requires Inv(s) && Windowed(s) && c < |s.cores|
    ensures var r := StreamOnMiss(s, c, 64 * n);
            && r.Done? && Brings(s, r.value, n, StreamLines(s, c, n)) && SameShape(s, r.value)
  {
    hide Inv, RunBurst, Brings, BurstLines, Proj;
    var pf := s.cores[c].pf;
    var i := MatchFrom(pf.streams, 64 * n, 0);
    if i < NUM_STREAMS {
      var stream := Advanced(pf.streams[i], 64 * n);
      var stride := stream.direction.Sign();
      MatchStartsBurst(pf.streams[i], 64 * n);
      StartsOnPage(stream.prefetchHead, n, stride);
      BurstBrings(s, stream.prefetchHead, 64 * n, stride, PREFETCH_DISTANCE + 1, n);
      var b := RunBurst(s, stream.prefetchHead, 64 * n, stride, PREFETCH_DISTANCE + 1).value;
      BringsNext(s, b.state, StreamOnMiss(s, c, 64 * n).value, n, StreamLines(s, c, n));
    } else {
      var s' := StreamOnMiss(s, c, 64 * n).value;
      SameCaches(s, s');
      BringsNothing(s, s', n);
    }
  }

  lemma StartsOnPage(head: int, n: nat, stride: int)
    requires BurstStart(head, 64 * n, stride, PREFETCH_DISTANCE + 1)
    ensures head / PAGE_SIZE == n / 64 || (head + stride * LINE_SIZE) / PAGE_SIZE != head / PAGE_SIZE
  {
    assert 64 * n / 4096 == n / 64;
  }

  /** Retraining a stream moves no line. */
  lemma BringsNext(s: State, s1: State, s2: State, n: nat, lines: seq<nat>)
    requires Brings(s, s1, n, lines) && |s2.cores| == |s1.cores| && s2.l2 == s1.l2 && s2.mem == s1.mem
    requires forall b: nat :: b < |s1.cores| ==>
               s2.cores[b].l1d == s1.cores[b].l1d && s2.cores[b].l1i == s1.cores[b].l1i
    ensures Brings(s, s2, n, lines)
  {
    hide Proj;
    SameCaches(s1, s2);
  }

  // ---------------------------------------------------------------------------
  // Whole calls
  // ---------------------------------------------------------------------------

  /** What happens to line n's page mates: the listed ones arrive. */
  ghost predicate MatesArrive(s: State, s': State, n: nat, lines: seq<nat>) {
    forall m: nat :: m / 64 == n / 64 && m != n ==>
      Proj(s', m) == if m in lines && Proj(s, m).l2.NotInL2? then Arrived(Proj(s, m)) else Proj(s, m)
  }

  lemma MatesTwice(s: State, s1: State, s2: State, n: nat, lines: seq<nat>)
    requires MatesArrive(s, s1, n, []) && MatesArrive(s1, s2, n, lines)
    ensures MatesArrive(s, s2, n, lines)
  {
    hide Proj;
  }

  lemma BringsMates(s: State, s': State, n: nat, lines: seq<nat>)
    requires Brings(s, s', n, lines)
    ensures MatesArrive(s, s', n, lines)
  {
    hide Proj;
  }

  /** A change of line n, or of a line on another page. */
  lemma MovedMates(s: State, s': State, n: nat, m: nat, x: LineState)
    requires Moved(s, s', m, x) && (m == n || m / 64 != n / 64)
    ensures MatesArrive(s, s', n, [])
  {
    hide Proj, Placed;
  }

  lemma SameMates(s: State, s': State, n: nat)
    requires |s'.cores| == |s.cores| && s'.l2 == s.l2 && s'.mem == s.mem
    requires forall c: nat :: c < |s.cores| ==> s'.cores[c].l1d == s.cores[c].l1d && s'.cores[c].l1i == s.cores[c].l1i
    ensures MatesArrive(s, s', n, [])
  {
    hide Proj;
    SameCaches(s, s');
  }

  /** evict_l1 takes a line that shares n's set in L1, hence one of another page. */
  lemma EvictL1Mates(s: State, c: nat, instr: bool, n: nat)
    requires Inv(s) && c < |s.cores| && L1WayOf(s, c, instr, n) == NUM_L1_WAYS
    ensures var r := EvictL1(s, c, instr, n % 64); r.Done? && MatesArrive(s, r.value.0, n, [])
  {
    hide Placed, Coherent, Proj, EvictL1;
    EvictL1Moves(s, c, instr, n % 64);
    var s' := EvictL1(s, c, instr, n % 64).value.0;
    if s' != s {
      var m: nat :| m % 64 == n % 64 && EvictsCopy(s, s', c, instr, m);
      if m / 64 == n / 64 { SameLine(m, n); L1WayProj(s, c, instr, n); }
      MovedMates(s, s', n, m, Evicted(Proj(s, m), c, instr));
    }
  }

  /** A miss of any kind, up to the prefetches. */
  lemma FillMates(s: State, c: nat, instr: bool, n: nat, line: Line, state: Mesi)
    requires Inv(s) && c < |s.cores| && Proj(s, n).l2.NotInL2? && InMemory(s.mem, n)
    requires state == Exclusive || (state == Modified && !instr)
    requires instr ==> line == MemLine(s.mem, n)
    ensures var r1 := MakeRoom(s, c, instr, n);
            && r1.Done?
            && var (s1, w2, w1) := r1.value;
               var r2 := InstallBoth(s1, c, instr, n, w2, w1, line, state);
               && r2.Done? && Inv(r2.value) && SameRest(s, r2.value) && MatesArrive(s, r2.value, n, [])
  {
    hide Placed, Coherent, Proj, EvictL1, EvictL2, InstallBoth, L1WayOf, Stretch;
    EvictL2Brings(s, n);
    C.MakeRoomStretch(s, c, instr, n);
    var (t, w2) := EvictL2(s, n % 4096).value;
    BringsMates(s, t, n, []);
    MissingStays(s, t, n);
    C.NotInL1(t, c, instr, n);
    EvictL1Mates(t, c, instr, n);
    var (s1, w1) := EvictL1(t, c, instr, n % 64).value;
    MatesTwice(s, t, s1, n, []);
    StretchKeeps(s, s1, n);
    C.StretchRest(s, s1, n, Proj(s, n));
    L2WayProj(s, n);
    L2WayProj(s1, n);
    C.NotInL1(s1, c, instr, n);
    C.InstallBothMoves(s1, c, instr, n, w2, w1, line, state);
    C.FillStretch(s1, c, instr, n, w2, w1, line, state);
    var s2 := InstallBoth(s1, c, instr, n, w2, w1, line, state).value;
    C.StretchRest(s1, s2, n, C.Installed(Proj(s1, n), c, instr, line, state));
    MovedMates(s1, s2, n, n, C.Installed(Proj(s1, n), c, instr, line, state));
    MatesTwice(s, s1, s2, n, []);
  }

  lemma MissingStays(s: State, s': State, n: nat)
    requires Brings(s, s', n, []) && Proj(s, n).l2.NotInL2?
    ensures Proj(s', n).l2.NotInL2?
  {
    hide Proj;
  }

  /** A load or store that misses L2. */
  lemma MissMates(s: State, c: nat, n: nat, line: Line, state: Mesi)
    requires Inv(s) && Windowed(s) && c < |s.cores| && Proj(s, n).l2.NotInL2? && InMemory(s.mem, n)
    requires state == Exclusive || state == Modified
    ensures var r1 := MakeRoom(s, c, false, n);
            && r1.Done?
            && var (s1, w2, w1) := r1.value;
               var r2 := InstallBoth(s1, c, false, n, w2, w1, line, state);
               && r2.Done?
               && var r3 := StreamOnMiss(r2.value, c, 64 * n);
                  r3.Done? && MatesArrive(s, CountMem(r3.value, c), n, StreamLines(s, c, n))
  {
    hide Inv, Proj, MakeRoom, InstallBoth, StreamOnMiss, Brings, MatesArrive;
    FillMates(s, c, false, n, line, state);
    var (s1, w2, w1) := MakeRoom(s, c, false, n).value;
    var s2 := InstallBoth(s1, c, false, n, w2, w1, line, state).value;
    WindowedRest(s, s2);
    StreamBrings(s2, c, n);
    var s3 := StreamOnMiss(s2, c, 64 * n).value;
    assert StreamLines(s2, c, n) == StreamLines(s, c, n);
    BringsNext(s2, s3, CountMem(s3, c), n, StreamLines(s, c, n));
    BringsMates(s2, CountMem(s3, c), n, StreamLines(s, c, n));
    MatesTwice(s, s2, CountMem(s3, c), n, StreamLines(s, c, n));
  }

  lemma FetchMissMates(s: State, c: nat, n: nat)
    requires Inv(s) && c < |s.cores| && Proj(s, n).l2.NotInL2? && InMemory(s.mem, n)
    ensures var r := FetchFromMemory(s, c, n);
            r.Done? && MatesArrive(s, r.value.0, n, NextLine(s, n))
  {
    hide Inv, Proj, MakeRoom, InstallBoth, PfFill, Brings, MatesArrive;
    FillMates(s, c, true, n, MemLine(s.mem, n), Exclusive);
    C.MakeRoomStretch(s, c, true, n);
    var (s1, w2, w1) := MakeRoom(s, c, true, n).value;
    SameMemLine(s, s1, n);
    var s2 := InstallBoth(s1, c, true, n, w2, w1, MemLine(s1.mem, n), Exclusive).value;
    PageOfLine(n);
    PfFillBrings(s2, 64 * n, 64 * n + 64);
    var (s3, ok) := PfFill(s2, 64 * n, 64 * n + 64).value;
    var s4 := CountMem(s3, c);
    if ok {
      SamePage(s2, s3, n + 1, n, [n + 1]);
      BringsNext(s2, s3, s4, n, [n + 1]);
      BringsMates(s2, s4, n, [n + 1]);
    } else {
      SameMates(s2, s4, n);
    }
    MatesTwice(s, s2, s4, n, NextLine(s, n));
  }

  // ---------------------------------------------------------------------------
  // Calls that find their line
  // ---------------------------------------------------------------------------

  lemma TouchMates(s: State, c: nat, instr: bool, n: nat, w: nat)
    requires Inv(s) && c < |s.cores| && w < NUM_L1_WAYS && w == L1WayOf(s, c, instr, n)
    ensures MatesArrive(s, PutL1(s, c, instr, n % 64, L1Touch(GetL1(s, c, instr, n % 64), w)), n, [])
  {
    hide Placed, Proj, Coherent;
    L1WayProj(s, c, instr, n);
    var s' := PutL1(s, c, instr, n % 64, L1Touch(GetL1(s, c, instr, n % 64), w));
    L1KeepMoves(s, c, instr, n, w, L1Touch(GetL1(s, c, instr, n % 64), w));
    MovedMates(s, s', n, n, Proj(s', n));
  }

  lemma ReadHitMates(s: State, c: nat, pa: nat, w: nat)
    requires Inv(s) && c < |s.cores| && w < NUM_L1_WAYS && w == L1WayOf(s, c, false, pa / 64)
    ensures MatesArrive(s, ReadHit(s, c, pa, w), pa / 64, [])
  {
    hide Inv, MatesArrive;
    var n := pa / 64;
    TouchMates(s, c, false, n, w);
    var s1 := PutL1(s, c, false, n % 64, L1Touch(s.cores[c].l1d[n % 64], w));
    SameMates(s1, ReadHit(s, c, pa, w), n);
    MatesTwice(s, s1, ReadHit(s, c, pa, w), n, []);
  }

  /** From an L2 hit to the filled L1. */
  lemma ReadFillMates(s: State, c: nat, instr: bool, n: nat, w2: nat)
    requires Inv(s) && c < |s.cores| && w2 < NUM_L2_WAYS && w2 == L2WayOf(s, n)
    requires L1WayOf(s, c, instr, n) == NUM_L1_WAYS
    ensures var r1 := EvictL1(s, c, instr, n % 64);
            && r1.Done?
            && var (s1, w1) := r1.value;
               var (s2, line, shared) := ReadL2Way(s1, c, instr, n, w2);
               var fill := if shared || instr then Shared else Exclusive;
               MatesArrive(s, PutL1(s2, c, instr, n % 64,
                                    L1Fill(GetL1(s2, c, instr, n % 64), n / 64, w1, line, fill)), n, [])
  {
    hide Placed, Proj, Coherent, EvictL1, ReadL2Way, L1Fill, Stretch, L1WayOf, MatesArrive;
    EvictL1Mates(s, c, instr, n);
    EvictL1Stretch(s, c, instr, n);
    var (s1, w1) := EvictL1(s, c, instr, n % 64).value;
    StretchKeeps(s, s1, n);
    SameL2WaysFinds(s, s1, n);
    L1WayProj(s, c, instr, n);
    L1WayProj(s1, c, instr, n);
    C.ReadL2WayMoves(s1, c, instr, n, w2);
    var (s2, line, shared) := ReadL2Way(s1, c, instr, n, w2);
    MovedMates(s1, s2, n, n, Proj(s2, n));
    MatesTwice(s, s1, s2, n, []);
    C.SameL1Way(s1, s2, c, instr, n);
    var fill := if shared || instr then Shared else Exclusive;
    L1FillMoves(s2, c, instr, n, w1, line, fill);
    var s3 := PutL1(s2, c, instr, n % 64, L1Fill(GetL1(s2, c, instr, n % 64), n / 64, w1, line, fill));
    MovedMates(s2, s3, n, n, Proj(s3, n));
    MatesTwice(s, s2, s3, n, []);
  }

  lemma ReadFromL2Mates(s: State, c: nat, pa: nat, w2: nat)
    requires Inv(s) && c < |s.cores| && w2 < NUM_L2_WAYS && w2 == L2WayOf(s, pa / 64)
    requires L1WayOf(s, c, false, pa / 64) == NUM_L1_WAYS
    ensures var r := ReadFromL2(s, c, pa, w2); r.Done? && MatesArrive(s, r.value.0, pa / 64, [])
  {
    hide Placed, Proj, Coherent, EvictL1, ReadL2Way, L1Fill, MatesArrive, Stretch;
    var n := pa / 64;
    var state := s.l2[n % 4096].state[w2];
    var s0 := Emit(s, L2Hit, c, 2, n % 4096, w2, pa, state, state, None);
    SameStretch(s, s0, n);
    StretchKeeps(s, s0, n);
    SameMates(s, s0, n);
    ReadFillMates(s0, c, false, n, w2);
    var (s1, w1) := EvictL1(s0, c, false, n % 64).value;
    var (s2, line, shared) := ReadL2Way(s1, c, false, n, w2);
    var s3 := PutL1(s2, c, false, n % 64,
                    L1Fill(GetL1(s2, c, false, n % 64), n / 64, w1, line, if shared then Shared else Exclusive));
    MatesTwice(s, s0, s3, n, []);
    SameMates(s3, ReadFromL2(s, c, pa, w2).value.0, n);
    MatesTwice(s, s3, ReadFromL2(s, c, pa, w2).value.0, n, []);
  }

  lemma FetchFromL2Mates(s: State, c: nat, n: nat, w2: nat)
    requires Inv(s) && c < |s.cores| && w2 < NUM_L2_WAYS && w2 == L2WayOf(s, n)
    requires L1WayOf(s, c, true, n) == NUM_L1_WAYS && FetchFromL2(s, c, n, w2).Done?
    ensures MatesArrive(s, FetchFromL2(s, c, n, w2).value.0, n, [])
  {
    hide Placed, Proj, Coherent, EvictL1, ReadL2Way, L1Fill, MatesArrive;
    ReadFillMates(s, c, true, n, w2);
    var (s1, w1) := EvictL1(s, c, true, n % 64).value;
    var (s2, line, _) := ReadL2Way(s1, c, true, n, w2);
    var s3 := PutL1(s2, c, true, n % 64, L1Fill(GetL1(s2, c, true, n % 64), n / 64, w1, line, Shared));
    SameMates(s3, FetchFromL2(s, c, n, w2).value.0, n);
    MatesTwice(s, s3, FetchFromL2(s, c, n, w2).value.0, n, []);
  }

  lemma InvalidateMates(s: State, c: nat, n: nat, w2: nat, line: Line)
    requires Inv(s) && c < |s.cores| && w2 < NUM_L2_WAYS && w2 == L2WayOf(s, n)
    ensures MatesArrive(s, InvalidatePeers(s, s.l2[n % 4096].dm[w2] - {c}, n, w2, line).0, n, [])
  {
    hide Placed, Proj, InvalidatePeers, Coherent, Killed, MatesArrive;
    L2WayProj(s, n);
    var x := Proj(s, n);
    var o := OwnerFrom(x.d, 0);
    C.OwnerAt(x, o);
    InvalidatePeersMoves(s, x.l2.dm - {c}, n, w2, line, o);
    var s' := InvalidatePeers(s, x.l2.dm - {c}, n, w2, line).0;
    MovedMates(s, s', n, n, Proj(s', n));
  }

  /** The end of both store paths. */
  lemma TakeOverMates(s: State, c: nat, n: nat, w2: nat, touch: bool)
    requires Inv(s) && w2 < NUM_L2_WAYS && w2 == L2WayOf(s, n)
    ensures MatesArrive(s, C.TakeOver(s, c, n, w2, touch), n, [])
  {
    hide Placed, Proj, Coherent, MatesArrive, C.TakeOver;
    L2WayProj(s, n);
    assert Coherent(Proj(s, n));
    InMasks(Proj(s, n));
    C.TakeOverMoves(s, c, n, w2, touch);
    var s' := C.TakeOver(s, c, n, w2, touch);
    MovedMates(s, s', n, n, Proj(s', n));
  }

  lemma InMasks(x: LineState)
    requires Coherent(x) && x.l2.InL2?
    ensures forall b: nat :: Holds(x.i, b) ==> b in x.l2.im
  {
  }

  lemma UpgradeMates(s: State, c: nat, n: nat, w2: nat)
    requires Inv(s) && c < |s.cores| && w2 < NUM_L2_WAYS && w2 == L2WayOf(s, n)
    ensures MatesArrive(s, Upgrade(s, c, n, w2), n, [])
  {
    hide Placed, Proj, Coherent, Stretch, InvalidatePeers, Killed, L2Touch, MatesArrive;
    InvalidateMates(s, c, n, w2, ZeroLine());
    C.InvalidateStretch(s, c, n, w2, ZeroLine());
    var s1 := InvalidatePeers(s, s.l2[n % 4096].dm[w2] - {c}, n, w2, ZeroLine()).0;
    C.StretchKeepsInv(s, s1, n);
    var s2 := Upgrade(s, c, n, w2);
    TouchL2Mates(s1, n, w2);
    MatesTwice(s, s1, s2, n, []);
  }

  lemma TouchL2Mates(s: State, n: nat, w2: nat)
    requires Inv(s) && w2 < NUM_L2_WAYS && w2 == L2WayOf(s, n)
    ensures MatesArrive(s, PutL2(s, n % 4096, L2Touch(s.l2[n % 4096], w2)), n, [])
  {
    hide Placed, Proj, Coherent;
    L2WayProj(s, n);
    L2KeepMoves(s, n, w2, L2Touch(s.l2[n % 4096], w2));
    var s' := PutL2(s, n % 4096, L2Touch(s.l2[n % 4096], w2));
    MovedMates(s, s', n, n, Proj(s', n));
  }

  lemma WriteHitMates(s: State, c: nat, pa: nat, w: nat, bytes: seq<byte>)
    requires Inv(s) && c < |s.cores| && w < NUM_L1_WAYS && pa % 64 + |bytes| <= LINE_SIZE
    requires w == L1WayOf(s, c, false, pa / 64)
    ensures var r := WriteHit(s, c, pa, w, bytes); r.Done? ==> MatesArrive(s, r.value, pa / 64, [])
  {
    hide Placed, Proj, Coherent, Stretch, Upgrade, Patch, L1Write, MatesArrive, InvalidatePeersI;
    var n := pa / 64;
    L1WayProj(s, c, false, n);
    L2WayProj(s, n);
    var w2 := L2WayOf(s, n);
    if w2 < NUM_L2_WAYS {
      var was := s.cores[c].l1d[n % 64].state[w];
      var s1 := if was == Shared then Upgrade(s, c, n, w2) else s;
      SameMates(s, s, n);
      if was == Shared {
        UpgradeMates(s, c, n, w2);
        C.UpgradeStretch(s, c, n, w2);
        C.StretchKeepsInv(s, s1, n);
      }
      C.SameL1Way(s, s1, c, false, n);
      TakeOverMates(s1, c, n, w2, false);
      var s3 := C.TakeOver(s1, c, n, w2, false);
      MatesTwice(s, s1, s3, n, []);
      StoreMates(s1, c, n, w, w2, pa, bytes);
      var s4 := PutL1(s3, c, false, n % 64, L1Write(s3.cores[c].l1d[n % 64], w, pa % 64, bytes));
      MatesTwice(s, s3, s4, n, []);
      SameMates(s4, WriteHit(s, c, pa, w, bytes).value, n);
      MatesTwice(s, s4, WriteHit(s, c, pa, w, bytes).value, n, []);
    }
  }

  /** Rewriting the L1 way, once the L2 way is owned. */
  lemma StoreMates(s: State, c: nat, n: nat, w: nat, w2: nat, pa: nat, bytes: seq<byte>)
    requires Inv(s) && c < |s.cores| && w < NUM_L1_WAYS && w2 < NUM_L2_WAYS && pa % 64 + |bytes| <= LINE_SIZE
    requires w == L1WayOf(s, c, false, n) && w2 == L2WayOf(s, n)
    ensures var s3 := C.TakeOver(s, c, n, w2, false);
            MatesArrive(s3, PutL1(s3, c, false, n % 64, L1Write(s3.cores[c].l1d[n % 64], w, pa % 64, bytes)), n, [])
  {
    hide Placed, Proj, Coherent, Patch, C.TakeOver, MatesArrive;
    L2WayProj(s, n);
    assert Coherent(Proj(s, n));
    InMasks(Proj(s, n));
    C.TakeOverMoves(s, c, n, w2, false);
    var s3 := C.TakeOver(s, c, n, w2, false);
    var l1 := L1Write(s3.cores[c].l1d[n % 64], w, pa % 64, bytes);
    assert L1WayOf(s3, c, false, n) == w;
    L1KeepMoves(s3, c, false, n, w, l1);
    var s4 := PutL1(s3, c, false, n % 64, l1);
    MovedMates(s3, s4, n, n, Proj(s4, n));
  }

  lemma WriteFromL2Mates(s: State, c: nat, pa: nat, w2: nat, bytes: seq<byte>)
    requires Inv(s) && c < |s.cores| && pa % 64 + |bytes| <= LINE_SIZE
    requires var n := pa / 64; w2 < NUM_L2_WAYS && w2 == L2WayOf(s, n) && L1WayOf(s, c, false, n) == NUM_L1_WAYS
    ensures var r := WriteFromL2(s, c, pa, w2, bytes); r.Done? ==> MatesArrive(s, r.value, pa / 64, [])
  {
    hide Inv, Proj, Coherent, Stretch, InvalidatePeers, InvalidatePeersI, EvictL1, Patch, L1Fill, MatesArrive,
         L1WayOf, L2WayOf;
    var n := pa / 64;
    var l2 := s.l2[n % 4096];
    var s0 := Emit(s, L2Hit, c, 2, n % 4096, w2, pa, l2.state[w2], l2.state[w2], None);
    SameStretch(s, s0, n);
    StretchKeeps(s, s0, n);
    C.SameL2Array(s, s0, n);
    SameMates(s, s0, n);
    InvalidateMates(s0, c, n, w2, l2.data[w2]);
    C.InvalidateStretch(s0, c, n, w2, l2.data[w2]);
    var (s1, newest) := InvalidatePeers(s0, l2.dm[w2] - {c}, n, w2, l2.data[w2]);
    C.StretchKeepsInv(s0, s1, n);
    MatesTwice(s, s0, s1, n, []);
    L2WayProj(s0, n);
    C.SameL1Way(s, s0, c, false, n);
    KeepsOwnCore(s0, s1, c, n, l2.dm[w2]);
    OwnFillMates(s1, c, pa, w2, Patch(newest, pa % 64, bytes));
    if WriteFromL2(s, c, pa, w2, bytes).Done? {
      var (s2, w1) := EvictL1(s1, c, false, n % 64).value;
      var line := Patch(newest, pa % 64, bytes);
      var s3 := PutL1(s2, c, false, n % 64, L1Fill(s2.cores[c].l1d[n % 64], n / 64, w1, line, Modified));
      var s5 := C.TakeOver(Emit(s3, L1dFill, c, 1, n % 64, w1, pa, Invalid, Modified, Some(line)), c, n, w2, true);
      MatesTwice(s, s1, s5, n, []);
      SameMates(s5, WriteFromL2(s, c, pa, w2, bytes).value, n);
      MatesTwice(s, s5, WriteFromL2(s, c, pa, w2, bytes).value, n, []);
    }
  }

  lemma KeepsOwnCore(s: State, s': State, c: nat, n: nat, dm: set<nat>)
    requires c < |s.cores| && SnoopKeeps(s, s', dm - {c})
    ensures |s'.cores| == |s.cores| && L1WayOf(s', c, false, n) == L1WayOf(s, c, false, n)
  {
  }

  lemma OwnFillMates(s: State, c: nat, pa: nat, w2: nat, line: Line)
    requires Inv(s) && c < |s.cores| && w2 < NUM_L2_WAYS && w2 == L2WayOf(s, pa / 64)
    requires L1WayOf(s, c, false, pa / 64) == NUM_L1_WAYS
    ensures var n := pa / 64;
            var r := EvictL1(s, c, false, n % 64);
            && r.Done?
            && var (s2, w1) := r.value;
               var s3 := PutL1(s2, c, false, n % 64, L1Fill(s2.cores[c].l1d[n % 64], n / 64, w1, line, Modified));
               var s4 := Emit(s3, L1dFill, c, 1, n % 64, w1, pa, Invalid, Modified, Some(line));
               MatesArrive(s, C.TakeOver(s4, c, n, w2, true), n, [])
  {
    hide Placed, Proj, Coherent, EvictL1, L1Fill, MatesArrive, C.TakeOver, L1WayOf, L2WayOf, Stretch;
    var n := pa / 64;
    EvictL1Mates(s, c, false, n);
    EvictL1Stretch(s, c, false, n);
    var (s2, w1) := EvictL1(s, c, false, n % 64).value;
    StretchKeeps(s, s2, n);
    SameL2WaysFinds(s, s2, n);
    L1WayProj(s, c, false, n);
    L1WayProj(s2, c, false, n);
    L1FillMoves(s2, c, false, n, w1, line, Modified);
    var s3 := PutL1(s2, c, false, n % 64, L1Fill(s2.cores[c].l1d[n % 64], n / 64, w1, line, Modified));
    MovedMates(s2, s3, n, n, Proj(s3, n));
    MatesTwice(s, s2, s3, n, []);
    var s4 := Emit(s3, L1dFill, c, 1, n % 64, w1, pa, Invalid, Modified, Some(line));
    C.SameMoved(s3, s4, n);
    SameMates(s3, s4, n);
    MatesTwice(s, s3, s4, n, []);
    L2WayProj(s2, n);
    assert Coherent(Proj(s2, n));
    InMasks(Proj(s2, n));
    C.SameL2Array(s2, s4, n);
    C.TakeOverMoves(s4, c, n, w2, true);
    var s5 := C.TakeOver(s4, c, n, w2, true);
    MovedMates(s4, s5, n, n, Proj(s5, n));
    MatesTwice(s, s4, s5, n, []);
  }

  // ---------------------------------------------------------------------------
  // Any call
  // ---------------------------------------------------------------------------

  /** The lines that the call brings in besides its own. */
  function Extra(s: State, op: Op): seq<nat>
    requires op.Fits(|s.cores|)
  {
    if L2WayOf(s, op.pa / 64) == NUM_L2_WAYS then Prefetched(s, op) else []
  }

  lemma ReadMates(s: State, c: nat, pa: nat, size: nat)
    requires Good(s) && c < |s.cores| && pa % 64 + size <= LINE_SIZE && Read(s, c, pa, size).Done?
    ensures var n := pa / 64;
            MatesArrive(s, Read(s, c, pa, size).value.0, n,
                        if L2WayOf(s, n) == NUM_L2_WAYS then StreamLines(s, c, n) else [])
  {
    hide Inv, Windowed, Proj, ReadHit, ReadFromL2, MakeRoom, InstallBoth, StreamOnMiss, MatesArrive, CountMem,
         StreamLines;
    var n := pa / 64;
    var w, w2 := L1WayOf(s, c, false, n), L2WayOf(s, n);
    L2WayProj(s, n);
    if w < NUM_L1_WAYS {
      HeldCached(s, c, false, n);
      ReadHitMates(s, c, pa, w);
    } else if w2 < NUM_L2_WAYS {
      ReadFromL2Mates(s, c, pa, w2);
    } else {
      C.MakeRoomStretch(s, c, false, n);
      SameMemLine(s, MakeRoom(s, c, false, n).value.0, n);
      MissMates(s, c, n, MemLine(s.mem, n), Exclusive);
    }
  }

  lemma WriteMates(s: State, c: nat, pa: nat, bytes: seq<byte>)
    requires Good(s) && c < |s.cores| && pa % 64 + |bytes| <= LINE_SIZE && Write(s, c, pa, bytes).Done?
    ensures var n := pa / 64;
            MatesArrive(s, Write(s, c, pa, bytes).value, n,
                        if L2WayOf(s, n) == NUM_L2_WAYS then StreamLines(s, c, n) else [])
  {
    hide Inv, Windowed, Proj, WriteHit, WriteFromL2, MakeRoom, InstallBoth, StreamOnMiss, MatesArrive, CountMem, Patch,
         StreamLines;
    var n := pa / 64;
    var w, w2 := L1WayOf(s, c, false, n), L2WayOf(s, n);
    L2WayProj(s, n);
    if w < NUM_L1_WAYS {
      HeldCached(s, c, false, n);
      WriteHitMates(s, c, pa, w, bytes);
    } else if w2 < NUM_L2_WAYS {
      WriteFromL2Mates(s, c, pa, w2, bytes);
    } else {
      MissMates(s, c, n, Patch(MemLine(s.mem, n), pa % 64, bytes), Modified);
    }
  }

  lemma FetchMates(s: State, c: nat, pa: nat, size: nat)
    requires Good(s) && c < |s.cores| && pa % 64 + size <= LINE_SIZE && Fetch(s, c, pa, size).Done?
    ensures var n := pa / 64;
            MatesArrive(s, Fetch(s, c, pa, size).value.0, n,
                        if L2WayOf(s, n) == NUM_L2_WAYS then NextLine(s, n) else [])
  {
    hide Inv, Windowed, Proj, FetchFromL2, FetchFromMemory, MatesArrive, L1Touch, NextLine;
    var n := pa / 64;
    var w, w2 := L1WayOf(s, c, true, n), L2WayOf(s, n);
    L2WayProj(s, n);
    if w < NUM_L1_WAYS {
      HeldCached(s, c, true, n);
      var s1 := PutL1(s, c, true, n % 64, L1Touch(s.cores[c].l1i[n % 64], w));
      TouchMates(s, c, true, n, w);
      SameMates(s1, Fetch(s, c, pa, size).value.0, n);
      MatesTwice(s, s1, Fetch(s, c, pa, size).value.0, n, []);
    } else if w2 < NUM_L2_WAYS {
      FetchFromL2Mates(s, c, n, w2);
    } else if InMemory(s.mem, n) {
      FetchMissMates(s, c, n);
    } else {
      NoFetch(s, c, n);
    }
  }

  /** What a call does to the other lines of its page. A call that finds its line in L2 or
      above leaves them all alone. One that misses L2 brings in exactly the lines that it
      prefetches and that were missing, EXCLUSIVE, with memory's bytes, and in no L1. */
  lemma StepBrings(s: State, op: Op, m: nat)
    requires Good(s) && op.Fits(|s.cores|) && Step(s, op).Done? && m / 64 == op.pa / PAGE_SIZE && m != op.pa / 64
    ensures var x, y := Proj(s, m), Proj(Step(s, op).value.0, m);
            && |y.d| == |x.d| && |y.i| == |x.i|
            && (if L2WayOf(s, op.pa / 64) == NUM_L2_WAYS && m in Prefetched(s, op) && x.l2.NotInL2? then
                  && y.l2 == InL2(Exclusive, {}, {}, MemLine(s.mem, m))
                  && y.mem == MemLine(s.mem, m) && forall b: nat :: !Holds(y.d, b) && !Holds(y.i, b)
                else y == x)
  {
    hide Inv, Windowed, Read, Write, Fetch, MatesArrive, StreamLines, NextLine, L2WayOf;
    var n, s0, s' := op.pa / 64, s.(stamp := op.stamp), Step(s, op).value.0;
    Restamped(s, op.stamp);
    SameMates(s, s0, n);
    assert L2WayOf(s0, n) == L2WayOf(s, n) by { C.SameL2Array(s, s0, n); }
    assert Prefetched(s0, op) == Prefetched(s, op) by { SamePrefetches(s, op); }
    match op.kind {
      case Load(size) => ReadMates(s0, op.core, op.pa, size);
      case Store(bytes) => WriteMates(s0, op.core, op.pa, bytes);
      case Fetching(size) => FetchMates(s0, op.core, op.pa, size);
    }
    MateAt(s0, s', n, Extra(s0, op), m);
    L2WayProj(s, m);
    assert Proj(s0, m) == Proj(s, m);
    if Proj(s, m).l2.NotInL2? { UncachedNowhere(s, m); }
  }

  lemma SamePrefetches(s: State, op: Op)
    requires op.Fits(|s.cores|)
    ensures Prefetched(s.(stamp := op.stamp), op) == Prefetched(s, op)
  {
    hide BurstLines;
  }

  lemma MateAt(s: State, s': State, n: nat, lines: seq<nat>, m: nat)
    requires MatesArrive(s, s', n, lines) && m / 64 == n / 64 && m != n
    ensures Proj(s', m) == if m in lines && Proj(s, m).l2.NotInL2? then Arrived(Proj(s, m)) else Proj(s, m)
  {
    hide Proj;
  }

  lemma UncachedNowhere(s: State, m: nat)
    requires Inv(s) && Proj(s, m).l2.NotInL2?
    ensures forall b: nat :: !Holds(Proj(s, m).d, b) && !Holds(Proj(s, m).i, b)
  {
    hide Proj, Placed;
    assert Coherent(Proj(s, m));
  }
}
