/** Which calls lose bytes, told from the state before the call: those that evict a full L2
    set's PLRU victim while its bytes are in L2 alone and will not be written back. */
module Losses {
  import opened Types
  import opened Coherence
  import opened Caches
  import opened Projection
  import opened Snoops
  import opened Sets
  import opened Flat
  import opened Prefetch
  import C = Calls
  import Plru

  // ---------------------------------------------------------------------------
  // One set
  // ---------------------------------------------------------------------------

  predicate AllValid(l2: L2Set) { forall w: nat :: w < NUM_L2_WAYS ==> Valid(l2.state, w) }

  /** Every way of set k is valid, and its PLRU victim holds bytes that only L2 has. */
  predicate Drops(s: State, k: nat)
    requires k < L2_SETS
  {
    var l2 := s.l2[k];
    && AllValid(l2)
    && StaleIn(s, l2.tag[Plru.Victim(l2.plru)] * 4096 + k)
  }

  /** Set k offers the same victim, and its lines are as stale as they were. */
  ghost predicate Kept(s: State, s': State, k: nat)
    requires k < L2_SETS
  {
    && WaysKept(s.l2[k], s'.l2[k]) && s'.l2[k].plru == s.l2[k].plru
    && forall m: nat :: m % 4096 == k ==> StaleIn(s', m) == StaleIn(s, m)
  }

  ghost predicate KeptBut(s: State, s': State, k: nat) {
    forall j: nat :: j < L2_SETS && j != k ==> Kept(s, s', j)
  }

  lemma KeptTwice(s: State, s1: State, s2: State, k: nat)
    requires KeptBut(s, s1, k) && KeptBut(s1, s2, k)
    ensures KeptBut(s, s2, k)
  {
    hide StaleIn;
    forall j: nat | j < L2_SETS && j != k ensures Kept(s, s2, j) { assert Kept(s, s1, j) && Kept(s1, s2, j); }
  }

  lemma KeptDrops(s: State, s': State, k: nat)
    requires k < L2_SETS && Kept(s, s', k)
    ensures Drops(s', k) == Drops(s, k)
    ensures forall n: nat :: n % 4096 == k ==> L2WayOf(s', n) == L2WayOf(s, n)
  {
    hide StaleIn, Plru.VictimFrom;
    var n := s.l2[k].tag[Plru.Victim(s.l2[k].plru)] * 4096 + k;
    assert n % 4096 == k;
    forall w: nat | w < NUM_L2_WAYS ensures Valid(s'.l2[k].state, w) == Valid(s.l2[k].state, w) {}
    forall n: nat | n % 4096 == k ensures L2WayOf(s', n) == L2WayOf(s, n) {
      WaysKeptFind(s.l2[k], s'.l2[k], n / 4096);
    }
  }

  /** An eviction from set k loses bytes exactly when k drops them, and leaves what the
      other sets drop as it was. */
  lemma EvictL2Loses(s: State, k: nat)
    requires Inv(s) && k < L2_SETS
    ensures var r := EvictL2(s, k);
            && r.Done? && Inv(r.value.0) && KeptBut(s, r.value.0, k)
            && (r.value.0.lossless <==> s.lossless && !Drops(s, k))
  {
    hide Placed, Coherent, Proj, BackInvalidate, RetireL2, Plru.VictimFrom;
    EvictL2Moves(s, k);
    EvictL2Set(s, k);
    var l2 := s.l2[k];
    FreeOrFull(l2);
    if FreeFrom(l2.state, 0) == NUM_L2_WAYS {
      var v := Plru.Victim(l2.plru);
      var n := l2.tag[v] * 4096 + k;
      FullSetWay(s, k, v);
      EvictVictim(s, n, v);
      var s' := EvictL2(s, k).value.0;
      forall m: nat | m % 4096 != k ensures StaleIn(s', m) == StaleIn(s, m) { assert Proj(s', m) == Proj(s, m); }
    }
  }

  lemma FreeOrFull(l2: L2Set)
    ensures FreeFrom(l2.state, 0) == NUM_L2_WAYS <==> AllValid(l2)
  {
    var f := FreeFrom(l2.state, 0);
    if f < NUM_L2_WAYS { assert !Valid(l2.state, f); }
  }

  lemma EvictL1KeepsSets(s: State, c: nat, instr: bool, i: nat)
    requires Inv(s) && c < |s.cores| && i < L1_SETS
    ensures var r := EvictL1(s, c, instr, i);
            && r.Done? && Inv(r.value.0) && r.value.0.lossless == s.lossless
            && forall j: nat :: j < L2_SETS ==> Kept(s, r.value.0, j)
  {
    hide Placed, Coherent, Proj, EvictL1, Stale;
    EvictL1Moves(s, c, instr, i);
    EvictL1Sets(s, c, instr, i);
    var s' := EvictL1(s, c, instr, i).value.0;
    if s' != s {
      var n: nat :| n % 64 == i && EvictsCopy(s, s', c, instr, n);
      if instr { EvictIKeeps(Proj(s, n), c); } else { EvictDKeeps(Proj(s, n), c); }
      forall m: nat ensures StaleIn(s', m) == StaleIn(s, m) {
        if m != n { assert Proj(s', m) == Proj(s, m); }
      }
    }
  }

  /** Filling line p's set leaves the other sets alone. */
  lemma FilledKeeps(s: State, s': State, p: nat, x: LineState)
    requires Moved(s, s', p, x) && s'.lossless == s.lossless
    requires forall j: nat :: j < L2_SETS && j != p % 4096 ==> s'.l2[j] == s.l2[j]
    ensures KeptBut(s, s', p % 4096)
  {
    hide Placed, Proj, Stale;
    forall m: nat | m % 4096 != p % 4096 ensures StaleIn(s', m) == StaleIn(s, m) { assert Proj(s', m) == Proj(s, m); }
  }

  // ---------------------------------------------------------------------------
  // A whole call
  // ---------------------------------------------------------------------------

  /** The lines a burst asks for: they depend on the stream and on the size of memory. */
  function BurstLines(size: nat, head: int, miss: int, stride: int, left: nat): seq<nat>
    decreases left
  {
    if left == 0 || (head - miss) * stride >= PREFETCH_DISTANCE * LINE_SIZE then [] else
    var next := head + stride * LINE_SIZE;
    if next / 4096 != head / 4096 || next < LINE_SIZE || next + LINE_SIZE > size then []
    else [next / 64] + BurstLines(size, next, miss, stride, left - 1)
  }

  /** The lines that a miss of a load or a store on line n prefetches. */
  function StreamLines(s: State, c: nat, n: nat): seq<nat>
    requires c < |s.cores|
  {
    var pf := s.cores[c].pf;
    var i := MatchFrom(pf.streams, 64 * n, 0);
    if i == NUM_STREAMS then [] else
    var stream := Advanced(pf.streams[i], 64 * n);
    BurstLines(|s.mem|, stream.prefetchHead, 64 * n, stream.direction.Sign(), PREFETCH_DISTANCE + 1)
  }

  /** The line that a miss of a fetch on line n prefetches. */
  function NextLine(s: State, n: nat): seq<nat> {
    if (n + 1) / 64 != n / 64 || 64 * n + 128 > |s.mem| then [] else [n + 1]
  }

  /** Bringing in this line loses bytes. */
  predicate LosesFor(s: State, p: nat) { L2WayOf(s, p) == NUM_L2_WAYS && Drops(s, p % 4096) }

  predicate LosesAny(s: State, lines: seq<nat>) { exists i :: 0 <= i < |lines| && LosesFor(s, lines[i]) }

  lemma LosesCons(s: State, p: nat, lines: seq<nat>)
    ensures LosesAny(s, [p] + lines) <==> LosesFor(s, p) || LosesAny(s, lines)
  {
    hide Drops, L2WayOf;
    var all := [p] + lines;
    if LosesFor(s, p) { assert LosesFor(s, all[0]); }
    if LosesAny(s, lines) {
      var i :| 0 <= i < |lines| && LosesFor(s, lines[i]);
      assert LosesFor(s, all[i + 1]);
    }
    if LosesAny(s, all) {
      var i :| 0 <= i < |all| && LosesFor(s, all[i]);
      if i > 0 { assert LosesFor(s, lines[i - 1]); }
    }
  }

  /** Lines of other sets, after a change confined to set k. */
  lemma LosesElsewhere(s: State, s': State, lines: seq<nat>, k: nat)
    requires KeptBut(s, s', k) && forall i :: 0 <= i < |lines| ==> lines[i] % 4096 != k
    ensures LosesAny(s', lines) == LosesAny(s, lines)
  {
    hide Drops, L2WayOf, Kept;
    forall i | 0 <= i < |lines| ensures LosesFor(s', lines[i]) == LosesFor(s, lines[i]) {
      KeptDrops(s, s', lines[i] % 4096);
    }
  }

  /** Line q lies further along than address `head`. */
  predicate Further(q: nat, head: int, stride: int) { if stride == 1 then q > head / 64 else q < head / 64 }

  predicate Along(lines: seq<nat>, head: int, stride: int) {
    forall i :: 0 <= i < |lines| ==> lines[i] / 64 == head / 4096 && Further(lines[i], head, stride)
  }

  /** The lines of a burst are on one page, each further along than the last. */
  lemma {:induction false} BurstOrder(size: nat, head: int, miss: int, stride: int, left: nat)
    requires (stride == 1 || stride == -1) && head % LINE_SIZE == 0
    ensures Along(BurstLines(size, head, miss, stride, left), head, stride)
    decreases left
  {
    var lines := BurstLines(size, head, miss, stride, left);
    if lines == [] {
    } else {
      var next := head + stride * LINE_SIZE;
      BurstOrder(size, next, miss, stride, left - 1);
      var rest := BurstLines(size, next, miss, stride, left - 1);
      assert lines == [next / 64] + rest && next / 4096 == head / 4096;
      NextLineOver(head, stride);
      forall i | 0 <= i < |lines| ensures lines[i] / 64 == head / 4096 && Further(lines[i], head, stride) {
        if i > 0 { assert lines[i] == rest[i - 1]; }
      }
    }
  }

  lemma NextLineOver(head: int, stride: int)
    requires (stride == 1 || stride == -1) && head % LINE_SIZE == 0
    ensures var next := head + stride * LINE_SIZE;
            next / 64 == head / 64 + stride && next / 64 / 64 == next / 4096 && next % LINE_SIZE == 0
  {
    if stride == 1 {} else { assert stride == -1; }
  }

  lemma PfFillLoses(s: State, from: int, next: int)
    requires Inv(s) && next % 64 == 0
    ensures var r := PfFill(s, from, next);
            && r.Done? && Inv(r.value.0) && |r.value.0.mem| == |s.mem|
            && (r.value.1 <==> next / 4096 == from / 4096 && next >= LINE_SIZE && next + LINE_SIZE <= |s.mem|)
            && (!r.value.1 ==> r.value.0 == s)
            && (r.value.1 ==>
                  && KeptBut(s, r.value.0, next / 64 % 4096)
                  && (r.value.0.lossless <==> s.lossless && !LosesFor(s, next / 64))
                  && (Windowed(s) ==> Windowed(r.value.0)))
  {
    hide Placed, Coherent, Proj, EvictL2, L2Install, Drops, Plru.VictimFrom;
    if next / 4096 == from / 4096 && next >= 64 && next + 64 <= |s.mem| {
      var p: nat := next / 64;
      L2WayProj(s, p);
      if L2WayOf(s, p) == NUM_L2_WAYS {
        PfMissLoses(s, p);
      } else {
        forall j: nat | j < L2_SETS ensures Kept(s, s, j) {}
      }
    }
  }

  lemma PfMissLoses(s: State, p: nat)
    requires Inv(s) && Proj(s, p).l2.NotInL2? && 64 * p + 64 <= |s.mem| && L2WayOf(s, p) == NUM_L2_WAYS
    ensures var r1 := EvictL2(s, p % 4096);
            && r1.Done?
            && var (s1, w) := r1.value;
               var line := MemLine(s1.mem, p);
               var r2 := L2Install(s1.l2[p % 4096], p / 4096, w, line, Exclusive, {}, {});
               && r2.Done?
               && var s' := Emit(PutL2(s1, p % 4096, r2.value), PrefetchL2, 0, 2, p % 4096, w, 64 * p, Invalid,
                                 Exclusive, Some(line));
                  && Inv(s') && |s'.mem| == |s.mem| && KeptBut(s, s', p % 4096)
                  && (s'.lossless <==> s.lossless && !Drops(s, p % 4096))
                  && (Windowed(s) ==> Windowed(s'))
  {
    hide Placed, Coherent, Proj, EvictL2, L2Install, Drops, Kept, StaleIn;
    EvictL2Moves(s, p % 4096);
    EvictL2Stretch(s, p % 4096, p);
    EvictL2Loses(s, p % 4096);
    var (s1, w) := EvictL2(s, p % 4096).value;
    var line := MemLine(s1.mem, p);
    L2WayProj(s1, p);
    InstallL2Moves(s1, p, w, line, Exclusive, {}, {});
    var s2 := PutL2(s1, p % 4096, L2Install(s1.l2[p % 4096], p / 4096, w, line, Exclusive, {}, {}).value);
    PrefetchKeeps(Proj(s1, p));
    MovedStretch(s1, s2, p, Coherence.Prefetch(Proj(s1, p)));
    var s3 := Emit(s2, PrefetchL2, 0, 2, p % 4096, w, 64 * p, Invalid, Exclusive, Some(line));
    SameCaches(s2, s3);
    FilledKeeps(s1, s3, p, Proj(s2, p));
    KeptTwice(s, s1, s3, p % 4096);
    if Windowed(s) { WindowedRest(s, s1); }
  }

  lemma {:induction false} BurstLoses(s: State, head: int, miss: int, stride: int, left: nat)
    requires Inv(s) && (stride == 1 || stride == -1) && head % LINE_SIZE == 0
    ensures var r := RunBurst(s, head, miss, stride, left);
            && r.Done?
            && (r.value.state.lossless <==> s.lossless && !LosesAny(s, BurstLines(|s.mem|, head, miss, stride, left)))
    decreases left
  {
    hide Inv, PfFill, KeptBut, LosesFor;
    if left == 0 || (head - miss) * stride >= PREFETCH_DISTANCE * LINE_SIZE {
    } else {
      var next := head + stride * LINE_SIZE;
      NextLineOver(head, stride);
      PfFillLoses(s, head, next);
      var (s1, ok) := PfFill(s, head, next).value;
      if ok {
        var rest := BurstLines(|s.mem|, next, miss, stride, left - 1);
        BurstLoses(s1, next, miss, stride, left - 1);
        BurstOrder(|s.mem|, next, miss, stride, left - 1);
        NextLineOver(head, stride);
        forall i | 0 <= i < |rest| ensures rest[i] % 4096 != next / 64 % 4096 {
          assert Further(rest[i], next, stride);
          OtherSet(rest[i], next / 64);
        }
        LosesElsewhere(s, s1, rest, next / 64 % 4096);
        LosesCons(s, next / 64, rest);
      }
    }
  }

  /** Different lines of one page are in different sets. */
  lemma OtherSet(q: nat, p: nat)
    requires q / 64 == p / 64 && q != p
    ensures q % 4096 != p % 4096
  {
    OneLinePerSet(q, p);
  }

  lemma StreamLoses(s: State, c: nat, n: nat)
    requires Inv(s) && Windowed(s) && c < |s.cores|
    ensures var r := StreamOnMiss(s, c, 64 * n);
            && r.Done? && (r.value.lossless <==> s.lossless && !LosesAny(s, StreamLines(s, c, n)))
  {
    hide Inv, RunBurst, LosesFor, BurstLines;
    var pf := s.cores[c].pf;
    var i := MatchFrom(pf.streams, 64 * n, 0);
    if i < NUM_STREAMS {
      var stream := Advanced(pf.streams[i], 64 * n);
      MatchStartsBurst(pf.streams[i], 64 * n);
      BurstLoses(s, stream.prefetchHead, 64 * n, stream.direction.Sign(), PREFETCH_DISTANCE + 1);
    }
  }

  /** All on line n's page. */
  predicate OnPage(lines: seq<nat>, n: nat) { forall i :: 0 <= i < |lines| ==> lines[i] / 64 == n / 64 }

  /** The lines a stream asks for are on the missed line's page. */
  lemma StreamOnPage(s: State, c: nat, n: nat)
    requires Windowed(s) && c < |s.cores|
    ensures OnPage(StreamLines(s, c, n), n)
  {
    hide BurstStart, BurstLines, StreamOk;
    var pf := s.cores[c].pf;
    var i := MatchFrom(pf.streams, 64 * n, 0);
    if i < NUM_STREAMS {
      var stream := Advanced(pf.streams[i], 64 * n);
      MatchStartsBurst(pf.streams[i], 64 * n);
      BurstOnPage(|s.mem|, stream.prefetchHead, n, stream.direction.Sign(), PREFETCH_DISTANCE + 1);
    }
  }

  /** A burst that starts one line short of the missed line's page asks for nothing. */
  lemma BurstOnPage(size: nat, head: int, n: nat, stride: int, left: nat)
    requires BurstStart(head, 64 * n, stride, left)
    ensures OnPage(BurstLines(size, head, 64 * n, stride, left), n)
  {
    BurstOrder(size, head, 64 * n, stride, left);
    assert 64 * n / 4096 == n / 64;
  }

  /** Up to the prefetches: a miss in L2 loses what its own set drops. */
  lemma FillLoses(s: State, c: nat, instr: bool, n: nat, line: Line, state: Mesi)
    requires Inv(s) && c < |s.cores| && Proj(s, n).l2.NotInL2? && InMemory(s.mem, n)
    requires state == Exclusive || (state == Modified && !instr)
    requires instr ==> line == MemLine(s.mem, n)
    ensures var r1 := MakeRoom(s, c, instr, n);
            && r1.Done?
            && var (s1, w2, w1) := r1.value;
               var r2 := InstallBoth(s1, c, instr, n, w2, w1, line, state);
               && r2.Done? && Inv(r2.value) && |r2.value.mem| == |s.mem| && KeptBut(s, r2.value, n % 4096)
               && (r2.value.lossless <==> s.lossless && !Drops(s, n % 4096))
               && L2WayOf(r2.value, n) < NUM_L2_WAYS
               && (forall b: nat :: b < |s.cores| ==> r2.value.cores[b].pf == s.cores[b].pf)
  {
    hide Placed, Proj, EvictL1, EvictL2, InstallBoth, Drops, Kept, L1WayOf, Coherent;
    C.MakeRoomStretch(s, c, instr, n);
    EvictL2Loses(s, n % 4096);
    var (t, w2) := EvictL2(s, n % 4096).value;
    EvictL1KeepsSets(t, c, instr, n % 64);
    var (s1, w1) := EvictL1(t, c, instr, n % 64).value;
    assert KeptBut(t, s1, n % 4096);
    KeptTwice(s, t, s1, n % 4096);
    L2WayProj(s, n);
    L2WayProj(s1, n);
    C.FillStretch(s1, c, instr, n, w2, w1, line, state);
    C.NotInL1(s1, c, instr, n);
    C.InstallBothMoves(s1, c, instr, n, w2, w1, line, state);
    var s2 := InstallBoth(s1, c, instr, n, w2, w1, line, state).value;
    InstallOtherSets(s1, c, instr, n, w2, w1, line, state);
    L2WayProj(s2, n);
    FilledKeeps(s1, s2, n, Proj(s2, n));
    KeptTwice(s, s1, s2, n % 4096);
  }

  lemma InstallOtherSets(s: State, c: nat, instr: bool, n: nat, w2: nat, w1: nat, line: Line, state: Mesi)
    requires c < |s.cores| && w2 < NUM_L2_WAYS && w1 < NUM_L1_WAYS
    requires InstallBoth(s, c, instr, n, w2, w1, line, state).Done?
    ensures var s' := InstallBoth(s, c, instr, n, w2, w1, line, state).value;
            && (forall j: nat :: j < L2_SETS && j != n % 4096 ==> s'.l2[j] == s.l2[j])
            && s'.lossless == s.lossless
  {
    hide L2Install, L1Fill;
  }

  /** The prefetches after it: n is in L2 by then, and its page mates are in other sets. */
  lemma ThenPrefetches(s: State, s': State, n: nat, lines: seq<nat>)
    requires KeptBut(s, s', n % 4096) && L2WayOf(s', n) < NUM_L2_WAYS && !Drops(s, n % 4096)
    requires OnPage(lines, n)
    ensures LosesAny(s', lines) == LosesAny(s, lines)
  {
    hide Drops, L2WayOf, Kept;
    forall i | 0 <= i < |lines| ensures LosesFor(s', lines[i]) == LosesFor(s, lines[i]) {
      if lines[i] != n {
        OtherSet(lines[i], n);
        KeptDrops(s, s', lines[i] % 4096);
      }
    }
  }

  /** A load or store that misses L2. */
  lemma MissLoses(s: State, c: nat, n: nat, line: Line, state: Mesi)
    requires Inv(s) && Windowed(s) && c < |s.cores| && Proj(s, n).l2.NotInL2? && InMemory(s.mem, n)
    requires state == Exclusive || state == Modified
    ensures var r1 := MakeRoom(s, c, false, n);
            && r1.Done?
            && var (s1, w2, w1) := r1.value;
               var r2 := InstallBoth(s1, c, false, n, w2, w1, line, state);
               && r2.Done?
               && var r3 := StreamOnMiss(r2.value, c, 64 * n);
                  && r3.Done?
                  && (r3.value.lossless <==>
                        s.lossless && !Drops(s, n % 4096) && !LosesAny(s, StreamLines(s, c, n)))
  {
    hide Inv, Proj, MakeRoom, InstallBoth, StreamOnMiss, Drops, LosesAny, L2WayOf, KeptBut;
    FillLoses(s, c, false, n, line, state);
    var (s1, w2, w1) := MakeRoom(s, c, false, n).value;
    var s2 := InstallBoth(s1, c, false, n, w2, w1, line, state).value;
    assert Windowed(s2);
    StreamLoses(s2, c, n);
    assert StreamLines(s2, c, n) == StreamLines(s, c, n);
    StreamOnPage(s, c, n);
    if !Drops(s, n % 4096) { ThenPrefetches(s, s2, n, StreamLines(s, c, n)); }
  }

  /** A fetch that misses L2. */
  lemma FetchMissLoses(s: State, c: nat, n: nat)
    requires Inv(s) && c < |s.cores| && Proj(s, n).l2.NotInL2? && InMemory(s.mem, n)
    ensures var r := FetchFromMemory(s, c, n);
            && r.Done? && (r.value.0.lossless <==> s.lossless && !Drops(s, n % 4096) && !LosesAny(s, NextLine(s, n)))
  {
    hide Inv, Proj, MakeRoom, InstallBoth, PfFill, Drops, LosesFor, L2WayOf, KeptBut;
    FillLoses(s, c, true, n, MemLine(s.mem, n), Exclusive);
    C.MakeRoomStretch(s, c, true, n);
    var (s1, w2, w1) := MakeRoom(s, c, true, n).value;
    SameMemLine(s, s1, n);
    var s2 := InstallBoth(s1, c, true, n, w2, w1, MemLine(s1.mem, n), Exclusive).value;
    PfFillLoses(s2, 64 * n, 64 * n + 64);
    PageOfLine(n);
    if NextLine(s, n) != [] {
      LosesCons(s2, n + 1, []);
      assert [n + 1] + [] == [n + 1];
    }
    if !Drops(s, n % 4096) { ThenPrefetches(s, s2, n, NextLine(s, n)); }
  }

  lemma PageOfLine(n: nat)
    ensures (64 * n + 64) / 64 == n + 1 && (64 * n + 64) / 4096 == (n + 1) / 64 && 64 * n / 4096 == n / 64
  {
  }

  lemma SameMemLine(s: State, s': State, n: nat)
    requires Stretch(s, s', n, Proj(s, n))
    ensures MemLine(s'.mem, n) == MemLine(s.mem, n)
  {
    hide Inv, Tracks;
    L2WayProj(s, n);
    L2WayProj(s', n);
  }

  // ---------------------------------------------------------------------------
  // Hits
  // ---------------------------------------------------------------------------

  lemma {:induction false} DowngradeLosesNothing(s: State, sharers: set<nat>, n: nat, w2: nat, line: Line)
    requires w2 < NUM_L2_WAYS
    ensures DowngradePeers(s, sharers, n, w2, line).0.lossless == s.lossless
    decreases sharers
  {
    if sharers == {} {
    } else {
      var c := LowestBit(sharers);
      var (s1, line1) := DowngradePeer(s, c, n, w2, line);
      DowngradeLosesNothing(s1, sharers - {c}, n, w2, line1);
    }
  }

  lemma {:induction false} InvalidateLosesNothing(s: State, sharers: set<nat>, n: nat, w2: nat, line: Line)
    requires w2 < NUM_L2_WAYS
    ensures InvalidatePeers(s, sharers, n, w2, line).0.lossless == s.lossless
    decreases sharers
  {
    if sharers == {} {
    } else {
      var c := LowestBit(sharers);
      var (s1, line1) := InvalidatePeer(s, c, n, w2, line);
      InvalidateLosesNothing(s1, sharers - {c}, n, w2, line1);
    }
  }

  lemma {:induction false} InvalidateILosesNothing(s: State, sharers: set<nat>, n: nat)
    ensures InvalidatePeersI(s, sharers, n).lossless == s.lossless
    decreases sharers
  {
    if sharers == {} {
    } else {
      var c := LowestBit(sharers);
      InvalidateILosesNothing(InvalidatePeerI(s, c, n), sharers - {c}, n);
    }
  }

  lemma EvictL1LosesNothing(s: State, c: nat, instr: bool, i: nat)
    requires c < |s.cores| && i < L1_SETS
    ensures var r := EvictL1(s, c, instr, i); r.Done? ==> r.value.0.lossless == s.lossless
  {
    hide Plru.VictimFrom, L2WriteBack, L2Release;
  }

  lemma ReadL2WayLosesNothing(s: State, c: nat, instr: bool, n: nat, w2: nat)
    requires c < |s.cores| && w2 < NUM_L2_WAYS
    ensures ReadL2Way(s, c, instr, n, w2).0.lossless == s.lossless
  {
    hide DowngradePeers, L2Read;
    var line := s.l2[n % 4096].data[w2];
    var l2 := L2Read(s.l2[n % 4096], c, w2, instr);
    var s1 := PutL2(s, n % 4096, l2);
    DowngradeLosesNothing(SetL2State(s1, n % 4096, w2, Shared), l2.dm[w2] - {c}, n, w2, line);
  }

  lemma ReadHitLosesNothing(s: State, c: nat, pa: nat, w2: nat)
    requires c < |s.cores| && w2 < NUM_L2_WAYS
    ensures var r := ReadFromL2(s, c, pa, w2); r.Done? ==> r.value.0.lossless == s.lossless
  {
    hide EvictL1, ReadL2Way, L1Fill;
    var n := pa / 64;
    var state := s.l2[n % 4096].state[w2];
    var s0 := Emit(s, L2Hit, c, 2, n % 4096, w2, pa, state, state, None);
    EvictL1LosesNothing(s0, c, false, n % 64);
    var r1 := EvictL1(s0, c, false, n % 64);
    if r1.Done? { ReadL2WayLosesNothing(r1.value.0, c, false, n, w2); }
  }

  lemma FetchHitLosesNothing(s: State, c: nat, n: nat, w2: nat)
    requires c < |s.cores| && w2 < NUM_L2_WAYS
    ensures var r := FetchFromL2(s, c, n, w2); r.Done? ==> r.value.0.lossless == s.lossless
  {
    hide EvictL1, ReadL2Way, L1Fill;
    EvictL1LosesNothing(s, c, true, n % 64);
    var r1 := EvictL1(s, c, true, n % 64);
    if r1.Done? { ReadL2WayLosesNothing(r1.value.0, c, true, n, w2); }
  }

  lemma WriteHitLosesNothing(s: State, c: nat, pa: nat, w: nat, bytes: seq<byte>)
    requires c < |s.cores| && w < NUM_L1_WAYS && pa % 64 + |bytes| <= LINE_SIZE
    ensures var r := WriteHit(s, c, pa, w, bytes); r.Done? ==> r.value.lossless == s.lossless
  {
    hide InvalidatePeers, InvalidatePeersI, L2Own, L2Touch, L1Write, L2WayOf;
    var n := pa / 64;
    var w2 := L2WayOf(s, n);
    if w2 < NUM_L2_WAYS {
      InvalidateLosesNothing(s, s.l2[n % 4096].dm[w2] - {c}, n, w2, ZeroLine());
      var s1 := if s.cores[c].l1d[n % 64].state[w] == Shared then Upgrade(s, c, n, w2) else s;
      InvalidateILosesNothing(s1, s1.l2[n % 4096].im[w2], n);
    }
  }

  lemma WriteFromL2LosesNothing(s: State, c: nat, pa: nat, w2: nat, bytes: seq<byte>)
    requires c < |s.cores| && w2 < NUM_L2_WAYS && pa % 64 + |bytes| <= LINE_SIZE
    ensures var r := WriteFromL2(s, c, pa, w2, bytes); r.Done? ==> r.value.lossless == s.lossless
  {
    hide InvalidatePeers, InvalidatePeersI, L2Own, L2Touch, L1Fill, EvictL1, Patch;
    var n := pa / 64;
    var l2 := s.l2[n % 4096];
    var s0 := Emit(s, L2Hit, c, 2, n % 4096, w2, pa, l2.state[w2], l2.state[w2], None);
    InvalidateLosesNothing(s0, l2.dm[w2] - {c}, n, w2, l2.data[w2]);
    var (s1, newest) := InvalidatePeers(s0, l2.dm[w2] - {c}, n, w2, l2.data[w2]);
    EvictL1LosesNothing(s1, c, false, n % 64);
    var r2 := EvictL1(s1, c, false, n % 64);
    if r2.Done? {
      var (s2, w1) := r2.value;
      var line := Patch(newest, pa % 64, bytes);
      var s3 := PutL1(s2, c, false, n % 64, L1Fill(s2.cores[c].l1d[n % 64], n / 64, w1, line, Modified));
      var s4 := Emit(s3, L1dFill, c, 1, n % 64, w1, pa, Invalid, Modified, Some(line));
      InvalidateILosesNothing(s4, s4.l2[n % 4096].im[w2], n);
    }
  }

  // ---------------------------------------------------------------------------
  // cpu_read, cpu_write, cpu_fetch
  // ---------------------------------------------------------------------------

  /** The call misses L2 in a set that drops its victim, or prefetches into such a set. */
  predicate LosesOn(s: State, n: nat, lines: seq<nat>) {
    L2WayOf(s, n) == NUM_L2_WAYS && (Drops(s, n % 4096) || LosesAny(s, lines))
  }

  lemma ReadLoses(s: State, c: nat, pa: nat, size: nat)
    requires Inv(s) && Windowed(s) && c < |s.cores| && pa % 64 + size <= LINE_SIZE
    ensures var r := Read(s, c, pa, size);
            r.Done? ==> (r.value.0.lossless <==> s.lossless && !LosesOn(s, pa / 64, StreamLines(s, c, pa / 64)))
  {
    hide Placed, Coherent, Proj, ReadFromL2, L2WayOf, MakeRoom, InstallBoth, StreamOnMiss, Drops, LosesAny;
    var n := pa / 64;
    L2WayProj(s, n);
    L1WayProj(s, c, false, n);
    var w2 := L2WayOf(s, n);
    if w2 == NUM_L2_WAYS {
      C.NotInL1(s, c, false, n);
      if InMemory(s.mem, n) {
        C.MakeRoomStretch(s, c, false, n);
        SameMemLine(s, MakeRoom(s, c, false, n).value.0, n);
        MissLoses(s, c, n, MemLine(s.mem, n), Exclusive);
      }
    } else {
      ReadHitLosesNothing(s, c, pa, w2);
    }
  }

  lemma WriteLoses(s: State, c: nat, pa: nat, bytes: seq<byte>)
    requires Inv(s) && Windowed(s) && c < |s.cores| && pa % 64 + |bytes| <= LINE_SIZE
    ensures var r := Write(s, c, pa, bytes);
            r.Done? ==> (r.value.lossless <==> s.lossless && !LosesOn(s, pa / 64, StreamLines(s, c, pa / 64)))
  {
    hide Placed, Coherent, Proj, WriteFromL2, WriteHit, L2WayOf, MakeRoom, InstallBoth, StreamOnMiss, Drops, LosesAny,
         Patch;
    var n := pa / 64;
    L2WayProj(s, n);
    var w, w2 := L1WayOf(s, c, false, n), L2WayOf(s, n);
    if w2 == NUM_L2_WAYS {
      C.NotInL1(s, c, false, n);
      if InMemory(s.mem, n) { MissLoses(s, c, n, Patch(MemLine(s.mem, n), pa % 64, bytes), Modified); }
    } else if w < NUM_L1_WAYS {
      WriteHitLosesNothing(s, c, pa, w, bytes);
    } else {
      WriteFromL2LosesNothing(s, c, pa, w2, bytes);
    }
  }

  lemma FetchLoses(s: State, c: nat, pa: nat, size: nat)
    requires Inv(s) && c < |s.cores| && pa % 64 + size <= LINE_SIZE
    ensures var r := Fetch(s, c, pa, size);
            r.Done? ==> (r.value.0.lossless <==> s.lossless && !LosesOn(s, pa / 64, NextLine(s, pa / 64)))
  {
    hide Placed, Coherent, Proj, FetchFromL2, L2WayOf, FetchFromMemory, Drops, LosesAny;
    var n := pa / 64;
    L2WayProj(s, n);
    var w2 := L2WayOf(s, n);
    if w2 == NUM_L2_WAYS {
      C.NotInL1(s, c, true, n);
      if InMemory(s.mem, n) { FetchMissLoses(s, c, n); } else { NoFetch(s, c, n); }
    } else {
      FetchHitLosesNothing(s, c, n, w2);
    }
  }

  lemma NoFetch(s: State, c: nat, n: nat)
    requires c < |s.cores| && !InMemory(s.mem, n)
    ensures FetchFromMemory(s, c, n).Abort?
  {
  }
}
