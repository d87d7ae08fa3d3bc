/** What a call does to the tags, the used ways and the replacement bits of the L2 sets: each
    line that it asks L2 for, or prefetches, is served in its own set, and every other set
    stays as it was. */
module SecondLevel {
  import opened Types
  import opened Coherence
  import opened Caches
  import opened Projection
  import opened Snoops
  import opened Sets
  import opened Flat
  import opened Prefetch
  import opened Losses
  import opened Machine
  import opened Arrivals
  import opened Replacement
  import opened Runs
  import C = Calls
  import Plru

  function Slots2(l2: L2Set): (a: Slots)
    ensures |a.tag| == |a.valid| == NUM_L2_WAYS
  {
    Slots(l2.tag, seq(NUM_L2_WAYS, w requires 0 <= w < NUM_L2_WAYS => l2.state[w] != Invalid), l2.plru)
  }

  lemma SetShaped(l2: L2Set)
    ensures Shaped(Slots2(l2), 4)
  {
    assert Plru.Pow2(4) == 16;
  }

  predicate Quiet(s: State, s': State, k: nat) { k < L2_SETS && Slots2(s'.l2[k]) == Slots2(s.l2[k]) }

  /** Line m is found, or takes an unused way or that of the victim. */
  ghost predicate Serves(s: State, s': State, m: nat) {
    exists w: nat :: Served(Slots2(s.l2[m % 4096]), Slots2(s'.l2[m % 4096]), m / 4096, w)
  }

  /** On n's page, the listed lines that were missing are served. No other set changes. */
  ghost predicate Fills(s: State, s': State, n: nat, lines: seq<nat>) {
    && (forall m: nat :: m / 64 == n / 64 ==>
          if m in lines && Proj(s, m).l2.NotInL2? then Serves(s, s', m) else Quiet(s, s', m % 4096))
    && (forall k: nat :: k < L2_SETS && k / 64 != n / 64 % 64 ==> Quiet(s, s', k))
  }

  ghost predicate AllQuiet(s: State, s': State) { forall k: nat :: k < L2_SETS ==> Quiet(s, s', k) }

  /** Only line n is served. */
  ghost predicate ServesOnly(s: State, s': State, n: nat) {
    Serves(s, s', n) && forall k: nat :: k < L2_SETS && k != n % 4096 ==> Quiet(s, s', k)
  }

  // ---------------------------------------------------------------------------
  // Composition
  // ---------------------------------------------------------------------------

  lemma KeptIsQuiet(s: State, s': State)
    requires SetsKept(s, s')
    ensures AllQuiet(s, s')
  {
    forall k: nat | k < L2_SETS ensures Quiet(s, s', k) {
      assert WaysKept(s.l2[k], s'.l2[k]);
      forall w: nat | w < NUM_L2_WAYS ensures Slots2(s'.l2[k]).valid[w] == Slots2(s.l2[k]).valid[w] {
        assert Valid(s'.l2[k].state, w) == Valid(s.l2[k].state, w);
      }
    }
  }

  lemma SameIsQuiet(s: State, s': State)
    requires s'.l2 == s.l2
    ensures AllQuiet(s, s')
  {
  }

  lemma QuietTwice(s: State, s1: State, s2: State)
    requires AllQuiet(s, s1) && AllQuiet(s1, s2)
    ensures AllQuiet(s, s2)
  {
    hide Slots2;
    forall k: nat | k < L2_SETS ensures Quiet(s, s2, k) { assert Quiet(s, s1, k) && Quiet(s1, s2, k); }
  }

  lemma QuietAround(s: State, s1: State, s2: State, s3: State, n: nat)
    requires AllQuiet(s, s1) && ServesOnly(s1, s2, n) && AllQuiet(s2, s3)
    ensures ServesOnly(s, s3, n)
  {
    hide Slots2, Served;
    forall k: nat | k < L2_SETS && k != n % 4096 ensures Quiet(s, s3, k) {
      assert Quiet(s, s1, k) && Quiet(s1, s2, k) && Quiet(s2, s3, k);
    }
    assert Quiet(s, s1, n % 4096) && Quiet(s2, s3, n % 4096);
  }

  lemma QuietFills(s: State, s': State, n: nat)
    requires AllQuiet(s, s')
    ensures Fills(s, s', n, [])
  {
    hide Slots2, Proj;
  }

  /** The set of a line on n's page is none of the other sets. */
  lemma PageSet(m: nat, n: nat)
    requires m / 64 == n / 64
    ensures m % 4096 / 64 == n / 64 % 64
  {
  }

  lemma FillsTwice(s: State, s1: State, s2: State, n: nat, a: seq<nat>, b: seq<nat>)
    requires Fills(s, s1, n, a) && Brings(s, s1, n, a) && Fills(s1, s2, n, b)
    ensures Fills(s, s2, n, a + b)
  {
    hide Slots2, Proj, Served;
    forall k: nat | k < L2_SETS && k / 64 != n / 64 % 64 ensures Quiet(s, s2, k) {
      assert Quiet(s, s1, k) && Quiet(s1, s2, k);
    }
    forall m: nat | m / 64 == n / 64
      ensures if m in a + b && Proj(s, m).l2.NotInL2? then Serves(s, s2, m) else Quiet(s, s2, m % 4096)
    {
      if m in a && Proj(s, m).l2.NotInL2? {
        assert Quiet(s1, s2, m % 4096);
        assert Serves(s, s1, m);
      } else {
        assert Quiet(s, s1, m % 4096);
      }
    }
  }

  /** The demanded line first, then its page mates. */
  lemma FillsAfter(s: State, s1: State, s2: State, n: nat, lines: seq<nat>)
    requires Fills(s, s1, n, [n]) && MatesArrive(s, s1, n, []) && Proj(s1, n).l2.InL2? && Fills(s1, s2, n, lines)
    ensures Fills(s, s2, n, [n] + lines)
  {
    hide Slots2, Proj, Served;
    forall k: nat | k < L2_SETS && k / 64 != n / 64 % 64 ensures Quiet(s, s2, k) {
      assert Quiet(s, s1, k) && Quiet(s1, s2, k);
    }
    forall m: nat | m / 64 == n / 64
      ensures if m in [n] + lines && Proj(s, m).l2.NotInL2? then Serves(s, s2, m) else Quiet(s, s2, m % 4096)
    {
      if m == n {
        assert Quiet(s1, s2, m % 4096);
      } else {
        assert Quiet(s, s1, m % 4096);
      }
    }
  }

  lemma FillsThenQuiet(s: State, s1: State, s2: State, n: nat, lines: seq<nat>)
    requires Fills(s, s1, n, lines) && AllQuiet(s1, s2)
    ensures Fills(s, s2, n, lines)
  {
    hide Slots2, Proj, Served;
    forall k: nat | k < L2_SETS && k / 64 != n / 64 % 64 ensures Quiet(s, s2, k) {
      assert Quiet(s, s1, k) && Quiet(s1, s2, k);
    }
    forall m: nat | m / 64 == n / 64
      ensures if m in lines && Proj(s, m).l2.NotInL2? then Serves(s, s2, m) else Quiet(s, s2, m % 4096)
    {
      assert Quiet(s1, s2, m % 4096);
    }
  }

  // ---------------------------------------------------------------------------
  // Filling a way
  // ---------------------------------------------------------------------------

  /** evict_l2 frees the way that replacement takes; l2' is the set with that way filled. */
  lemma RefillServes(l2: L2Set, l2a: L2Set, l2': L2Set, tag: nat)
    requires Find(l2.tag, l2.state, tag) == NUM_L2_WAYS
    requires l2a.tag == l2.tag && l2a.plru == l2.plru
    requires forall v: nat :: v < NUM_L2_WAYS ==> Valid(l2a.state, v) == (Valid(l2.state, v) && v != Freed(l2))
    requires l2'.tag == l2a.tag[Freed(l2) := tag] && l2'.plru == Plru.Update(l2a.plru, Freed(l2))
    requires forall v: nat :: v < NUM_L2_WAYS ==> Valid(l2'.state, v) == (Valid(l2a.state, v) || v == Freed(l2))
    ensures Served(Slots2(l2), Slots2(l2'), tag, Freed(l2))
  {
    hide Plru.UpdateFrom, Plru.VictimFrom;
    var a, b, w := Slots2(l2), Slots2(l2'), Freed(l2);
    forall v: nat | v < NUM_L2_WAYS ensures a.valid[v] == Valid(l2.state, v) && b.valid[v] == Valid(l2'.state, v) {}
    assert !Has(a, tag) by {
      forall v: nat ensures !HasAt(a, tag, v) {
        if v < NUM_L2_WAYS { assert !Match(l2.tag, l2.state, tag, v); }
      }
    }
    if FreeFrom(l2.state, 0) < NUM_L2_WAYS { assert !a.valid[w]; } else { assert AllUsed(a); }
    assert b.valid == a.valid[w := true];
  }

  /** Filling the way that evict_l2 freed. */
  lemma EvictThenFill(s: State, s1: State, s2: State, p: nat)
    requires Proj(s, p).l2.NotInL2? && EvictL2(s, p % 4096).Done?
    requires SetsKept(EvictL2(s, p % 4096).value.0, s1)
    requires var l2, w, l2' := s1.l2[p % 4096], EvictL2(s, p % 4096).value.1, s2.l2[p % 4096];
             && l2'.tag == l2.tag[w := p / 4096] && l2'.plru == Plru.Update(l2.plru, w)
             && forall v: nat :: v < NUM_L2_WAYS ==> Valid(l2'.state, v) == (Valid(l2.state, v) || v == w)
    requires forall k: nat :: k < L2_SETS && k != p % 4096 ==> s2.l2[k] == s1.l2[k]
    ensures Fills(s, s2, p, [p]) && ServesOnly(s, s2, p)
  {
    hide EvictL2, Freed, Served, Plru.Update, Proj;
    EvictL2Set(s, p % 4096);
    L2WayProj(s, p);
    var (t, w) := EvictL2(s, p % 4096).value;
    assert WaysKept(t.l2[p % 4096], s1.l2[p % 4096]);
    RefillServes(s.l2[p % 4096], s1.l2[p % 4096], s2.l2[p % 4096], p / 4096);
    forall k: nat | k < L2_SETS && k != p % 4096 ensures Quiet(s, s2, k) { OtherIsQuiet(s, t, s1, s2, k); }
    OnlyFills(s, s2, p);
  }

  lemma OtherIsQuiet(s: State, t: State, s1: State, s2: State, k: nat)
    requires k < L2_SETS && WaysKept(s.l2[k], t.l2[k]) && t.l2[k].plru == s.l2[k].plru
    requires SetsKept(t, s1) && s2.l2[k] == s1.l2[k]
    ensures Quiet(s, s2, k)
  {
    assert WaysKept(t.l2[k], s1.l2[k]);
    forall w: nat | w < NUM_L2_WAYS ensures Slots2(s2.l2[k]).valid[w] == Slots2(s.l2[k]).valid[w] {
      assert Valid(s2.l2[k].state, w) == Valid(s.l2[k].state, w);
    }
  }

  lemma OnlyFills(s: State, s': State, n: nat)
    requires ServesOnly(s, s', n) && Proj(s, n).l2.NotInL2?
    ensures Fills(s, s', n, [n])
  {
    hide Slots2, Proj, Served;
    PageSet(n, n);
    forall m: nat | m / 64 == n / 64
      ensures if m in [n] && Proj(s, m).l2.NotInL2? then Serves(s, s', m) else Quiet(s, s', m % 4096)
    {
      if m != n && m % 4096 == n % 4096 { OneLinePerSet(m, n); }
    }
  }

  // ---------------------------------------------------------------------------
  // Prefetches
  // ---------------------------------------------------------------------------

  lemma PfFillFills(s: State, from: int, next: int)
    requires Inv(s) && next % 64 == 0 && PfFill(s, from, next).Done?
    ensures var (s', ok) := PfFill(s, from, next).value;
            if ok then next >= 0 && Fills(s, s', next / 64, [next / 64]) else s' == s
  {
    hide Inv, Proj, EvictL2, Fills, Plru.Update;
    if next / 4096 == from / 4096 && next >= 64 && next + 64 <= |s.mem| {
      var p: nat := next / 64;
      L2WayProj(s, p);
      if L2WayOf(s, p) < NUM_L2_WAYS {
        SameIsQuiet(s, s);
        HeldFills(s, p);
      } else {
        var (s1, w) := EvictL2(s, p % 4096).value;
        EvictThenFill(s, s1, PfFill(s, from, next).value.0, p);
      }
    }
  }

  lemma HeldFills(s: State, p: nat)
    requires Proj(s, p).l2.InL2?
    ensures Fills(s, s, p, [p])
  {
    hide Proj, Slots2;
  }

  lemma PageFills(s: State, s': State, p: nat, n: nat, lines: seq<nat>)
    requires Fills(s, s', p, lines) && p / 64 == n / 64
    ensures Fills(s, s', n, lines)
  {
    hide Proj, Serves, Quiet;
  }

  lemma {:induction false} BurstFills(s: State, head: int, miss: int, stride: int, left: nat, n: nat)
    requires Inv(s) && (stride == 1 || stride == -1) && head % LINE_SIZE == 0
    requires head / PAGE_SIZE == n / 64 || (head + stride * LINE_SIZE) / PAGE_SIZE != head / PAGE_SIZE
    requires RunBurst(s, head, miss, stride, left).Done?
    ensures var lines := BurstLines(|s.mem|, head, miss, stride, left);
            Fills(s, RunBurst(s, head, miss, stride, left).value.state, n, lines)
    decreases left
  {
    hide Inv, PfFill, Brings, Proj, Fills;
    SameIsQuiet(s, s);
    QuietFills(s, s, n);
    if left == 0 || (head - miss) * stride >= PREFETCH_DISTANCE * LINE_SIZE {
    } else {
      var next := head + stride * LINE_SIZE;
      NextLineOver(head, stride);
      PfFillBrings(s, head, next);
      PfFillFills(s, head, next);
      var (s1, ok) := PfFill(s, head, next).value;
      if ok {
        SamePage(s, s1, next / 64, n, [next / 64]);
        PageFills(s, s1, next / 64, n, [next / 64]);
        BurstFills(s1, next, miss, stride, left - 1, n);
        var rest := BurstLines(|s.mem|, next, miss, stride, left - 1);
        FillsTwice(s, s1, RunBurst(s1, next, miss, stride, left - 1).value.state, n, [next / 64], rest);
      }
    }
  }

  lemma StreamFills(s: State, c: nat, n: nat)
    requires Inv(s) && Windowed(s) && c < |s.cores| && StreamOnMiss(s, c, 64 * n).Done?
    ensures Fills(s, StreamOnMiss(s, c, 64 * n).value, n, StreamLines(s, c, n))
  {
    hide Inv, RunBurst, Fills, BurstLines, Proj;
    var pf := s.cores[c].pf;
    var i := MatchFrom(pf.streams, 64 * n, 0);
    var s' := StreamOnMiss(s, c, 64 * n).value;
    if i < NUM_STREAMS {
      var stream := Advanced(pf.streams[i], 64 * n);
      var stride := stream.direction.Sign();
      MatchStartsBurst(pf.streams[i], 64 * n);
      StartsOnPage(stream.prefetchHead, n, stride);
      BurstFills(s, stream.prefetchHead, 64 * n, stride, PREFETCH_DISTANCE + 1, n);
      var b := RunBurst(s, stream.prefetchHead, 64 * n, stride, PREFETCH_DISTANCE + 1).value;
      SameIsQuiet(b.state, s');
      FillsThenQuiet(s, b.state, s', n, StreamLines(s, c, n));
    } else {
      SameIsQuiet(s, s');
      QuietFills(s, s', n);
    }
  }

  // ---------------------------------------------------------------------------
  // Calls that miss L2
  // ---------------------------------------------------------------------------

  lemma BothFill(s: State, c: nat, instr: bool, n: nat, line: Line, state: Mesi)
    requires Inv(s) && c < |s.cores| && Proj(s, n).l2.NotInL2? && state != Invalid
    requires var r1 := MakeRoom(s, c, instr, n);
             && r1.Done?
             && InstallBoth(r1.value.0, c, instr, n, r1.value.1, r1.value.2, line, state).Done?
    ensures var (s1, w2, w1) := MakeRoom(s, c, instr, n).value;
            Fills(s, InstallBoth(s1, c, instr, n, w2, w1, line, state).value, n, [n])
  {
    hide Inv, Proj, EvictL2, EvictL1, Fills, Plru.Update, SetsKept, L1Fill;
    var (t, w2) := EvictL2(s, n % 4096).value;
    EvictL1Sets(t, c, instr, n % 64);
    var (s1, w1) := EvictL1(t, c, instr, n % 64).value;
    EvictThenFill(s, s1, InstallBoth(s1, c, instr, n, w2, w1, line, state).value, n);
  }

  lemma MissFills(s: State, c: nat, n: nat, line: Line, state: Mesi)
    requires Inv(s) && Windowed(s) && c < |s.cores| && Proj(s, n).l2.NotInL2? && InMemory(s.mem, n)
    requires state == Exclusive || state == Modified
    ensures var r1 := MakeRoom(s, c, false, n);
            && r1.Done?
            && var (s1, w2, w1) := r1.value;
               var r2 := InstallBoth(s1, c, false, n, w2, w1, line, state);
               && r2.Done?
               && var r3 := StreamOnMiss(r2.value, c, 64 * n);
                  r3.Done? && Fills(s, CountMem(r3.value, c), n, [n] + StreamLines(s, c, n))
  {
    hide Inv, Proj, MakeRoom, InstallBoth, StreamOnMiss, Fills, MatesArrive, Brings;
    FillMates(s, c, false, n, line, state);
    BothFill(s, c, false, n, line, state);
    var (s1, w2, w1) := MakeRoom(s, c, false, n).value;
    var s2 := InstallBoth(s1, c, false, n, w2, w1, line, state).value;
    InstalledInL2(s, c, false, n, line, state);
    WindowedRest(s, s2);
    StreamBrings(s2, c, n);
    StreamFills(s2, c, n);
    var s3 := StreamOnMiss(s2, c, 64 * n).value;
    assert StreamLines(s2, c, n) == StreamLines(s, c, n);
    FillsAfter(s, s2, s3, n, StreamLines(s, c, n));
    SameIsQuiet(s3, CountMem(s3, c));
    FillsThenQuiet(s, s3, CountMem(s3, c), n, [n] + StreamLines(s, c, n));
  }

  lemma InstalledInL2(s: State, c: nat, instr: bool, n: nat, line: Line, state: Mesi)
    requires Inv(s) && c < |s.cores| && Proj(s, n).l2.NotInL2? && InMemory(s.mem, n)
    requires state == Exclusive || (state == Modified && !instr)
    requires instr ==> line == MemLine(s.mem, n)
    ensures var r1 := MakeRoom(s, c, instr, n);
            && r1.Done?
            && var (s1, w2, w1) := r1.value;
               var r2 := InstallBoth(s1, c, instr, n, w2, w1, line, state);
               r2.Done? && Proj(r2.value, n).l2.InL2?
  {
    hide Placed, Coherent, Proj, EvictL1, EvictL2, InstallBoth, L1WayOf, Stretch, MakeRoom;
    C.MakeRoomStretch(s, c, instr, n);
    var (s1, w2, w1) := MakeRoom(s, c, instr, n).value;
    C.StretchRest(s, s1, n, Proj(s, n));
    L2WayProj(s, n);
    L2WayProj(s1, n);
    C.FillStretch(s1, c, instr, n, w2, w1, line, state);
    var s2 := InstallBoth(s1, c, instr, n, w2, w1, line, state).value;
    C.StretchRest(s1, s2, n, C.Installed(Proj(s1, n), c, instr, line, state));
  }

  lemma FetchMissFills(s: State, c: nat, n: nat)
    requires Inv(s) && c < |s.cores| && Proj(s, n).l2.NotInL2? && InMemory(s.mem, n)
    ensures var r := FetchFromMemory(s, c, n); r.Done? && Fills(s, r.value.0, n, [n] + NextLine(s, n))
  {
    hide Inv, Proj, MakeRoom, InstallBoth, PfFill, Fills, MatesArrive, Brings;
    FillMates(s, c, true, n, MemLine(s.mem, n), Exclusive);
    BothFill(s, c, true, n, MemLine(s.mem, n), Exclusive);
    InstalledInL2(s, c, true, n, MemLine(s.mem, n), Exclusive);
    C.MakeRoomStretch(s, c, true, n);
    var (s1, w2, w1) := MakeRoom(s, c, true, n).value;
    SameMemLine(s, s1, n);
    var s2 := InstallBoth(s1, c, true, n, w2, w1, MemLine(s1.mem, n), Exclusive).value;
    PageOfLine(n);
    PfFillBrings(s2, 64 * n, 64 * n + 64);
    PfFillFills(s2, 64 * n, 64 * n + 64);
    var (s3, ok) := PfFill(s2, 64 * n, 64 * n + 64).value;
    if ok { PageFills(s2, s3, n + 1, n, [n + 1]); } else { SameIsQuiet(s2, s3); QuietFills(s2, s3, n); }
    FillsAfter(s, s2, s3, n, NextLine(s, n));
    SameIsQuiet(s3, CountMem(s3, c));
    FillsThenQuiet(s, s3, CountMem(s3, c), n, [n] + NextLine(s, n));
  }

  // ---------------------------------------------------------------------------
  // Calls that hit L2, or do not ask it
  // ---------------------------------------------------------------------------

  /** The way of line n is touched and stays valid. */
  lemma TouchServes(s: State, s': State, n: nat)
    requires L2WayOf(s, n) < NUM_L2_WAYS
    requires var l2, l2' := s.l2[n % 4096], s'.l2[n % 4096];
             && l2'.tag == l2.tag && l2'.plru == Plru.Update(l2.plru, L2WayOf(s, n))
             && forall v: nat :: v < NUM_L2_WAYS ==> Valid(l2'.state, v) == Valid(l2.state, v)
    requires forall k: nat :: k < L2_SETS && k != n % 4096 ==> s'.l2[k] == s.l2[k]
    ensures ServesOnly(s, s', n)
  {
    hide Plru.UpdateFrom;
    var l2, l2', w := s.l2[n % 4096], s'.l2[n % 4096], L2WayOf(s, n);
    forall v: nat | v < NUM_L2_WAYS ensures Slots2(l2').valid[v] == Slots2(l2).valid[v] {
      assert Valid(l2'.state, v) == Valid(l2.state, v);
    }
    assert HasAt(Slots2(l2), n / 4096, w);
    assert Served(Slots2(l2), Slots2(l2'), n / 4096, w);
  }

  lemma ReadWayServes(s: State, c: nat, instr: bool, n: nat, w2: nat)
    requires c < |s.cores| && w2 < NUM_L2_WAYS && w2 == L2WayOf(s, n)
    ensures ServesOnly(s, ReadL2Way(s, c, instr, n, w2).0, n)
  {
    hide DowngradePeers, Plru.Update, ServesOnly, AllQuiet, L2WayOf;
    L2WayProj(s, n);
    var line := s.l2[n % 4096].data[w2];
    var l2 := L2Read(s.l2[n % 4096], c, w2, instr);
    var s1 := PutL2(s, n % 4096, l2);
    var s2 := SetL2State(s1, n % 4096, w2, Shared);
    TouchServes(s, s1, n);
    TouchServes(s, s2, n);
    SameIsQuiet(s, s);
    DowngradePeersSets(s2, l2.dm[w2] - {c}, n, w2, line);
    KeptIsQuiet(s2, DowngradePeers(s2, l2.dm[w2] - {c}, n, w2, line).0);
    QuietAround(s, s, s2, DowngradePeers(s2, l2.dm[w2] - {c}, n, w2, line).0, n);
  }

  lemma KeptFinds(s: State, s': State, n: nat)
    requires SetsKept(s, s')
    ensures L2WayOf(s', n) == L2WayOf(s, n)
  {
    SameL2WaysFinds(s, s', n);
  }

  lemma ReadFromL2Serves(s: State, c: nat, pa: nat, w2: nat)
    requires c < |s.cores| && w2 < NUM_L2_WAYS && w2 == L2WayOf(s, pa / 64) && ReadFromL2(s, c, pa, w2).Done?
    ensures ServesOnly(s, ReadFromL2(s, c, pa, w2).value.0, pa / 64)
  {
    hide EvictL1, ReadL2Way, L1Fill, ServesOnly, AllQuiet, SetsKept, L2WayOf;
    var n := pa / 64;
    var state := s.l2[n % 4096].state[w2];
    var s0 := Emit(s, L2Hit, c, 2, n % 4096, w2, pa, state, state, None);
    C.SameL2Array(s, s0, n);
    SameIsQuiet(s, s0);
    EvictL1Sets(s0, c, false, n % 64);
    var (s1, w1) := EvictL1(s0, c, false, n % 64).value;
    KeptFinds(s0, s1, n);
    KeptIsQuiet(s0, s1);
    QuietTwice(s, s0, s1);
    ReadWayServes(s1, c, false, n, w2);
    var (s2, line, shared) := ReadL2Way(s1, c, false, n, w2);
    var s3 := ReadFromL2(s, c, pa, w2).value.0;
    SameIsQuiet(s2, s3);
    QuietAround(s, s1, s2, s3, n);
  }

  lemma FetchFromL2Serves(s: State, c: nat, n: nat, w2: nat)
    requires c < |s.cores| && w2 < NUM_L2_WAYS && w2 == L2WayOf(s, n) && FetchFromL2(s, c, n, w2).Done?
    ensures ServesOnly(s, FetchFromL2(s, c, n, w2).value.0, n)
  {
    hide EvictL1, ReadL2Way, L1Fill, ServesOnly, AllQuiet, SetsKept, L2WayOf;
    EvictL1Sets(s, c, true, n % 64);
    var (s1, w1) := EvictL1(s, c, true, n % 64).value;
    KeptFinds(s, s1, n);
    KeptIsQuiet(s, s1);
    ReadWayServes(s1, c, true, n, w2);
    var (s2, line, _) := ReadL2Way(s1, c, true, n, w2);
    SameIsQuiet(s2, FetchFromL2(s, c, n, w2).value.0);
    QuietAround(s, s1, s2, FetchFromL2(s, c, n, w2).value.0, n);
  }

  lemma TakeOverSet(s: State, c: nat, n: nat, w2: nat, touch: bool)
    requires w2 < NUM_L2_WAYS && w2 == L2WayOf(s, n)
    ensures var s' := C.TakeOver(s, c, n, w2, touch);
            if touch then ServesOnly(s, s', n) else SetsKept(s, s')
  {
    hide InvalidatePeersI, Plru.Update, ServesOnly, L2WayOf;
    L2WayProj(s, n);
    InvalidatePeersISets(s, s.l2[n % 4096].im[w2], n);
    if touch { TouchServes(s, C.TakeOver(s, c, n, w2, touch), n); }
  }

  lemma WriteFromL2Serves(s: State, c: nat, pa: nat, w2: nat, bytes: seq<byte>)
    requires c < |s.cores| && pa % 64 + |bytes| <= LINE_SIZE
    requires w2 < NUM_L2_WAYS && w2 == L2WayOf(s, pa / 64) && WriteFromL2(s, c, pa, w2, bytes).Done?
    ensures ServesOnly(s, WriteFromL2(s, c, pa, w2, bytes).value, pa / 64)
  {
    hide InvalidatePeers, InvalidatePeersI, EvictL1, Patch, L1Fill, ServesOnly, AllQuiet, SetsKept, L2WayOf, L2Own;
    var n := pa / 64;
    var l2 := s.l2[n % 4096];
    var s0 := Emit(s, L2Hit, c, 2, n % 4096, w2, pa, l2.state[w2], l2.state[w2], None);
    C.SameL2Array(s, s0, n);
    SameIsQuiet(s, s0);
    InvalidatePeersSets(s0, l2.dm[w2] - {c}, n, w2, l2.data[w2]);
    var (s1, newest) := InvalidatePeers(s0, l2.dm[w2] - {c}, n, w2, l2.data[w2]);
    KeptFinds(s0, s1, n);
    KeptIsQuiet(s0, s1);
    QuietTwice(s, s0, s1);
    EvictL1Sets(s1, c, false, n % 64);
    var (s2, w1) := EvictL1(s1, c, false, n % 64).value;
    KeptFinds(s1, s2, n);
    KeptIsQuiet(s1, s2);
    QuietTwice(s, s1, s2);
    var line := Patch(newest, pa % 64, bytes);
    var s3 := PutL1(s2, c, false, n % 64, L1Fill(s2.cores[c].l1d[n % 64], n / 64, w1, line, Modified));
    var s4 := Emit(s3, L1dFill, c, 1, n % 64, w1, pa, Invalid, Modified, Some(line));
    C.SameL2Array(s2, s4, n);
    SameIsQuiet(s2, s4);
    QuietTwice(s, s2, s4);
    TakeOverSet(s4, c, n, w2, true);
    var s5 := C.TakeOver(s4, c, n, w2, true);
    SameIsQuiet(s5, WriteFromL2(s, c, pa, w2, bytes).value);
    QuietAround(s, s4, s5, WriteFromL2(s, c, pa, w2, bytes).value, n);
  }

  /** A store that hits L1 asks L2 only to upgrade a SHARED copy. */
  lemma WriteHitServes(s: State, c: nat, pa: nat, w: nat, bytes: seq<byte>)
    requires c < |s.cores| && w < NUM_L1_WAYS && pa % 64 + |bytes| <= LINE_SIZE && WriteHit(s, c, pa, w, bytes).Done?
    ensures var n, s' := pa / 64, WriteHit(s, c, pa, w, bytes).value;
            if s.cores[c].l1d[n % 64].state[w] == Shared then ServesOnly(s, s', n) else AllQuiet(s, s')
  {
    hide InvalidatePeers, InvalidatePeersI, Patch, L1Write, ServesOnly, AllQuiet, SetsKept, L2WayOf, L2Own, L2Touch;
    var n, w2, s' := pa / 64, L2WayOf(s, pa / 64), WriteHit(s, c, pa, w, bytes).value;
    var shared := s.cores[c].l1d[n % 64].state[w] == Shared;
    var s1 := if shared then Upgrade(s, c, n, w2) else s;
    if shared { UpgradeServes(s, c, n, w2); }
    assert L2WayOf(s1, n) == w2;
    TakeOverSet(s1, c, n, w2, false);
    var s2 := C.TakeOver(s1, c, n, w2, false);
    KeptIsQuiet(s1, s2);
    SameIsQuiet(s2, s');
    QuietTwice(s1, s2, s');
    if shared {
      SameIsQuiet(s, s);
      QuietAround(s, s, s1, s', n);
    }
  }

  lemma UpgradeServes(s: State, c: nat, n: nat, w2: nat)
    requires c < |s.cores| && w2 < NUM_L2_WAYS && w2 == L2WayOf(s, n)
    ensures ServesOnly(s, Upgrade(s, c, n, w2), n) && L2WayOf(Upgrade(s, c, n, w2), n) == w2
  {
    hide InvalidatePeers, Plru.Update, ServesOnly, AllQuiet, SetsKept;
    var sharers := s.l2[n % 4096].dm[w2] - {c};
    InvalidatePeersSets(s, sharers, n, w2, ZeroLine());
    var s1 := InvalidatePeers(s, sharers, n, w2, ZeroLine()).0;
    KeptIsQuiet(s, s1);
    KeptFinds(s, s1, n);
    var s2 := Upgrade(s, c, n, w2);
    TouchServes(s1, s2, n);
    SameIsQuiet(s2, s2);
    QuietAround(s, s1, s2, s2, n);
  }

  // ---------------------------------------------------------------------------
  // Any call
  // ---------------------------------------------------------------------------

  /** The call asks L2 for its own line: it misses L1, or stores to a SHARED copy. */
  predicate AsksL2(s: State, op: Op)
    requires op.Fits(|s.cores|)
  {
    var n := op.pa / 64;
    var w := L1WayOf(s, op.core, op.kind.Fetching?, n);
    w == NUM_L1_WAYS || (op.kind.Store? && s.cores[op.core].l1d[n % 64].state[w] == Shared)
  }

  /** The call asks L2 for line m, or brings it in as a prefetch. */
  predicate Uses(s: State, op: Op, m: nat)
    requires op.Fits(|s.cores|)
  {
    var n := op.pa / 64;
    if m == n then AsksL2(s, op)
    else m / 64 == n / 64 && L2WayOf(s, n) == L2WayOf(s, m) == NUM_L2_WAYS && m in Prefetched(s, op)
  }

  /** Either line n alone, or line n and the missing lines of the list, or none. */
  ghost predicate Effect2(s: State, s': State, n: nat, asks: bool, lines: seq<nat>) {
    if !asks then AllQuiet(s, s')
    else if L2WayOf(s, n) < NUM_L2_WAYS then ServesOnly(s, s', n)
    else Fills(s, s', n, [n] + lines)
  }

  lemma ReadServes(s: State, c: nat, pa: nat, size: nat)
    requires Good(s) && c < |s.cores| && pa % 64 + size <= LINE_SIZE && Read(s, c, pa, size).Done?
    ensures var n := pa / 64;
            Effect2(s, Read(s, c, pa, size).value.0, n, L1WayOf(s, c, false, n) == NUM_L1_WAYS, StreamLines(s, c, n))
  {
    hide Inv, Windowed, Proj, ReadFromL2, MakeRoom, InstallBoth, StreamOnMiss, CountMem, L1Touch, L1WayOf, L2WayOf,
         StreamLines, AllQuiet, ServesOnly, Fills;
    var n := pa / 64;
    L2WayProj(s, n);
    if L1WayOf(s, c, false, n) < NUM_L1_WAYS {
      SameIsQuiet(s, Read(s, c, pa, size).value.0);
    } else if L2WayOf(s, n) < NUM_L2_WAYS {
      ReadFromL2Serves(s, c, pa, L2WayOf(s, n));
    } else {
      C.MakeRoomStretch(s, c, false, n);
      SameMemLine(s, MakeRoom(s, c, false, n).value.0, n);
      MissFills(s, c, n, MemLine(s.mem, n), Exclusive);
    }
  }

  lemma WriteServes(s: State, c: nat, pa: nat, bytes: seq<byte>)
    requires Good(s) && c < |s.cores| && pa % 64 + |bytes| <= LINE_SIZE && Write(s, c, pa, bytes).Done?
    ensures var n, w := pa / 64, L1WayOf(s, c, false, pa / 64);
            Effect2(s, Write(s, c, pa, bytes).value, n,
                    w == NUM_L1_WAYS || s.cores[c].l1d[n % 64].state[w] == Shared, StreamLines(s, c, n))
  {
    hide Inv, Windowed, Proj, WriteFromL2, MakeRoom, InstallBoth, StreamOnMiss, CountMem, L1WayOf, L2WayOf,
         StreamLines, AllQuiet, ServesOnly, Fills, Patch, WriteHit;
    var n := pa / 64;
    L2WayProj(s, n);
    if L1WayOf(s, c, false, n) < NUM_L1_WAYS {
      HeldCached(s, c, false, n);
      WriteHitServes(s, c, pa, L1WayOf(s, c, false, n), bytes);
    } else if L2WayOf(s, n) < NUM_L2_WAYS {
      WriteFromL2Serves(s, c, pa, L2WayOf(s, n), bytes);
    } else {
      MissFills(s, c, n, Patch(MemLine(s.mem, n), pa % 64, bytes), Modified);
    }
  }

  lemma FetchServes(s: State, c: nat, pa: nat, size: nat)
    requires Good(s) && c < |s.cores| && pa % 64 + size <= LINE_SIZE && Fetch(s, c, pa, size).Done?
    ensures var n := pa / 64;
            Effect2(s, Fetch(s, c, pa, size).value.0, n, L1WayOf(s, c, true, n) == NUM_L1_WAYS, NextLine(s, n))
  {
    hide Inv, Windowed, Proj, FetchFromL2, FetchFromMemory, L1Touch, L1WayOf, L2WayOf, NextLine, AllQuiet, ServesOnly,
         Fills;
    var n := pa / 64;
    L2WayProj(s, n);
    if L1WayOf(s, c, true, n) < NUM_L1_WAYS {
      SameIsQuiet(s, Fetch(s, c, pa, size).value.0);
    } else if L2WayOf(s, n) < NUM_L2_WAYS {
      FetchFromL2Serves(s, c, n, L2WayOf(s, n));
    } else if InMemory(s.mem, n) {
      FetchMissFills(s, c, n);
    } else {
      NoFetch(s, c, n);
    }
  }

  lemma StepEffect(s: State, op: Op)
    requires Good(s) && op.Fits(|s.cores|) && Step(s, op).Done?
    ensures Effect2(s, Step(s, op).value.0, op.pa / 64, AsksL2(s, op), Prefetched(s, op))
  {
    hide Inv, Windowed, Read, Write, Fetch, StreamLines, NextLine, AllQuiet, ServesOnly, Fills, L2WayOf, Proj;
    var n, s0, s' := op.pa / 64, s.(stamp := op.stamp), Step(s, op).value.0;
    Restamped(s, op.stamp);
    assert L2WayOf(s0, n) == L2WayOf(s, n) by { C.SameL2Array(s, s0, n); }
    assert Prefetched(s0, op) == Prefetched(s, op) by { SamePrefetches(s, op); }
    match op.kind {
      case Load(size) => ReadServes(s0, op.core, op.pa, size);
      case Store(bytes) => WriteServes(s0, op.core, op.pa, bytes);
      case Fetching(size) => FetchServes(s0, op.core, op.pa, size);
    }
    Unstamped(s, s0, s', n, AsksL2(s, op), Prefetched(s, op));
  }

  lemma Unstamped(s: State, s0: State, s': State, n: nat, asks: bool, lines: seq<nat>)
    requires Effect2(s0, s', n, asks, lines) && s0.l2 == s.l2
    requires forall m: nat :: Proj(s0, m) == Proj(s, m)
    ensures Effect2(s, s', n, asks, lines)
  {
    hide Proj, Slots2, Served;
    forall k: nat | k < L2_SETS ensures Quiet(s0, s', k) == Quiet(s, s', k) {}
    forall m: nat ensures Serves(s0, s', m) == Serves(s, s', m) {}
  }

  /** Each line that a completed call asks L2 for, or prefetches, is served in its set: found,
      or put in an unused way, or in that of the victim, and its way touched. Every set with no
      such line keeps its tags, its used ways and its replacement bits. */
  lemma StepServes(s: State, op: Op)
    requires Good(s) && op.Fits(|s.cores|) && Step(s, op).Done?
    ensures var s' := Step(s, op).value.0;
            && (forall m: nat :: Uses(s, op, m) ==> Serves(s, s', m))
            && (forall k: nat :: k < L2_SETS && NoneUsed(s, op, k) ==> Quiet(s, s', k))
  {
    hide Good, Step, Prefetched, L2WayOf, Serves, Quiet, AsksL2;
    var n, s' := op.pa / 64, Step(s, op).value.0;
    StepEffect(s, op);
    forall m: nat ensures L2WayOf(s, m) == NUM_L2_WAYS <==> Proj(s, m).l2.NotInL2? { L2WayProj(s, m); }
    hide Proj;
    if L2WayOf(s, n) == NUM_L2_WAYS { MissAsks(s, op); }
    forall m: nat | Uses(s, op, m) ensures Serves(s, s', m) {
      if AsksL2(s, op) { if L2WayOf(s, n) < NUM_L2_WAYS { assert m == n; } }
    }
    forall k: nat | k < L2_SETS && NoneUsed(s, op, k) ensures Quiet(s, s', k) { UnusedIsQuiet(s, s', op, k); }
  }

  /** No line of set k. */
  ghost predicate NoneUsed(s: State, op: Op, k: nat)
    requires op.Fits(|s.cores|)
  {
    forall m: nat :: m % 4096 == k ==> !Uses(s, op, m)
  }

  lemma UnusedIsQuiet(s: State, s': State, op: Op, k: nat)
    requires op.Fits(|s.cores|) && k < L2_SETS && NoneUsed(s, op, k)
    requires Effect2(s, s', op.pa / 64, AsksL2(s, op), Prefetched(s, op))
    requires forall m: nat :: L2WayOf(s, m) == NUM_L2_WAYS <==> Proj(s, m).l2.NotInL2?
    ensures Quiet(s, s', k)
  {
    hide Proj, Prefetched, L2WayOf, Serves, AsksL2;
    var n := op.pa / 64;
    if AsksL2(s, op) {
      assert !Uses(s, op, n) || n % 4096 != k;
      if L2WayOf(s, n) == NUM_L2_WAYS && k / 64 == n / 64 % 64 {
        var m := n / 64 * 64 + k % 64;
        MateOfSet(n, k);
        assert !Uses(s, op, m);
      }
    }
  }

  /** The line of n's page in set k. */
  lemma MateOfSet(n: nat, k: nat)
    requires k < L2_SETS && k / 64 == n / 64 % 64
    ensures var m := n / 64 * 64 + k % 64; m / 64 == n / 64 && m % 4096 == k
  {
  }

  /** A call whose line is in no L2 way asks for it. */
  lemma MissAsks(s: State, op: Op)
    requires Good(s) && op.Fits(|s.cores|) && L2WayOf(s, op.pa / 64) == NUM_L2_WAYS
    ensures AsksL2(s, op)
  {
    hide Inv, Windowed, Proj, L1WayOf, L2WayOf;
    var n := op.pa / 64;
    L2WayProj(s, n);
    if L1WayOf(s, op.core, op.kind.Fetching?, n) < NUM_L1_WAYS { HeldCached(s, op.core, op.kind.Fetching?, n); }
  }

  // ---------------------------------------------------------------------------
  // Recently used lines stay in L2
  // ---------------------------------------------------------------------------

  /** A line is in L2 exactly when its set has the tag. */
  lemma CachedIsHas(s: State, x: nat)
    ensures Has(Slots2(s.l2[x % 4096]), x / 4096) <==> Proj(s, x).l2.InL2?
  {
    L2WayProj(s, x);
    var l2, w := s.l2[x % 4096], L2WayOf(s, x);
    if w < NUM_L2_WAYS { assert HasAt(Slots2(l2), x / 4096, w); }
    if Has(Slots2(l2), x / 4096) {
      var v: nat :| HasAt(Slots2(l2), x / 4096, v);
      assert Match(l2.tag, l2.state, x / 4096, v);
    }
  }

  /** Line x is in L2, and at most j other lines of its set were used since it was. */
  ghost predicate Fresh(s: State, x: nat, j: nat) {
    exists w: nat :: HasAt(Slots2(s.l2[x % 4096]), x / 4096, w) && Shielded(Slots2(s.l2[x % 4096]), w, j)
  }

  /** The call uses another line of x's set. */
  ghost predicate Competes(s: State, op: Op, x: nat)
    requires op.Fits(|s.cores|)
  {
    exists m: nat :: m != x && m % 4096 == x % 4096 && Uses(s, op, m)
  }

  lemma ServesFresh(s: State, s': State, x: nat)
    requires Serves(s, s', x)
    ensures Fresh(s', x, 0)
  {
    hide Slots2, Served, Shielded;
    var a, b := Slots2(s.l2[x % 4096]), Slots2(s'.l2[x % 4096]);
    var w: nat :| Served(a, b, x / 4096, w);
    SetShaped(s.l2[x % 4096]);
    ServedIsShielded(a, b, x / 4096, w, 4);
  }

  lemma RivalKeepsFresh(s: State, s': State, m: nat, x: nat, j: nat)
    requires Serves(s, s', m) && m != x && m % 4096 == x % 4096 && Fresh(s, x, j) && j < 4
    ensures Fresh(s', x, j + 1)
  {
    hide Slots2, Served, Shielded;
    SameLine(m, x);
    var a, b := Slots2(s.l2[x % 4096]), Slots2(s'.l2[x % 4096]);
    var v: nat :| Served(a, b, m / 4096, v);
    var w: nat :| HasAt(a, x / 4096, w) && Shielded(a, w, j);
    SetShaped(s.l2[x % 4096]);
    ServedShields(a, b, m / 4096, v, x / 4096, w, j, 4);
  }

  lemma FreshLonger(s: State, x: nat, j: nat, k: nat)
    requires Fresh(s, x, j) && j <= k
    ensures Fresh(s, x, k)
  {
    hide Slots2;
    var a := Slots2(s.l2[x % 4096]);
    var w: nat :| HasAt(a, x / 4096, w) && Shielded(a, w, j);
    assert HasAt(a, x / 4096, w) && Shielded(a, w, k);
  }

  lemma StepKeepsFresh(s: State, op: Op, x: nat, j: nat)
    requires Good(s) && op.Fits(|s.cores|) && Step(s, op).Done? && Fresh(s, x, j)
    requires Competes(s, op, x) ==> j < 4
    ensures Fresh(Step(s, op).value.0, x, if Competes(s, op, x) then j + 1 else j)
  {
    hide Good, Step, Uses, Serves, Slots2, Fresh;
    var s' := Step(s, op).value.0;
    StepServes(s, op);
    if Competes(s, op, x) {
      var m: nat :| m != x && m % 4096 == x % 4096 && Uses(s, op, m);
      RivalKeepsFresh(s, s', m, x, j);
    } else if Uses(s, op, x) {
      ServesFresh(s, s', x);
      FreshLonger(s', x, 0, j);
    } else {
      assert Quiet(s, s', x % 4096);
      QuietFresh(s, s', x, j);
    }
  }

  lemma QuietFresh(s: State, s': State, x: nat, j: nat)
    requires Quiet(s, s', x % 4096) && Fresh(s, x, j)
    ensures Fresh(s', x, j)
  {
    hide Slots2;
  }

  /** How many calls of the run use another line of x's set. */
  ghost function Rivals(s: State, ops: seq<Op>, x: nat): nat
    requires AllFit(ops, |s.cores|)
    decreases |ops|
  {
    if ops == [] then 0 else
    (if Competes(s, ops[0], x) then 1 else 0)
    + if Step(s, ops[0]).Done? then Rivals(Step(s, ops[0]).value.0, ops[1..], x) else 0
  }

  lemma GoodAfter(s: State, op: Op)
    requires Good(s) && op.Fits(|s.cores|) && Step(s, op).Done?
    ensures Good(Step(s, op).value.0)
  {
    hide Good, Proj, Step, LineAfter, Flat.Call, HeldBy;
    StepKeepsDemandedLine(s, op);
  }

  lemma {:induction false} FreshThroughout(s: State, ops: seq<Op>, x: nat, j: nat)
    requires Good(s) && AllFit(ops, |s.cores|) && Run(s, ops).Done? && Fresh(s, x, j) && j + Rivals(s, ops, x) <= 4
    ensures Good(Run(s, ops).value.0) && Fresh(Run(s, ops).value.0, x, 4)
    decreases |ops|
  {
    hide Good, Proj, Step, Fresh, Competes;
    if ops == [] {
      FreshLonger(s, x, j, 4);
    } else {
      GoodAfter(s, ops[0]);
      StepKeepsFresh(s, ops[0], x, j);
      FreshThroughout(Step(s, ops[0]).value.0, ops[1..], x, if Competes(s, ops[0], x) then j + 1 else j);
    }
  }

  /** A line that a call asked L2 for, or prefetched, is still in L2 after any run, by any cores,
      in which at most four calls ask for or prefetch another line of its set. */
  lemma RecentLineStaysInL2(s: State, op: Op, x: nat, ops: seq<Op>)
    requires Good(s) && op.Fits(|s.cores|) && Step(s, op).Done? && Uses(s, op, x)
    requires AllFit(ops, |s.cores|) && Run(Step(s, op).value.0, ops).Done?
    requires Rivals(Step(s, op).value.0, ops, x) <= 4
    ensures Proj(Run(Step(s, op).value.0, ops).value.0, x).l2.InL2?
  {
    hide Good, Proj, Step, Run, Uses, Slots2, Serves;
    GoodAfter(s, op);
    StepServes(s, op);
    ServesFresh(s, Step(s, op).value.0, x);
    FreshThroughout(Step(s, op).value.0, ops, x, 0);
    CachedIsHas(Run(Step(s, op).value.0, ops).value.0, x);
  }

  // ---------------------------------------------------------------------------
  // Misses in a full L2 set
  // ---------------------------------------------------------------------------

  /** Call j of the chain brings in a line of set k that L2 has not got. */
  ghost predicate BringsIn(chain: seq<State>, ops: seq<Op>, lines: seq<nat>, k: nat, j: nat) {
    && j < |ops| == |lines| && j + 1 < |chain| && ops[j].Fits(|chain[j].cores|)
    && Step(chain[j], ops[j]).Done? && chain[j + 1] == Step(chain[j], ops[j]).value.0
    && lines[j] % 4096 == k && Uses(chain[j], ops[j], lines[j]) && Proj(chain[j], lines[j]).l2.NotInL2?
  }

  ghost predicate SetFull(s: State, k: nat) { Good(s) && k < L2_SETS && AllUsed(Slots2(s.l2[k])) }

  /** Call j drops line x from L2. */
  predicate DropsLine(chain: seq<State>, j: nat, x: nat)
    requires j + 1 < |chain|
  {
    Proj(chain[j], x).l2.InL2? && Proj(chain[j + 1], x).l2.NotInL2?
  }

  function SlotChain(chain: seq<State>, k: nat): seq<Slots>
    requires k < L2_SETS
  {
    seq(|chain|, j requires 0 <= j < |chain| => Slots2(chain[j].l2[k]))
  }

  function TagsOf(lines: seq<nat>): seq<nat> { seq(|lines|, j requires 0 <= j < |lines| => lines[j] / 4096) }

  lemma {:induction false} ChainGood(chain: seq<State>, ops: seq<Op>, lines: seq<nat>, k: nat, j: nat)
    requires |chain| == |ops| + 1 && j < |chain| && Good(chain[0])
    requires forall i: nat :: i < |ops| ==> BringsIn(chain, ops, lines, k, i)
    ensures Good(chain[j])
    decreases j
  {
    hide Good, Step, Uses, Proj;
    if j == 0 {
    } else {
      ChainGood(chain, ops, lines, k, j - 1);
      assert BringsIn(chain, ops, lines, k, j - 1);
      GoodAfter(chain[j - 1], ops[j - 1]);
    }
  }

  lemma ChainMisses(chain: seq<State>, ops: seq<Op>, lines: seq<nat>, k: nat, j: nat)
    requires k < L2_SETS && BringsIn(chain, ops, lines, k, j) && Good(chain[j])
    ensures Misses(SlotChain(chain, k), TagsOf(lines), j)
  {
    hide Good, Step, Uses, Proj, Served, Slots2, Has;
    StepServes(chain[j], ops[j]);
    CachedIsHas(chain[j], lines[j]);
    assert Serves(chain[j], chain[j + 1], lines[j]);
    var slots := SlotChain(chain, k);
    var w: nat :| Served(slots[j], slots[j + 1], lines[j] / 4096, w);
  }

  lemma L2Distinct(s: State, k: nat)
    requires Inv(s) && k < L2_SETS
    ensures Distinct(Slots2(s.l2[k]))
  {
    hide Proj, Coherent, L1Ok;
    var l2 := s.l2[k];
    assert L2Ok(l2, k, |s.mem|);
    forall u, v: nat, w: nat | HasAt(Slots2(l2), u, v) && HasAt(Slots2(l2), u, w) ensures v == w {
      assert Valid(l2.state, v) && Valid(l2.state, w);
    }
  }

  /** Sixteen calls that each bring a line into the same full L2 set: each of the sixteen lines
      that it held is dropped by exactly one of them. */
  lemma SixteenMissesDropEachOnce(chain: seq<State>, ops: seq<Op>, lines: seq<nat>, k: nat, w: nat)
    requires |ops| == 16 && |chain| == 17 && SetFull(chain[0], k) && w < NUM_L2_WAYS
    requires forall j: nat :: j < 16 ==> BringsIn(chain, ops, lines, k, j)
    ensures var x := chain[0].l2[k].tag[w] * 4096 + k;
            exists j: nat :: j < 16 && DropsLine(chain, j, x)
                             && forall i: nat :: i < 16 && DropsLine(chain, i, x) ==> i == j
  {
    hide Inv, Step, Uses, Proj, Has;
    forall j: nat | j < 17 ensures Good(chain[j]) { ChainGood(chain, ops, lines, k, j); }
    assert BringsIn(chain, ops, lines, k, 0);
    var slots, tags := SlotChain(chain, k), TagsOf(lines);
    forall j: nat | j < 16 ensures Misses(slots, tags, j) {
      assert BringsIn(chain, ops, lines, k, j);
      ChainMisses(chain, ops, lines, k, j);
    }
    SetShaped(chain[0].l2[k]);
    L2Distinct(chain[0], k);
    assert Plru.Pow2(4) == 16;
    var x := chain[0].l2[k].tag[w] * 4096 + k;
    assert x / 4096 == slots[0].tag[w] && x % 4096 == k;
    forall j: nat | j < 17 ensures Has(slots[j], x / 4096) <==> Proj(chain[j], x).l2.InL2? { CachedIsHas(chain[j], x); }
    EachLeavesOnce(slots, tags, 4, w);
    var j: nat :| j < 16 && Leaves(slots, j, x / 4096)
                  && forall i: nat :: i < 16 && Leaves(slots, i, x / 4096) ==> i == j;
    forall i: nat | i < 16 ensures DropsLine(chain, i, x) == Leaves(slots, i, x / 4096) {}
  }
}
