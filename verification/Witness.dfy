/** A run of two cores whose loads return what flat memory would not: a store, a load of
    the same line by the other core, and enough loads of the same L2 set. */
module Witness {
  import opened Types
  import opened Coherence
  import opened Caches
  import opened Projection
  import opened Snoops
  import opened Sets
  import opened Flat
  import opened Prefetch
  import opened Machine
  import opened Runs
  import C = Calls
  import Plru

  // ---------------------------------------------------------------------------
  // What a miss does to its L2 set
  // ---------------------------------------------------------------------------

  /** Set l2 after a fill of way w. */
  ghost predicate Refilled(l2: L2Set, l2': L2Set, w: nat, tag: nat) {
    && w < NUM_L2_WAYS && l2'.tag == l2.tag[w := tag] && l2'.plru == Plru.Update(l2.plru, w)
    && forall v: nat :: v < NUM_L2_WAYS ==> Valid(l2'.state, v) == (Valid(l2.state, v) || v == w)
  }

  /** No stream of these matches a miss in set k. */
  ghost predicate NoStream(pf: Prefetcher, k: nat) {
    forall i: nat :: i < NUM_STREAMS ==>
      || pf.streams[i].confidence == Unused
      || (pf.streams[i].confidence == Training && pf.streams[i].lastLine >= 0
          && pf.streams[i].lastLine % 64 == 0 && pf.streams[i].lastLine / 64 % 4096 == k)
  }

  lemma NoMatch(pf: Prefetcher, n: nat, i: nat)
    requires NoStream(pf, n % 4096) && i < NUM_STREAMS
    ensures !StreamMatches(pf.streams[i], 64 * n)
  {
  }

  lemma QuietMiss(s: State, c: nat, n: nat)
    requires c < |s.cores| && NoStream(s.cores[c].pf, n % 4096)
    ensures var r := StreamOnMiss(s, c, 64 * n);
            && r.Done? && r.value.l2 == s.l2 && |r.value.cores| == |s.cores|
            && NoStream(r.value.cores[c].pf, n % 4096)
  {
    hide RunBurst, StreamMatches;
    var pf := s.cores[c].pf;
    var i := MatchFrom(pf.streams, 64 * n, 0);
    if i < NUM_STREAMS { NoMatch(pf, n, i); }
  }

  /** From the miss to the trained stream. */
  lemma MissSet(s: State, c: nat, n: nat, line: Line, state: Mesi)
    requires Inv(s) && c < |s.cores| && NoStream(s.cores[c].pf, n % 4096) && state != Invalid
    requires var r1 := MakeRoom(s, c, false, n);
             && r1.Done?
             && InstallBoth(r1.value.0, c, false, n, r1.value.1, r1.value.2, line, state).Done?
    ensures var (s1, w2, w1) := MakeRoom(s, c, false, n).value;
            var s2 := InstallBoth(s1, c, false, n, w2, w1, line, state).value;
            var r3 := StreamOnMiss(s2, c, 64 * n);
            && r3.Done?
            && Refilled(s.l2[n % 4096], r3.value.l2[n % 4096], Freed(s.l2[n % 4096]), n / 4096)
            && NoStream(r3.value.cores[c].pf, n % 4096)
  {
    hide EvictL2, EvictL1, Freed, StreamOnMiss, NoStream, Inv, Refilled;
    EvictL2Set(s, n % 4096);
    EvictL2Moves(s, n % 4096);
    var (s0, w2) := EvictL2(s, n % 4096).value;
    EvictL1Sets(s0, c, false, n % 64);
    EvictL1Moves(s0, c, false, n % 64);
    var (s1, w1) := EvictL1(s0, c, false, n % 64).value;
    var s2 := InstallBoth(s1, c, false, n, w2, w1, line, state).value;
    InstallBothSet(s1, c, n, w2, w1, line, state);
    RefilledAfter(s.l2[n % 4096], s1.l2[n % 4096], s2.l2[n % 4096], w2, n / 4096);
    QuietMiss(s2, c, n);
  }

  lemma InstallBothSet(s: State, c: nat, n: nat, w2: nat, w1: nat, line: Line, state: Mesi)
    requires c < |s.cores| && w2 < NUM_L2_WAYS && w1 < NUM_L1_WAYS && state != Invalid
    requires InstallBoth(s, c, false, n, w2, w1, line, state).Done?
    ensures var s' := InstallBoth(s, c, false, n, w2, w1, line, state).value;
            Refilled(s.l2[n % 4096], s'.l2[n % 4096], w2, n / 4096) && s'.cores[c].pf == s.cores[c].pf
  {
    hide Plru.Update;
  }

  lemma RefilledAfter(l2: L2Set, l2a: L2Set, l2b: L2Set, w: nat, tag: nat)
    requires w < NUM_L2_WAYS && l2a.tag == l2.tag && l2a.plru == l2.plru && Refilled(l2a, l2b, w, tag)
    requires forall v: nat :: v < NUM_L2_WAYS ==> Valid(l2a.state, v) == (Valid(l2.state, v) && v != w)
    ensures Refilled(l2, l2b, w, tag)
  {
  }

  // ---------------------------------------------------------------------------
  // Pressing on the set of line x
  // ---------------------------------------------------------------------------

  /** Line x sits in way 0 of its L2 set, not MODIFIED; besides it the set holds no line
      past x + 4096 * j; and core 0's prefetcher follows no stream. */
  ghost predicate Pressed(s: State, x: nat, j: nat) {
    && Good(s) && |s.cores| == 2
    && L2WayOf(s, x) == 0 && !InState(Proj(s, x).l2, Modified)
    && Beyond(s, x, j)
  }

  ghost predicate Beyond(s: State, x: nat, j: nat) {
    && |s.cores| == 2 && NoStream(s.cores[0].pf, x % 4096)
    && forall m: nat :: m % 4096 == x % 4096 && m > x + 4096 * j ==> Proj(s, m).l2.NotInL2?
  }

  /** Core 0's load of the first byte of line n. */
  function LoadOf(n: nat): Op { Op(0, 64 * n, Load(1), 0) }

  /** A load elsewhere neither stores to line x nor brings anything outside its page into L2. */
  lemma LoadElsewhere(s: State, x: nat, n: nat)
    requires Good(s) && |s.cores| == 2 && n != x && InMemory(s.mem, n)
    ensures LoadOf(n).Fits(|s.cores|) && LoadOf(n).pa / 64 == n
    ensures var r := Step(s, LoadOf(n));
            && r.Done?
            && var s' := r.value.0;
               && Good(s') && |s'.mem| == |s.mem|
               && (forall m: nat :: m / 64 != n / 64 && Proj(s', m).l2.InL2? ==> Proj(s, m).l2.InL2?)
               && (!InState(Proj(s, x).l2, Modified) ==>
                     Proj(s', x).mem == Proj(s, x).mem && !InState(Proj(s', x).l2, Modified))
  {
    hide Placed, Windowed, Coherent, Proj, Step, LineAfter, View, Stale;
    var op := LoadOf(n);
    assert op.pa / 64 == n && op.pa % 64 == 0;
    StepIsAction(s, op);
    StepKeepsDemandedLine(s, op);
    Restamped(s, 0);
    assert Calm(Proj(s.(stamp := 0), x), Proj(Step(s, op).value.0, x));
  }

  /** What the load of the next line of x's set does: a miss that frees one way. */
  lemma LoadNext(s: State, x: nat, j: nat)
    requires Pressed(s, x, j) && InMemory(s.mem, x + 4096 * (j + 1))
    ensures LoadOf(x + 4096 * (j + 1)).Fits(|s.cores|)
    ensures var n, r := x + 4096 * (j + 1), Step(s, LoadOf(x + 4096 * (j + 1)));
            && r.Done?
            && var s' := r.value.0;
               && Good(s') && |s'.mem| == |s.mem| && Beyond(s', x, j + 1)
               && Refilled(s.l2[x % 4096], s'.l2[x % 4096], Freed(s.l2[x % 4096]), n / 4096)
               && Proj(s', x).mem == Proj(s, x).mem && !InState(Proj(s', x).l2, Modified)
  {
    hide Good, Proj, Step, NoStream, Refilled, Freed, L2WayOf;
    var n := x + 4096 * (j + 1);
    assert n % 4096 == x % 4096 && n != x;
    LoadElsewhere(s, x, n);
    LoadRefills(s, n);
    var s' := Step(s, LoadOf(n)).value.0;
    forall m: nat | m % 4096 == x % 4096 && m > x + 4096 * (j + 1) ensures Proj(s', m).l2.NotInL2? {
      if m / 64 == n / 64 { OneLinePerSet(m, n); }
    }
  }

  lemma LoadRefills(s: State, n: nat)
    requires Good(s) && |s.cores| == 2 && NoStream(s.cores[0].pf, n % 4096) && InMemory(s.mem, n)
    requires Proj(s, n).l2.NotInL2?
    ensures LoadOf(n).Fits(2)
    ensures var r := Step(s, LoadOf(n));
            && r.Done?
            && Refilled(s.l2[n % 4096], r.value.0.l2[n % 4096], Freed(s.l2[n % 4096]), n / 4096)
            && NoStream(r.value.0.cores[0].pf, n % 4096)
  {
    hide Inv, Proj, Windowed, Step, NoStream, Refilled, Freed;
    Restamped(s, 0);
    NotCached(s.(stamp := 0), n);
    MissReads(s.(stamp := 0), n);
    StepIsRead(s, n);
  }

  lemma NotCached(s: State, n: nat)
    requires Good(s) && |s.cores| == 2 && Proj(s, n).l2.NotInL2?
    ensures L1WayOf(s, 0, false, n) == NUM_L1_WAYS && L2WayOf(s, n) == NUM_L2_WAYS
  {
    hide Placed, Coherent, Proj;
    L2WayProj(s, n);
    C.NotInL1(s, 0, false, n);
  }

  lemma StepIsRead(s: State, n: nat)
    requires |s.cores| == 2
    ensures LoadOf(n).Fits(2) && Step(s, LoadOf(n)) == Read(s.(stamp := 0), 0, 64 * n, 1)
  {
  }

  /** A load that misses everywhere, at the level of its L2 set. */
  lemma MissReads(s: State, n: nat)
    requires Good(s) && |s.cores| == 2 && NoStream(s.cores[0].pf, n % 4096) && InMemory(s.mem, n)
    requires L1WayOf(s, 0, false, n) == NUM_L1_WAYS && L2WayOf(s, n) == NUM_L2_WAYS && Proj(s, n).l2.NotInL2?
    ensures (64 * n) % 64 + 1 <= LINE_SIZE
    ensures var r := Read(s, 0, 64 * n, 1);
            && r.Done?
            && Refilled(s.l2[n % 4096], r.value.0.l2[n % 4096], Freed(s.l2[n % 4096]), n / 4096)
            && NoStream(r.value.0.cores[0].pf, n % 4096)
  {
    hide Inv, Proj, Windowed, MakeRoom, InstallBoth, StreamOnMiss, NoStream, Refilled, Freed, C.CallKeeps, FillD,
         L1WayOf, L2WayOf;
    assert 64 * n / 64 == n && 64 * n % 64 == 0;
    L2WayProj(s, n);
    C.MissCall(s, 0, n, Proj(s, n).mem, Exclusive);
    MissSet(s, 0, n, Proj(s, n).mem, Exclusive);
  }

  /** A refill of another way leaves x where it is; a refill of x's way removes it. */
  lemma StillThere(s: State, s': State, x: nat, w: nat, tag: nat)
    requires Placed(s) && L2WayOf(s, x) == 0 && Refilled(s.l2[x % 4096], s'.l2[x % 4096], w, tag) && tag != x / 4096
    ensures w != 0 ==> L2WayOf(s', x) == 0
    ensures w == 0 ==> L2WayOf(s', x) == NUM_L2_WAYS
  {
    hide L1Ok, Plru.Update;
    var l2, l2' := s.l2[x % 4096], s'.l2[x % 4096];
    assert L2Ok(l2, x % 4096, |s.mem|);
    assert Valid(l2.state, 0);
    if w != 0 {
      assert Valid(l2'.state, 0);
      assert Match(l2'.tag, l2'.state, x / 4096, 0);
    } else {
      forall v: nat | v < NUM_L2_WAYS ensures !Match(l2'.tag, l2'.state, x / 4096, v) {
        assert Valid(l2'.state, v) == (Valid(l2.state, v) || v == 0);
        assert v != 0 && Valid(l2.state, v) ==> l2.tag[v] != l2.tag[0];
      }
    }
  }

  // ---------------------------------------------------------------------------
  // Building the run
  // ---------------------------------------------------------------------------

  predicate OnlyLoads(ops: seq<Op>) { forall i :: 0 <= i < |ops| ==> ops[i].kind.Load? }

  /** The run ends with a load of line x that returns the byte `last`. */
  ghost predicate EndsWith(s: State, ops: seq<Op>, x: nat, last: byte) {
    && AllFit(ops, |s.cores|) && ops != [] && ops[|ops| - 1] == LoadOf(x)
    && Run(s, ops).Done?
    && Run(s, ops).value.1[|ops| - 1] == [last]
  }

  lemma Prepend(s: State, op: Op, ops: seq<Op>, x: nat, last: byte)
    requires op.Fits(|s.cores|) && Step(s, op).Done? && EndsWith(Step(s, op).value.0, ops, x, last)
    ensures EndsWith(s, [op] + ops, x, last)
  {
    hide Step;
    assert ([op] + ops)[1..] == ops;
  }

  /** Once x is gone from L2, a load of it returns memory's byte. */
  lemma LoadGone(s: State, x: nat)
    requires Good(s) && |s.cores| == 2 && InMemory(s.mem, x) && Proj(s, x).l2.NotInL2?
    ensures EndsWith(s, [LoadOf(x)], x, Proj(s, x).mem[0])
  {
    hide Placed, Windowed, Coherent, Proj, Step, LineAfter, View, Stale, Run;
    var op := LoadOf(x);
    assert op.pa / 64 == x && op.pa % 64 == 0;
    StepIsAction(s, op);
    UncachedView(s, x);
    var (s1, out) := Step(s, op).value;
    assert out == [Proj(s, x).mem[0]];
    RunOne(s, op);
  }

  lemma RunOne(s: State, op: Op)
    requires op.Fits(|s.cores|) && Step(s, op).Done?
    ensures AllFit([op], |s.cores|) && Run(s, [op]) == Done((Step(s, op).value.0, [Step(s, op).value.1]))
  {
    hide Step;
    var (s1, out) := Step(s, op).value;
    assert [op][1..] == [] && [out] + [] == [out];
    assert Run(s1, []) == Done((s1, []));
  }

  /** A full set: each load counts x's wait down by one, and at zero x goes. */
  lemma {:induction false} PressFull(s: State, x: nat, j: nat) returns (ops: seq<Op>)
    requires Pressed(s, x, j) && forall v: nat :: v < NUM_L2_WAYS ==> Valid(s.l2[x % 4096].state, v)
    requires InMemory(s.mem, x + 4096 * (j + 1 + Plru.Wait(s.l2[x % 4096].plru, 15, 4)))
    ensures OnlyLoads(ops) && EndsWith(s, ops, x, Proj(s, x).mem[0])
    decreases Plru.Wait(s.l2[x % 4096].plru, 15, 4)
  {
    hide Good, Proj, Step, NoStream, L2WayOf, Plru.Wait, Plru.VictimFrom, Plru.UpdateFrom, Run, EndsWith;
    var k, n := x % 4096, x + 4096 * (j + 1);
    var bits := s.l2[k].plru;
    LoadNext(s, x, j);
    FullFrees(s.l2[k]);
    PlacedGood(s);
    StillThere(s, Step(s, LoadOf(n)).value.0, x, Plru.Victim(bits), n / 4096);
    NextRound(bits);
    var s1 := Step(s, LoadOf(n)).value.0;
    L2WayProj(s1, x);
    if Plru.Victim(bits) == 0 {
      LoadGone(s1, x);
      ops := [LoadOf(x)];
    } else {
      ops := PressFull(s1, x, j + 1);
    }
    Prepend(s, LoadOf(n), ops, x, Proj(s, x).mem[0]);
    ops := [LoadOf(n)] + ops;
  }

  lemma PlacedGood(s: State)
    requires Good(s)
    ensures Placed(s)
  {
  }

  lemma FullFrees(l2: L2Set)
    requires forall v: nat :: v < NUM_L2_WAYS ==> Valid(l2.state, v)
    ensures Freed(l2) == Plru.Victim(l2.plru)
  {
    hide Plru.VictimFrom;
    assert FreeFrom(l2.state, 0) < NUM_L2_WAYS ==> Valid(l2.state, FreeFrom(l2.state, 0));
  }

  lemma NextRound(bits: seq<bool>)
    requires |bits| == NUM_L2_WAYS - 1
    ensures Plru.AtLevel(15, 4)
    ensures Plru.Victim(bits) == 0 <==> Plru.Wait(bits, 15, 4) == 0
    ensures Plru.Victim(bits) != 0 ==>
              Plru.Wait(Plru.Update(bits, Plru.Victim(bits)), 15, 4) == Plru.Wait(bits, 15, 4) - 1
  {
    hide Plru.Wait, Plru.VictimFrom, Plru.UpdateFrom;
    assert Plru.Pow2(4) == 16;
    Plru.RoundIsUpdate(bits, 15, 4);
    Plru.RoundEvicts(bits, 0, 0, 4);
  }

  /** Before that, loads fill the free ways one after the other. */
  lemma {:induction false} PressFree(s: State, x: nat, j: nat) returns (ops: seq<Op>)
    requires Pressed(s, x, j) && j <= 15
    requires forall v: nat :: v < NUM_L2_WAYS ==> (Valid(s.l2[x % 4096].state, v) <==> v <= j)
    requires InMemory(s.mem, x + 4096 * 31)
    ensures OnlyLoads(ops) && EndsWith(s, ops, x, Proj(s, x).mem[0])
    decreases 15 - j
  {
    hide Good, Proj, Step, NoStream, L2WayOf, Plru.Wait, Plru.VictimFrom, Plru.UpdateFrom, Run, EndsWith;
    if j == 15 {
      WaitBound(s.l2[x % 4096].plru);
      ops := PressFull(s, x, j);
    } else {
      var k, n := x % 4096, x + 4096 * (j + 1);
      LoadNext(s, x, j);
      FreeNext(s.l2[k], j);
      PlacedGood(s);
      StillThere(s, Step(s, LoadOf(n)).value.0, x, j + 1, n / 4096);
      ops := PressFree(Step(s, LoadOf(n)).value.0, x, j + 1);
      Prepend(s, LoadOf(n), ops, x, Proj(s, x).mem[0]);
      ops := [LoadOf(n)] + ops;
    }
  }

  lemma FreeNext(l2: L2Set, j: nat)
    requires j < 15 && forall v: nat :: v < NUM_L2_WAYS ==> (Valid(l2.state, v) <==> v <= j)
    ensures Freed(l2) == j + 1
  {
    var f := FreeFrom(l2.state, 0);
    assert !Valid(l2.state, j + 1);
    if f < NUM_L2_WAYS { assert !Valid(l2.state, f); }
  }

  lemma WaitBound(bits: seq<bool>)
    requires |bits| == NUM_L2_WAYS - 1
    ensures Plru.AtLevel(15, 4) && Plru.Wait(bits, 15, 4) < 16
  {
    hide Plru.Wait;
    assert Plru.Pow2(4) == 16;
    Plru.WaitIsZeroOnPath(bits, 15, 4, 4);
  }

  // ---------------------------------------------------------------------------
  // The first two calls
  // ---------------------------------------------------------------------------

  function StoreOf(n: nat, b: byte): Op { Op(0, 64 * n, Store([b]), 0) }

  function OtherLoadOf(n: nat): Op { Op(1, 64 * n, Load(1), 0) }

  /** From power-on, core 0's store takes way 0 of the empty set. */
  lemma AfterStore(mem: seq<byte>, x: nat, b: byte)
    requires InMemory(mem, x)
    ensures StoreOf(x, b).Fits(2)
    ensures var r := Step(Init(2, mem), StoreOf(x, b));
            && r.Done?
            && var s1 := r.value.0;
               && Good(s1) && |s1.cores| == 2 && |s1.mem| == |mem| && Beyond(s1, x, 0)
               && Proj(s1, x) == FillD(Proj(Init(2, mem), x), 0, Patch(MemLine(mem, x), 0, [b]), Modified)
               && |Proj(s1, x).d| == |Proj(s1, x).i| == 2 && Proj(s1, x).d[1].Absent?
               && L2WayOf(s1, x) == 0
               && forall v: nat :: v < NUM_L2_WAYS ==> (Valid(s1.l2[x % 4096].state, v) <==> v == 0)
  {
    hide Placed, Windowed, Coherent, Proj, Step, View, Stale, Patch, Init, Refilled, NoStream;
    var s, op := Init(2, mem), StoreOf(x, b);
    assert op.pa / 64 == x && op.pa % 64 == 0;
    InitGood(2, mem);
    InitParts(mem, x);
    StepIsAction(s, op);
    StepKeepsDemandedLine(s, op);
    Restamped(s, 0);
    var s1 := Step(s, op).value.0;
    StoreRefills(s, x, b);
    assert s.l2[x % 4096].state == EmptyL2().state;
    FirstWay(s.l2[x % 4096], s1.l2[x % 4096], x / 4096);
    forall m: nat | m % 4096 == x % 4096 && m > x ensures Proj(s1, m).l2.NotInL2? {
      if m / 64 == x / 64 { OneLinePerSet(m, x); }
      assert Proj(s.(stamp := 0), m) == Proj(s, m);
    }
  }

  lemma InitParts(mem: seq<byte>, x: nat)
    ensures var s := Init(2, mem);
            && |s.cores| == 2 && s.mem == mem && s.l2[x % 4096] == EmptyL2() && NoStream(s.cores[0].pf, x % 4096)
            && Proj(s, x).mem == MemLine(mem, x) && |Proj(s, x).d| == |Proj(s, x).i| == 2
            && Proj(s, x).d[1].Absent? && Proj(s, x).d[0].Absent? && L1WayOf(s, 0, false, x) == NUM_L1_WAYS
  {
    var s := Init(2, mem);
    L1WayProj(s, 0, false, x);
    L1WayProj(s, 1, false, x);
  }

  lemma StoreRefills(s: State, n: nat, b: byte)
    requires Good(s) && |s.cores| == 2 && NoStream(s.cores[0].pf, n % 4096) && InMemory(s.mem, n)
    requires Proj(s, n).l2.NotInL2?
    ensures StoreOf(n, b).Fits(2)
    ensures var r := Step(s, StoreOf(n, b));
            && r.Done?
            && Refilled(s.l2[n % 4096], r.value.0.l2[n % 4096], Freed(s.l2[n % 4096]), n / 4096)
            && NoStream(r.value.0.cores[0].pf, n % 4096)
  {
    hide Inv, Proj, Windowed, MakeRoom, InstallBoth, StreamOnMiss, NoStream, Refilled, Freed, C.CallKeeps, FillD,
         L1WayOf, L2WayOf, Patch;
    assert 64 * n / 64 == n && 64 * n % 64 == 0;
    var s0 := s.(stamp := 0);
    Restamped(s, 0);
    NotCached(s0, n);
    L2WayProj(s0, n);
    var line := Patch(MemLine(s.mem, n), 0, [b]);
    C.MissCall(s0, 0, n, line, Modified);
    MissSet(s0, 0, n, line, Modified);
  }

  lemma FirstWay(l2: L2Set, l2': L2Set, tag: nat)
    requires l2.state == EmptyL2().state && Refilled(l2, l2', Freed(l2), tag)
    ensures Find(l2'.tag, l2'.state, tag) == 0
    ensures forall v: nat :: v < NUM_L2_WAYS ==> (Valid(l2'.state, v) <==> v == 0)
  {
    hide Plru.Update;
    assert Freed(l2) == 0;
    assert Valid(l2'.state, 0);
    assert Match(l2'.tag, l2'.state, tag, 0);
  }

  // ---------------------------------------------------------------------------
  // The other core's load
  // ---------------------------------------------------------------------------

  ghost predicate AllWaysKept(s: State, s': State) {
    && |s'.cores| == |s.cores|
    && SameL2Ways(s, s')
    && forall b: nat :: b < |s.cores| ==> s'.cores[b].pf == s.cores[b].pf
  }

  lemma AllWaysKeptTwice(s: State, s1: State, s2: State)
    requires AllWaysKept(s, s1) && AllWaysKept(s1, s2)
    ensures AllWaysKept(s, s2)
  {
  }

  lemma ReadL2WaySets(s: State, c: nat, n: nat, w2: nat)
    requires w2 < NUM_L2_WAYS && c < |s.cores| && Valid(s.l2[n % 4096].state, w2)
    ensures AllWaysKept(s, ReadL2Way(s, c, false, n, w2).0)
  {
    hide DowngradePeers, Plru.Update;
    var line := s.l2[n % 4096].data[w2];
    var l2 := L2Read(s.l2[n % 4096], c, w2, false);
    var s1 := PutL2(s, n % 4096, l2);
    assert AllWaysKept(s, s1);
    var s2 := SetL2State(s1, n % 4096, w2, Shared);
    assert AllWaysKept(s1, s2);
    DowngradePeersSets(s2, l2.dm[w2] - {c}, n, w2, line);
  }

  /** A load that hits L2 moves no line between ways and trains no stream. */
  lemma HitKeepsWays(s: State, c: nat, n: nat)
    requires Inv(s) && c < |s.cores| && L1WayOf(s, c, false, n) == NUM_L1_WAYS && L2WayOf(s, n) < NUM_L2_WAYS
    ensures (64 * n) % 64 + 1 <= LINE_SIZE
    ensures var r := Read(s, c, 64 * n, 1); r.Done? ==> AllWaysKept(s, r.value.0)
  {
    hide Inv, EvictL1, Plru.Update, SetsKept, ReadL2Way, AllWaysKept, L1Fill, Proj, Stretch, L1WayOf, L2WayOf;
    assert 64 * n / 64 == n && 64 * n % 64 == 0;
    var w2 := L2WayOf(s, n);
    var state := s.l2[n % 4096].state[w2];
    var s0 := Emit(s, L2Hit, c, 2, n % 4096, w2, 64 * n, state, state, None);
    SameStretch(s, s0, n);
    StretchKeeps(s, s0, n);
    EvictL1Moves(s0, c, false, n % 64);
    EvictL1Sets(s0, c, false, n % 64);
    if Read(s, c, 64 * n, 1).Done? {
      var (s1, w1) := EvictL1(s0, c, false, n % 64).value;
      EvictKeepsWays(s, s0, s1);
      L2WayProj(s, n);
      assert Valid(s1.l2[n % 4096].state, w2) by { SameValid(s0, s1, n % 4096, w2); }
      ReadL2WaySets(s1, c, n, w2);
      AllWaysKeptTwice(s, s1, ReadL2Way(s1, c, false, n, w2).0);
      var s' := Read(s, c, 64 * n, 1).value.0;
      SameTail(ReadL2Way(s1, c, false, n, w2).0, s');
      AllWaysKeptTwice(s, ReadL2Way(s1, c, false, n, w2).0, s');
    }
  }

  lemma EvictKeepsWays(s: State, s0: State, s1: State)
    requires s0.l2 == s.l2 && s0.cores == s.cores && SetsKept(s0, s1) && SameRest(s0, s1)
    ensures AllWaysKept(s, s1)
  {
  }

  lemma SameValid(s: State, s': State, k: nat, w: nat)
    requires k < L2_SETS && w < NUM_L2_WAYS && SetsKept(s, s') && Valid(s.l2[k].state, w)
    ensures Valid(s'.l2[k].state, w)
  {
    assert WaysKept(s.l2[k], s'.l2[k]);
  }

  lemma SameTail(s: State, s': State)
    requires s'.l2 == s.l2 && |s'.cores| == |s.cores|
    requires forall b: nat :: b < |s.cores| ==> s'.cores[b].pf == s.cores[b].pf
    ensures AllWaysKept(s, s')
  {
  }

  lemma OtherLoadLine(s: State, x: nat)
    requires Good(s) && |s.cores| == 2 && InMemory(s.mem, x)
    requires |Proj(s, x).d| == |Proj(s, x).i| == 2 && Proj(s, x).d[1].Absent? && Proj(s, x).l2.InL2?
    ensures OtherLoadOf(x).Fits(2)
    ensures var r := Step(s, OtherLoadOf(x));
            && r.Done?
            && var s' := r.value.0;
               && Good(s') && |s'.mem| == |s.mem| && |s'.cores| == 2 && Proj(s', x) == ReadShared(Proj(s, x), 1)
               && forall m: nat :: m / 64 != x / 64 && Proj(s', m).l2.InL2? ==> Proj(s, m).l2.InL2?
  {
    hide Placed, Windowed, Coherent, Proj, Step, View, Stale, ReadShared;
    var op := OtherLoadOf(x);
    assert op.pa / 64 == x && op.pa % 64 == 0;
    Restamped(s, 0);
    StepIsAction(s, op);
    StepKeepsDemandedLine(s, op);
    L1WayProj(s, 1, false, x);
  }

  /** Then core 1's load leaves line x SHARED in way 0, with memory as it was. */
  lemma AfterOtherLoad(s: State, x: nat, memory: Line)
    requires Good(s) && Beyond(s, x, 0) && L2WayOf(s, x) == 0 && InMemory(s.mem, x)
    requires forall v: nat :: v < NUM_L2_WAYS ==> (Valid(s.l2[x % 4096].state, v) <==> v == 0)
    requires |Proj(s, x).d| == |Proj(s, x).i| == 2 && Proj(s, x).d[1].Absent? && Proj(s, x).mem == memory
    requires Proj(s, x).l2.InL2? && Proj(s, x).l2.dm == {0}
    ensures OtherLoadOf(x).Fits(2)
    ensures var r := Step(s, OtherLoadOf(x));
            && r.Done?
            && var s' := r.value.0;
               && Pressed(s', x, 0) && |s'.mem| == |s.mem| && Proj(s', x).mem == memory
               && forall v: nat :: v < NUM_L2_WAYS ==> (Valid(s'.l2[x % 4096].state, v) <==> v <= 0)
  {
    hide Inv, Windowed, Proj, Step, NoStream, ReadShared;
    var s0 := s.(stamp := 0);
    Restamped(s, 0);
    OtherLoadLine(s, x);
    L1WayProj(s0, 1, false, x);
    L2WayProj(s0, x);
    OtherIsRead(s, x);
    HitKeepsWays(s0, 1, x);
    var s' := Step(s, OtherLoadOf(x)).value.0;
    SharedAfter(Proj(s, x));
    WaysFind(s, s', x);
    forall m: nat | m % 4096 == x % 4096 && m > x ensures Proj(s', m).l2.NotInL2? {
      if m / 64 == x / 64 { OneLinePerSet(m, x); }
    }
  }

  lemma OtherIsRead(s: State, n: nat)
    requires |s.cores| == 2
    ensures OtherLoadOf(n).Fits(2) && Step(s, OtherLoadOf(n)) == Read(s.(stamp := 0), 1, 64 * n, 1)
  {
  }

  lemma SharedAfter(x: LineState)
    requires x.l2.InL2? && |x.d| == 2 && x.l2.dm == {0}
    ensures ReadShared(x, 1).l2.InL2? && ReadShared(x, 1).l2.state == Shared && ReadShared(x, 1).mem == x.mem
  {
    assert 0 in x.l2.dm - {1};
    assert OthersShare(x, 1);
  }

  lemma WaysFind(s: State, s': State, x: nat)
    requires WaysKept(s.l2[x % 4096], s'.l2[x % 4096]) && L2WayOf(s, x) == 0
    ensures L2WayOf(s', x) == 0
  {
    var l2, l2' := s.l2[x % 4096], s'.l2[x % 4096];
    assert Valid(l2.state, 0);
    assert Match(l2'.tag, l2'.state, x / 4096, 0);
  }

  // ---------------------------------------------------------------------------
  // The witness
  // ---------------------------------------------------------------------------

  /** From power-on, for any store there is a run that begins with it, goes on with loads
      only, and ends with a load of the stored byte that returns what memory held before. */
  lemma StoreIsLost(mem: seq<byte>, x: nat, b: byte) returns (loads: seq<Op>)
    requires InMemory(mem, x + 4096 * 31)
    ensures OnlyLoads(loads) && EndsWith(Init(2, mem), [StoreOf(x, b)] + loads, x, mem[64 * x])
  {
    hide Good, Proj, Step, NoStream, L2WayOf, Run, EndsWith, Init, Beyond, Pressed;
    AfterStore(mem, x, b);
    var s1 := Step(Init(2, mem), StoreOf(x, b)).value.0;
    InitParts(mem, x);
    AfterOtherLoad(s1, x, MemLine(mem, x));
    var s2 := Step(s1, OtherLoadOf(x)).value.0;
    var rest := PressFree(s2, x, 0);
    assert MemLine(mem, x)[0] == mem[64 * x];
    Prepend(s1, OtherLoadOf(x), rest, x, mem[64 * x]);
    loads := [OtherLoadOf(x)] + rest;
    Prepend(Init(2, mem), StoreOf(x, b), loads, x, mem[64 * x]);
  }

  /** Flat memory answers loads with what was stored. */
  lemma {:induction false} FlatLoads(mem: seq<byte>, ops: seq<Op>)
    requires InBounds(ops, |mem|) && OnlyLoads(ops)
    ensures |FlatRun(mem, ops).1| == |ops|
    ensures forall i :: 0 <= i < |ops| ==> FlatRun(mem, ops).1 [i] == mem[ops[i].pa..ops[i].pa + ops[i].Width()]
    decreases |ops|
  {
    if ops == [] {
    } else {
      FlatLoads(mem, ops[1..]);
    }
  }

  /** Some run of two cores returns what flat memory would not, whatever memory holds. */
  lemma TwoCoresCanDisagree(mem: seq<byte>, x: nat)
    requires InMemory(mem, x + 4096 * 31)
    ensures exists ops :: Disagrees(mem, ops)
  {
    hide Disagrees;
    var ops := Misread(mem, x);
  }

  ghost predicate Disagrees(mem: seq<byte>, ops: seq<Op>) {
    && |Init(2, mem).cores| == 2 && AllFit(ops, 2) && Run(Init(2, mem), ops).Done? && InBounds(ops, |mem|)
    && Run(Init(2, mem), ops).value.1 != FlatRun(mem, ops).1
  }

  lemma Misread(mem: seq<byte>, x: nat) returns (ops: seq<Op>)
    requires InMemory(mem, x + 4096 * 31)
    ensures Disagrees(mem, ops)
  {
    hide Run, Init, FlatRun, Good, EndsWith, OnlyLoads, InBounds, NoStream, Proj, L1WayOf, NeverLoses, AllFit,
         Disagrees;
    var b: byte := if mem[64 * x] == 255 then 0 else mem[64 * x] + 1;
    var loads := StoreIsLost(mem, x, b);
    ops := [StoreOf(x, b)] + loads;
    InitGood(2, mem);
    InitParts(mem, x);
    EndsParts(Init(2, mem), ops, x, mem[64 * x]);
    RunStaysInBounds(Init(2, mem), ops);
    FlatAfterStore(mem, x, b, loads);
    DisagreeAt(mem, ops, |loads|, mem[64 * x], b);
  }

  lemma DisagreeAt(mem: seq<byte>, ops: seq<Op>, i: nat, a: byte, b: byte)
    requires |Init(2, mem).cores| == 2 && AllFit(ops, 2) && Run(Init(2, mem), ops).Done? && InBounds(ops, |mem|)
    requires i < |ops| == |FlatRun(mem, ops).1| && a != b
    requires Run(Init(2, mem), ops).value.1 [i] == [a] && FlatRun(mem, ops).1 [i] == [b]
    ensures Disagrees(mem, ops)
  {
    hide Run, Init, FlatRun, AllFit, InBounds;
    assert [a][0] != [b][0];
  }

  lemma RunStaysInBounds(s: State, ops: seq<Op>)
    requires Good(s) && AllFit(ops, |s.cores|) && Run(s, ops).Done?
    ensures InBounds(ops, |s.mem|)
  {
    hide Run, FlatRun, Bytes, Good;
    RunRefinesFlat(s, ops);
  }

  lemma EndsParts(s: State, ops: seq<Op>, x: nat, last: byte)
    requires EndsWith(s, ops, x, last)
    ensures AllFit(ops, |s.cores|) && ops != [] && ops[|ops| - 1] == LoadOf(x)
    ensures Run(s, ops).Done? && Run(s, ops).value.1 [|ops| - 1] == [last]
  {
    hide Run;
  }

  lemma FlatAfterStore(mem: seq<byte>, x: nat, b: byte, loads: seq<Op>)
    requires InMemory(mem, x) && OnlyLoads(loads) && InBounds([StoreOf(x, b)] + loads, |mem|)
    requires ([StoreOf(x, b)] + loads)[|loads|] == LoadOf(x)
    ensures |FlatRun(mem, [StoreOf(x, b)] + loads).1| == |loads| + 1
    ensures FlatRun(mem, [StoreOf(x, b)] + loads).1 [|loads|] == [b]
  {
    var ops := [StoreOf(x, b)] + loads;
    assert ops[1..] == loads;
    assert ops[0].kind.Store? && ops[|loads|].kind.Load?;
    var mem1 := Stored(mem, 64 * x, [b]);
    FlatLoads(mem1, loads);
    assert loads[|loads| - 1] == LoadOf(x);
    assert mem1[64 * x..64 * x + 1] == [b];
  }
}
