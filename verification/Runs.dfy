/** Whole runs: any sequence of calls by any cores. */
module Runs {
  import opened Types
  import opened Coherence
  import opened Caches
  import opened Projection
  import opened Snoops
  import opened Flat
  import opened Prefetch
  import opened Machine
  import opened Outcomes
  import C = Calls

  predicate AllFit(ops: seq<Op>, n: nat) { forall i :: 0 <= i < |ops| ==> ops[i].Fits(n) }

  /** The calls in order, with what each returned. */
  function Run(s: State, ops: seq<Op>): (r: Outcome<(State, seq<seq<byte>>)>)
    requires AllFit(ops, |s.cores|)
    ensures r.Done? ==> |r.value.0.cores| == |s.cores| && |r.value.1| == |ops|
    decreases |ops|
  {
    if ops == [] then Done((s, [])) else
    var (s1, out) :- Step(s, ops[0]);
    var (s2, outs) :- Run(s1, ops[1..]);
    Done((s2, [out] + outs))
  }

  /** Every call of the run stays inside memory. */
  predicate InBounds(ops: seq<Op>, size: nat) { forall i :: 0 <= i < |ops| ==> ops[i].pa + ops[i].Width() <= size }

  function FlatRun(mem: seq<byte>, ops: seq<Op>): (r: (seq<byte>, seq<seq<byte>>))
    requires InBounds(ops, |mem|)
    ensures |r.0| == |mem|
    decreases |ops|
  {
    if ops == [] then (mem, []) else
    var (mem1, out) := FlatStep(mem, ops[0]);
    var (mem2, outs) := FlatRun(mem1, ops[1..]);
    (mem2, [out] + outs)
  }

  /** No call of the run brings a line into a set that drops its victim. */
  ghost predicate NeverLoses(s: State, ops: seq<Op>)
    requires AllFit(ops, |s.cores|)
    decreases |ops|
  {
    ops == [] ||
    (!Loses(s, ops[0]) && (Step(s, ops[0]).Done? ==> NeverLoses(Step(s, ops[0]).value.0, ops[1..])))
  }

  /** The invariant holds in every reachable state; a run that completed stayed in
      memory; and a run whose calls lose nothing is a run of flat memory. */
  lemma {:induction false} RunRefinesFlat(s: State, ops: seq<Op>)
    requires Good(s) && AllFit(ops, |s.cores|) && Run(s, ops).Done?
    ensures InBounds(ops, |s.mem|)
    ensures var (s', outs) := Run(s, ops).value;
            && Good(s') && |s'.mem| == |s.mem| && |s'.cores| == |s.cores|
            && (s'.lossless <==> s.lossless && NeverLoses(s, ops))
            && (s.lossless && NeverLoses(s, ops) ==> (Bytes(s'), outs) == FlatRun(Bytes(s), ops))
    decreases |ops|
  {
    hide Good, Bytes, Step, FlatStep, Loses;
    if ops == [] {
    } else {
      StepRefinesFlat(s, ops[0]);
      RunRefinesFlat(Step(s, ops[0]).value.0, ops[1..]);
      forall i | 0 <= i < |ops| ensures ops[i].pa + ops[i].Width() <= |s.mem| {
        if i > 0 { assert ops[i] == ops[1..][i - 1]; }
      }
    }
  }

  /** Each call of the run left the caches standing for what flat memory would hold. */
  ghost predicate FlatThroughout(s: State, ops: seq<Op>)
    requires AllFit(ops, |s.cores|) && Run(s, ops).Done? && InBounds(ops, |s.mem|)
    requires Good(s)
    decreases |ops|
  {
    ops == [] ||
    (StepRefinesFlat(s, ops[0]);
     Bytes(Step(s, ops[0]).value.0) == FlatStep(Bytes(s), ops[0]).0
     && FlatThroughout(Step(s, ops[0]).value.0, ops[1..]))
  }

  /** A run is flat at every call exactly when none of its calls loses bytes. */
  lemma {:induction false} FlatIffNeverLoses(s: State, ops: seq<Op>)
    requires Good(s) && s.lossless && AllFit(ops, |s.cores|) && Run(s, ops).Done? && InBounds(ops, |s.mem|)
    ensures FlatThroughout(s, ops) <==> NeverLoses(s, ops)
    decreases |ops|
  {
    hide Good, Bytes, Step, FlatStep, Loses;
    if ops == [] {
    } else {
      StepRefinesFlat(s, ops[0]);
      var s1 := Step(s, ops[0]).value.0;
      if s1.lossless { FlatIffNeverLoses(s1, ops[1..]); }
    }
  }

  // ---------------------------------------------------------------------------
  // Runs without a dirty downgrade
  // ---------------------------------------------------------------------------

  ghost predicate NeverDowngradesDirty(s: State, ops: seq<Op>)
    requires AllFit(ops, |s.cores|)
    decreases |ops|
  {
    ops == [] ||
    (!DirtyDowngrade(s, ops[0]) && (Step(s, ops[0]).Done? ==> NeverDowngradesDirty(Step(s, ops[0]).value.0, ops[1..])))
  }

  /** Any interleaving of calls on any cores refines flat memory, through any number of
      evictions and prefetches, if no load downgrades bytes that memory lacks. */
  lemma {:induction false} CleanRunIsFlat(s: State, ops: seq<Op>)
    requires Good(s) && AllClean(s) && s.lossless && AllFit(ops, |s.cores|) && Run(s, ops).Done?
    requires NeverDowngradesDirty(s, ops)
    ensures InBounds(ops, |s.mem|)
    ensures var (s', outs) := Run(s, ops).value;
            Good(s') && AllClean(s') && s'.lossless && (Bytes(s'), outs) == FlatRun(Bytes(s), ops)
    decreases |ops|
  {
    hide Good, AllClean, Bytes, Step, FlatStep, DirtyDowngrade;
    RunRefinesFlat(s, ops);
    if ops == [] {
    } else {
      StepRefinesFlat(s, ops[0]);
      CleanStep(s, ops[0]);
      CleanRunIsFlat(Step(s, ops[0]).value.0, ops[1..]);
    }
  }

  // ---------------------------------------------------------------------------
  // Runs of one core
  // ---------------------------------------------------------------------------

  /** Only core c has copies. */
  ghost predicate OnlyCore(s: State, c: nat) {
    forall m: nat, b: nat :: Shares(Proj(s, m).l2, b) ==> b == c
  }

  lemma OnlyCoreStep(s: State, op: Op)
    requires Good(s) && OnlyCore(s, op.core) && op.Fits(|s.cores|) && Step(s, op).Done?
    ensures OnlyCore(Step(s, op).value.0, op.core) && !DirtyDowngrade(s, op)
  {
    hide Placed, Windowed, Coherent, Proj, Step, LineAfter, View, Stale;
    var n := op.pa / 64;
    var s0, s' := s.(stamp := op.stamp), Step(s, op).value.0;
    StepIsAction(s, op);
    StepKeepsDemandedLine(s, op);
    Restamped(s, op.stamp);
    L1WayProj(s, op.core, op.kind.Fetching?, n);
    ActionShares(Proj(s, n), op, HeldBy(s, op));
    forall m: nat, b: nat | Shares(Proj(s', m).l2, b) ensures b == op.core {
      if m != n {
        assert Calm(Proj(s0, m), Proj(s', m));
        assert Shares(Proj(s, m).l2, b);
      }
    }
  }

  lemma OnlyCoreAlone(s: State, op: Op)
    requires Good(s) && OnlyCore(s, op.core) && op.Fits(|s.cores|)
    ensures !DirtyDowngrade(s, op)
  {
    hide Inv, Windowed, Proj, View, LineAfter;
    var n := op.pa / 64;
    L2WayProj(s, n);
    ActionShares(Proj(s, n), op, HeldBy(s, op));
  }

  lemma ActionShares(x: LineState, op: Op, held: bool)
    requires op.core < |x.d| && op.core < |x.i| && op.pa % 64 + op.Width() <= LINE_SIZE
    requires forall b: nat :: Shares(x.l2, b) ==> b == op.core
    ensures forall b: nat :: Shares(LineAfter(x, op, held).l2, b) ==> b == op.core
    ensures x.l2.InL2? ==> !OthersShare(x, op.core)
  {
    hide View, Patch;
    if x.l2.InL2? {
      forall b | b in x.l2.dm || b in x.l2.im ensures b == op.core { assert Shares(x.l2, b); }
      forall b: nat | Shares(LineAfter(x, op, held).l2, b) ensures b == op.core {
        assert b == op.core || Shares(x.l2, b);
      }
    }
  }

  lemma {:induction false} OneCoreNeverDowngrades(s: State, ops: seq<Op>, c: nat)
    requires Good(s) && OnlyCore(s, c) && AllFit(ops, |s.cores|)
    requires forall i :: 0 <= i < |ops| ==> ops[i].core == c
    requires Run(s, ops).Done?
    ensures NeverDowngradesDirty(s, ops)
    decreases |ops|
  {
    hide Good, OnlyCore, Step, DirtyDowngrade;
    if ops == [] {
    } else {
      OnlyCoreStep(s, ops[0]);
      StepRefinesFlat(s, ops[0]);
      OneCoreNeverDowngrades(Step(s, ops[0]).value.0, ops[1..], c);
    }
  }

  /** Calls of a single core, whatever they are, are calls on flat memory. */
  lemma OneCoreIsFlat(n: nat, mem: seq<byte>, ops: seq<Op>, c: nat)
    requires AllFit(ops, n) && (forall i :: 0 <= i < |ops| ==> ops[i].core == c) && Run(Init(n, mem), ops).Done?
    ensures InBounds(ops, |mem|)
    ensures var (s', outs) := Run(Init(n, mem), ops).value;
            s'.lossless && (Bytes(s'), outs) == FlatRun(mem, ops)
  {
    hide Run, Step, FlatStep;
    var s := Init(n, mem);
    InitGood(n, mem);
    InitClean(n, mem);
    OneCoreNeverDowngrades(s, ops, c);
    CleanRunIsFlat(s, ops);
  }

  lemma InitClean(n: nat, mem: seq<byte>)
    ensures var s := Init(n, mem); AllClean(s) && Bytes(s) == mem && forall c: nat :: OnlyCore(s, c)
  {
    var s := Init(n, mem);
    hide Init, Proj, Placed, Coherent;
    InitGood(n, mem);
    InitMemory(n, mem);
    forall m: nat ensures ViewOf(s, m) == MemLine(mem, m) {
      UncachedView(s, m);
      L2WayProj(s, m);
    }
    forall a | 0 <= a < |mem| ensures Bytes(s)[a] == mem[a] {
      if InMemory(mem, a / 64) { assert MemLine(mem, a / 64)[a % 64] == mem[a]; }
    }
  }

  lemma InitMemory(n: nat, mem: seq<byte>)
    ensures Init(n, mem).mem == mem && Init(n, mem).lossless
  {
  }

  // ---------------------------------------------------------------------------
  // Every reachable state, way by way
  // ---------------------------------------------------------------------------

  /** Some run of n cores from power-on ends in this state. */
  ghost predicate Reachable(s: State, n: nat) {
    exists mem: seq<byte>, ops: seq<Op> :: AllFit(ops, n) && Run(Init(n, mem), ops).Done?
        && s == Run(Init(n, mem), ops).value.0
  }

  lemma ReachableGood(s: State, n: nat)
    requires Reachable(s, n)
    ensures Good(s) && |s.cores| == n
  {
    hide Run, Good;
    var mem: seq<byte>, ops: seq<Op> :| AllFit(ops, n) && Run(Init(n, mem), ops).Done?
        && s == Run(Init(n, mem), ops).value.0;
    InitGood(n, mem);
    InitMemory(n, mem);
    RunRefinesFlat(Init(n, mem), ops);
  }

  /** Inclusion with an exact directory: a line in some L1 is in L2, whose two masks name
      exactly the cores that hold it; no line is in two ways; a free way has empty masks. */
  lemma ReachableDirectory(s: State, n: nat, c: nat, m: nat)
    requires Reachable(s, n) && c < n
    ensures |s.cores| == n
    ensures var inD, inI := L1WayOf(s, c, false, m) < NUM_L1_WAYS, L1WayOf(s, c, true, m) < NUM_L1_WAYS;
            var w, l2 := L2WayOf(s, m), s.l2[m % 4096];
            && (inD || inI ==> w < NUM_L2_WAYS)
            && (w < NUM_L2_WAYS ==> (c in l2.dm[w] <==> inD) && (c in l2.im[w] <==> inI))
            && (forall v: nat :: v < NUM_L2_WAYS && l2.state[v] != Invalid && l2.tag[v] == m / 4096 ==> v == w)
            && (forall v: nat :: v < NUM_L2_WAYS && l2.state[v] == Invalid ==> l2.dm[v] == {} && l2.im[v] == {})
  {
    hide Proj;
    ReachableGood(s, n);
    L1WayProj(s, c, false, m);
    L1WayProj(s, c, true, m);
    L2WayProj(s, m);
    assert Coherent(Proj(s, m));
    var l2 := s.l2[m % 4096];
    assert L2Ok(l2, m % 4096, |s.mem|);
    forall v: nat | v < NUM_L2_WAYS && l2.state[v] != Invalid && l2.tag[v] == m / 4096 ensures v == L2WayOf(s, m) {
      FindIs(l2.tag, l2.state, v);
    }
    forall v: nat | v < NUM_L2_WAYS && l2.state[v] == Invalid ensures l2.dm[v] == {} && l2.im[v] == {} {
      assert !Valid(l2.state, v);
    }
  }

  /** No line is in two ways of one L1. */
  lemma ReachableL1(s: State, n: nat, c: nat, instr: bool, m: nat, v: nat)
    requires Reachable(s, n) && c < n && v < NUM_L1_WAYS
    ensures |s.cores| == n
    ensures var l1 := GetL1(s, c, instr, m % 64);
            l1.state[v] != Invalid && l1.tag[v] == m / 64 ==> v == L1WayOf(s, c, instr, m)
  {
    hide Proj, L2Ok;
    ReachableGood(s, n);
    var l1 := GetL1(s, c, instr, m % 64);
    assert L1Ok(l1);
    if l1.state[v] != Invalid && l1.tag[v] == m / 64 { FindIs(l1.tag, l1.state, v); }
  }

  /** An L2 way that is MODIFIED or EXCLUSIVE has at most one sharer in its two masks. */
  lemma ReachableSharers(s: State, n: nat, k: nat, w: nat, a: nat, b: nat)
    requires Reachable(s, n) && k < L2_SETS && w < NUM_L2_WAYS
    ensures var l2 := s.l2[k];
            (l2.state[w] == Modified || l2.state[w] == Exclusive) ==>
              (a in l2.dm[w] + l2.im[w] && b in l2.dm[w] + l2.im[w] ==> a == b)
  {
    hide Proj, L1Ok;
    ReachableGood(s, n);
    var l2 := s.l2[k];
    if l2.state[w] != Invalid {
      var m := l2.tag[w] * 4096 + k;
      FullSetWay(s, k, w);
      L2WayProj(s, m);
      var x := Proj(s, m);
      assert Coherent(x);
      assert a in l2.dm[w] + l2.im[w] ==> Shares(x.l2, a);
      assert b in l2.dm[w] + l2.im[w] ==> Shares(x.l2, b);
    }
  }

  lemma InitBusy(n: nat, mem: seq<byte>)
    ensures AllBusy(Init(n, mem))
  {
    hide Proj;
    InitGood(n, mem);
  }

  lemma {:induction false} RunStaysBusy(s: State, ops: seq<Op>)
    requires Good(s) && AllBusy(s) && AllFit(ops, |s.cores|) && Run(s, ops).Done?
    ensures AllBusy(Run(s, ops).value.0)
    decreases |ops|
  {
    hide Good, AllBusy, Bytes, Step, FlatStep, Loses;
    if ops == [] {
    } else {
      StepStaysBusy(s, ops[0]);
      StepRefinesFlat(s, ops[0]);
      RunStaysBusy(Step(s, ops[0]).value.0, ops[1..]);
    }
  }

  /** A SHARED L2 way has a sharer. */
  lemma ReachableShared(s: State, n: nat, k: nat, w: nat)
    requires Reachable(s, n) && k < L2_SETS && w < NUM_L2_WAYS && s.l2[k].state[w] == Shared
    ensures s.l2[k].dm[w] + s.l2[k].im[w] != {}
  {
    hide Proj, L1Ok, Run;
    ReachableGood(s, n);
    var mem: seq<byte>, ops: seq<Op> :| AllFit(ops, n) && Run(Init(n, mem), ops).Done?
        && s == Run(Init(n, mem), ops).value.0;
    InitGood(n, mem);
    InitMemory(n, mem);
    InitBusy(n, mem);
    RunStaysBusy(Init(n, mem), ops);
    var m := s.l2[k].tag[w] * 4096 + k;
    FullSetWay(s, k, w);
    L2WayProj(s, m);
    assert !Idle(Proj(s, m));
  }

  /** Single writer: where core c's L1D has line m MODIFIED or EXCLUSIVE, no other core has
      it in L1D or L1I; MODIFIED moreover means that c has no L1I copy, that the directory
      says so, and that L2 is MODIFIED. */
  lemma ReachableSingleWriter(s: State, n: nat, c: nat, b: nat, m: nat)
    requires Reachable(s, n) && c < n && b < n
    ensures |s.cores| == n
    ensures L1WayOf(s, c, false, m) < NUM_L1_WAYS ==>
              var state := s.cores[c].l1d[m % 64].state[L1WayOf(s, c, false, m)];
              var w, l2 := L2WayOf(s, m), s.l2[m % 4096];
              && (state == Modified || state == Exclusive ==>
                    b == c || (L1WayOf(s, b, false, m) == NUM_L1_WAYS && L1WayOf(s, b, true, m) == NUM_L1_WAYS))
              && (state == Modified ==>
                    && w < NUM_L2_WAYS && l2.state[w] == Modified && l2.dm[w] == {c} && l2.im[w] == {}
                    && L1WayOf(s, c, true, m) == NUM_L1_WAYS)
  {
    hide Proj, Placed;
    ReachableGood(s, n);
    L1WayProj(s, c, false, m);
    L1WayProj(s, c, true, m);
    L1WayProj(s, b, false, m);
    L1WayProj(s, b, true, m);
    L2WayProj(s, m);
    assert Coherent(Proj(s, m));
    assert L1WayOf(s, c, false, m) < NUM_L1_WAYS ==> Holds(Proj(s, m).d, c);
  }

  /** Clean copies agree with L2 byte for byte; an L1I copy rules out a MODIFIED L2 way, and
      holds the bytes of the latest store. */
  lemma ReachableCopies(s: State, n: nat, c: nat, m: nat)
    requires Reachable(s, n) && c < n
    ensures |s.cores| == n
    ensures var d, i, w := L1WayOf(s, c, false, m), L1WayOf(s, c, true, m), L2WayOf(s, m);
            var l2 := s.l2[m % 4096];
            && (d < NUM_L1_WAYS ==> w < NUM_L2_WAYS && s.cores[c].l1d[m % 64].data[d] == ViewOf(s, m))
            && (d < NUM_L1_WAYS && s.cores[c].l1d[m % 64].state[d] != Modified ==>
                  s.cores[c].l1d[m % 64].data[d] == l2.data[w])
            && (i < NUM_L1_WAYS ==>
                  w < NUM_L2_WAYS && l2.state[w] != Modified
                      && s.cores[c].l1i[m % 64].data[i] == l2.data[w] == ViewOf(s, m))
  {
    hide Proj, Placed;
    ReachableGood(s, n);
    L1WayProj(s, c, false, m);
    L1WayProj(s, c, true, m);
    L2WayProj(s, m);
    assert Coherent(Proj(s, m));
    CopyIsView(Proj(s, m), c);
  }
}
