/** Which lines stay in an L1, and which leave it, over runs of calls. */
module Retention {
  import opened Types
  import opened Coherence
  import opened Caches
  import opened Projection
  import opened Snoops
  import opened Machine
  import opened Replacement
  import opened Recency
  import opened Runs
  import S = SecondLevel
  import Plru

  // ---------------------------------------------------------------------------
  // Ways and lines
  // ---------------------------------------------------------------------------

  /** A line is in an L1 exactly when its set has the tag. */
  lemma HeldIsHas(s: State, c: nat, instr: bool, x: nat)
    requires c < |s.cores|
    ensures Has(SlotsIn(s, c, instr, x % 64), x / 64) <==> L1WayOf(s, c, instr, x) < NUM_L1_WAYS
  {
    var l1 := GetL1(s, c, instr, x % 64);
    var w := L1WayOf(s, c, instr, x);
    if w < NUM_L1_WAYS { assert HasAt(Slots1(l1), x / 64, w); }
    if Has(Slots1(l1), x / 64) {
      var v: nat :| HasAt(Slots1(l1), x / 64, v);
      assert Match(l1.tag, l1.state, x / 64, v);
    }
  }

  /** Inclusion: a used way holds a line that is in L2. */
  lemma UsedIsInL2(s: State, c: nat, instr: bool, i: nat, w: nat)
    requires Inv(s) && c < |s.cores| && i < L1_SETS && w < NUM_L1_WAYS && SlotsIn(s, c, instr, i).valid[w]
    ensures Proj(s, LineAt(SlotsIn(s, c, instr, i), i, w)).l2.InL2?
  {
    hide Proj, Coherent, L2Ok;
    var m := LineAt(SlotsIn(s, c, instr, i), i, w);
    assert Valid(GetL1(s, c, instr, i).state, w);
    FullL1Way(s, c, instr, i, w);
    L1WayProj(s, c, instr, m);
    assert Coherent(Proj(s, m));
    HolderInL2(Proj(s, m), c);
  }

  lemma L1Distinct(s: State, c: nat, instr: bool, i: nat)
    requires Inv(s) && c < |s.cores| && i < L1_SETS
    ensures Distinct(SlotsIn(s, c, instr, i))
  {
    hide Proj, Coherent, L2Ok;
    var l1 := GetL1(s, c, instr, i);
    assert L1Ok(l1);
    forall u, v: nat, w: nat | HasAt(Slots1(l1), u, v) && HasAt(Slots1(l1), u, w) ensures v == w {
      assert Valid(l1.state, v) && Valid(l1.state, w);
    }
  }

  // ---------------------------------------------------------------------------
  // Recently used lines stay
  // ---------------------------------------------------------------------------

  /** Line x is in core c's L1, and at most j accesses of c to other lines of its set are behind it. */
  ghost predicate Fresh(s: State, c: nat, instr: bool, x: nat, j: nat) {
    c < |s.cores| && exists w: nat :: FreshAt(SlotsIn(s, c, instr, x % 64), x / 64, w, j)
  }

  predicate FreshAt(a: Slots, tag: nat, w: nat, j: nat) { HasAt(a, tag, w) && Shielded(a, w, j) }

  /** A call of core c on another line of x's set of the same L1. */
  predicate Competes(op: Op, c: nat, instr: bool, x: nat) {
    op.core == c && op.kind.Fetching? == instr && op.pa / 64 % 64 == x % 64 && op.pa / 64 != x
  }

  /** A store to line x by another core, or by any core if the copy is in an L1I. */
  predicate TakesAway(op: Op, c: nat, instr: bool, x: nat) {
    op.kind.Store? && op.pa / 64 == x && !(op.core == c && !instr)
  }

  /** The service of a line in its own set. */
  lemma OwnSetKeeps(s: State, s': State, n: nat, c: nat, instr: bool, a: Slots, b: Slots, w: nat, x: nat, j: nat)
    requires OwnServed(s, s', c, instr, n, a, b, w) && n % 64 == x % 64
    requires Fresh(s, c, instr, x, j) && Proj(s', x).l2.InL2? && (n != x ==> j < 3)
    ensures Fresh(s', c, instr, x, if n != x then j + 1 else j)
  {
    hide Proj, SlotsIn, Served, HasAt, Shielded, Emptied, Thinned;
    var i := n % 64;
    var v: nat :| FreshAt(SlotsIn(s, c, instr, i), x / 64, v, j);
    FreshThins(s', n, false, i, SlotsIn(s, c, instr, i), a, x, v, j);
    var u, k := v, j + 1;
    if n == x {
      ServedIsShielded(a, b, x / 64, w, 3);
      u, k := w, j;
      assert Shielded(b, w, j) by { ShieldedLonger(b, w, 0, j); }
    } else {
      assert n / 64 != x / 64;
      ServedShields(a, b, n / 64, w, x / 64, v, j, 3);
    }
    FreshThins(s', n, false, i, b, SlotsIn(s', c, instr, i), x, u, k);
  }

  lemma ShieldedLonger(a: Slots, w: nat, j: nat, k: nat)
    requires Shielded(a, w, j) && j <= k
    ensures Shielded(a, w, k)
  {
  }

  /** A line that is still in L2 and not stored to elsewhere is not emptied. */
  lemma FreshThins(s': State, n: nat, stored: bool, i: nat, a: Slots, b: Slots, x: nat, w: nat, j: nat)
    requires Thinned(a, b) && Emptied(s', n, stored, i, a, b) && x % 64 == i && FreshAt(a, x / 64, w, j)
    requires Proj(s', x).l2.InL2? && !(stored && n == x)
    ensures FreshAt(b, x / 64, w, j)
  {
    hide Proj;
    assert x == x / 64 * 64 + x % 64;
    assert LineAt(a, i, w) == x;
  }

  lemma StepKeepsFresh(s: State, op: Op, c: nat, instr: bool, x: nat, j: nat)
    requires Good(s) && op.Fits(|s.cores|) && Step(s, op).Done? && Fresh(s, c, instr, x, j)
    requires Proj(Step(s, op).value.0, x).l2.InL2? && !TakesAway(op, c, instr, x)
    requires Competes(op, c, instr, x) ==> j < 3
    ensures Fresh(Step(s, op).value.0, c, instr, x, if Competes(op, c, instr, x) then j + 1 else j)
  {
    hide Inv, Proj, Step, OwnServed, Thinned, Emptied, SlotsIn, FreshAt;
    var n, s' := op.pa / 64, Step(s, op).value.0;
    var a, b, w := StepServes(s, op);
    if op.core == c && op.kind.Fetching? == instr && n % 64 == x % 64 {
      OwnSetKeeps(s, s', n, c, instr, a, b, w, x, j);
    } else {
      var i := x % 64;
      assert ThinsIn(s, s', c, instr, i) && EmptiedIn(s, s', n, op.kind.Store?, c, instr, i);
      var v: nat :| FreshAt(SlotsIn(s, c, instr, i), x / 64, v, j);
      FreshThins(s', n, op.kind.Store?, i, SlotsIn(s, c, instr, i), SlotsIn(s', c, instr, i), x, v, j);
    }
  }

  /** After a call, its own line is fresh. */
  lemma StepIsFresh(s: State, op: Op)
    requires Good(s) && op.Fits(|s.cores|) && Step(s, op).Done?
    ensures Fresh(Step(s, op).value.0, op.core, op.kind.Fetching?, op.pa / 64, 0)
  {
    hide Inv, Proj, Step, Thinned, Emptied, SlotsIn, Served, ShedsBut;
    var n, s', c, instr := op.pa / 64, Step(s, op).value.0, op.core, op.kind.Fetching?;
    var a, b, w := StepServes(s, op);
    ServedIsShielded(a, b, n / 64, w, 3);
    assert FreshAt(b, n / 64, w, 0);
    StepInL2(s, op);
    FreshThins(s', n, false, n % 64, b, SlotsIn(s', c, instr, n % 64), n, w, 0);
  }

  lemma StepInL2(s: State, op: Op)
    requires Good(s) && op.Fits(|s.cores|) && Step(s, op).Done?
    ensures Proj(Step(s, op).value.0, op.pa / 64).l2.InL2? && Good(Step(s, op).value.0)
  {
    hide Good, Proj, Step, LineAfter, HeldBy;
    StepKeepsDemandedLine(s, op);
  }

  /** How many calls of the run compete with line x for its set. */
  function Rivals(ops: seq<Op>, c: nat, instr: bool, x: nat): nat
    decreases |ops|
  {
    if ops == [] then 0 else (if Competes(ops[0], c, instr, x) then 1 else 0) + Rivals(ops[1..], c, instr, x)
  }

  /** No call of the run takes the copy away by a store, or by dropping the line from L2. */
  ghost predicate Undisturbed(s: State, ops: seq<Op>, c: nat, instr: bool, x: nat)
    requires AllFit(ops, |s.cores|)
    decreases |ops|
  {
    ops == [] ||
    (!TakesAway(ops[0], c, instr, x)
     && (Step(s, ops[0]).Done? ==>
           Proj(Step(s, ops[0]).value.0, x).l2.InL2?
           && Undisturbed(Step(s, ops[0]).value.0, ops[1..], c, instr, x)))
  }

  lemma {:induction false} FreshThroughout(s: State, ops: seq<Op>, c: nat, instr: bool, x: nat, j: nat)
    requires Good(s) && AllFit(ops, |s.cores|) && Run(s, ops).Done? && Fresh(s, c, instr, x, j)
    requires Undisturbed(s, ops, c, instr, x) && j + Rivals(ops, c, instr, x) <= 3
    ensures Good(Run(s, ops).value.0) && Fresh(Run(s, ops).value.0, c, instr, x, 3)
    decreases |ops|
  {
    hide Good, Proj, Step, Fresh;
    if ops == [] {
      FreshLonger(s, c, instr, x, j, 3);
    } else {
      StepInL2(s, ops[0]);
      StepKeepsFresh(s, ops[0], c, instr, x, j);
      FreshThroughout(Step(s, ops[0]).value.0, ops[1..], c, instr, x,
                      if Competes(ops[0], c, instr, x) then j + 1 else j);
    }
  }

  lemma FreshLonger(s: State, c: nat, instr: bool, x: nat, j: nat, k: nat)
    requires Fresh(s, c, instr, x, j) && j <= k
    ensures Fresh(s, c, instr, x, k)
  {
    hide SlotsIn;
    var w: nat :| FreshAt(SlotsIn(s, c, instr, x % 64), x / 64, w, j);
    assert FreshAt(SlotsIn(s, c, instr, x % 64), x / 64, w, k);
  }

  /** A line that core c's call found or filled is still in c's L1 after any run, by any cores,
      in which c makes at most three calls on other lines of its set, unless a store takes
      the copy away or L2 drops the line. */
  lemma RecentLineStays(s: State, op: Op, ops: seq<Op>)
    requires Good(s) && op.Fits(|s.cores|) && Step(s, op).Done?
    requires AllFit(ops, |s.cores|) && Run(Step(s, op).value.0, ops).Done?
    requires Undisturbed(Step(s, op).value.0, ops, op.core, op.kind.Fetching?, op.pa / 64)
    requires Rivals(ops, op.core, op.kind.Fetching?, op.pa / 64) <= 3
    ensures var s' := Run(Step(s, op).value.0, ops).value.0;
            && op.core < |s'.cores|
            && L1WayOf(s', op.core, op.kind.Fetching?, op.pa / 64) < NUM_L1_WAYS
  {
    hide Good, Proj, Step, SlotsIn, Run, Undisturbed, L1WayOf;
    var s1, c, instr, x := Step(s, op).value.0, op.core, op.kind.Fetching?, op.pa / 64;
    StepInL2(s, op);
    StepIsFresh(s, op);
    FreshThroughout(s1, ops, c, instr, x, 0);
    var s' := Run(s1, ops).value.0;
    var w: nat :| FreshAt(SlotsIn(s', c, instr, x % 64), x / 64, w, 3);
    HeldIsHas(s', c, instr, x);
  }

  predicate NoneTakesAway(ops: seq<Op>, c: nat, instr: bool, x: nat) {
    forall i :: 0 <= i < |ops| ==> !TakesAway(ops[i], c, instr, x)
  }

  /** While L2 keeps the line, only stores take the copy away. */
  lemma {:induction false} KeptInL2(s: State, ops: seq<Op>, c: nat, instr: bool, x: nat, j: nat)
    requires Good(s) && AllFit(ops, |s.cores|) && Run(s, ops).Done? && NoneTakesAway(ops, c, instr, x)
    requires S.Fresh(s, x, j) && j + S.Rivals(s, ops, x) <= 4
    ensures Undisturbed(s, ops, c, instr, x)
    decreases |ops|
  {
    hide Good, Proj, Step, S.Fresh, S.Competes;
    if ops == [] {
    } else {
      var s1, k := Step(s, ops[0]).value.0, if S.Competes(s, ops[0], x) then j + 1 else j;
      StepInL2(s, ops[0]);
      S.StepKeepsFresh(s, ops[0], x, j);
      FreshIsCached(s1, x, k);
      KeptInL2(s1, ops[1..], c, instr, x, k);
    }
  }

  lemma FreshIsCached(s: State, x: nat, j: nat)
    requires S.Fresh(s, x, j)
    ensures Proj(s, x).l2.InL2?
  {
    hide Proj;
    S.CachedIsHas(s, x);
  }

  /** Both levels together: a line for which core c's call had to ask L2 is still in c's L1 after
      any run, by any cores, with at most three calls of c on other lines of its L1 set, at most
      four calls that use other lines of its L2 set, and no store that takes the copy away. */
  lemma RecentLineStaysInBoth(s: State, op: Op, ops: seq<Op>)
    requires Good(s) && op.Fits(|s.cores|) && Step(s, op).Done? && S.AsksL2(s, op)
    requires AllFit(ops, |s.cores|) && Run(Step(s, op).value.0, ops).Done?
    requires NoneTakesAway(ops, op.core, op.kind.Fetching?, op.pa / 64)
    requires Rivals(ops, op.core, op.kind.Fetching?, op.pa / 64) <= 3
    requires S.Rivals(Step(s, op).value.0, ops, op.pa / 64) <= 4
    ensures var s' := Run(Step(s, op).value.0, ops).value.0;
            && op.core < |s'.cores|
            && L1WayOf(s', op.core, op.kind.Fetching?, op.pa / 64) < NUM_L1_WAYS
            && Proj(s', op.pa / 64).l2.InL2?
  {
    hide Good, Proj, Step, Run, L1WayOf, S.Fresh, S.Serves, Undisturbed, S.AsksL2;
    var s1, x := Step(s, op).value.0, op.pa / 64;
    StepInL2(s, op);
    assert S.Uses(s, op, x);
    S.StepServes(s, op);
    S.ServesFresh(s, s1, x);
    KeptInL2(s1, ops, op.core, op.kind.Fetching?, x, 0);
    RecentLineStays(s, op, ops);
    S.RecentLineStaysInL2(s, op, x, ops);
  }

  // ---------------------------------------------------------------------------
  // Misses in a full set
  // ---------------------------------------------------------------------------

  /** No line of the L1 set leaves L2. */
  ghost predicate KeepsSet(s: State, s': State, i: nat) {
    forall m: nat :: m % 64 == i && Proj(s, m).l2.InL2? ==> Proj(s', m).l2.InL2?
  }

  /** Call j of the chain is by core c, on a line of set i that its L1 has not got. */
  ghost predicate MissedCall(chain: seq<State>, ops: seq<Op>, c: nat, instr: bool, i: nat, j: nat) {
    && j < |ops| && j + 1 < |chain| && c < |chain[j].cores| == |chain[j + 1].cores|
    && ops[j].Fits(|chain[j].cores|) && ops[j].core == c && ops[j].kind.Fetching? == instr && ops[j].pa / 64 % 64 == i
    && L1WayOf(chain[j], c, instr, ops[j].pa / 64) == NUM_L1_WAYS
    && Step(chain[j], ops[j]).Done? && chain[j + 1] == Step(chain[j], ops[j]).value.0
    && KeepsSet(chain[j], chain[j + 1], i)
  }

  /** Such a call takes one way of the set for its line and leaves the others alone. */
  lemma MissedCallServes(s: State, op: Op) returns (w: nat)
    requires Good(s) && op.Fits(|s.cores|) && Step(s, op).Done?
    requires L1WayOf(s, op.core, op.kind.Fetching?, op.pa / 64) == NUM_L1_WAYS
    requires KeepsSet(s, Step(s, op).value.0, op.pa / 64 % 64)
    ensures var (n, s', c, instr) := (op.pa / 64, Step(s, op).value.0, op.core, op.kind.Fetching?);
            && c < |s'.cores|
            && Served(SlotsIn(s, c, instr, n % 64), SlotsIn(s', c, instr, n % 64), n / 64, w)
            && !Has(SlotsIn(s, c, instr, n % 64), n / 64)
  {
    hide Inv, Proj, Step, SlotsIn, Served, ShedsBut, L1WayOf, KeepsSet;
    var n, s', c, instr := op.pa / 64, Step(s, op).value.0, op.core, op.kind.Fetching?;
    var i := n % 64;
    var a, b, v := StepServes(s, op);
    w := v;
    HeldIsHas(s, c, instr, n);
    StepInL2(s, op);
    NotEmptied(s, s', n, c, instr, a);
    ServedHolds(s, s', n, c, instr, b, w);
  }

  /** Before the service: the used ways hold lines that stay in L2. */
  lemma NotEmptied(s: State, s': State, n: nat, c: nat, instr: bool, a: Slots)
    requires Inv(s) && c < |s.cores| && KeepsSet(s, s', n % 64)
    requires Thinned(SlotsIn(s, c, instr, n % 64), a) && Emptied(s', n, false, n % 64, SlotsIn(s, c, instr, n % 64), a)
    ensures a == SlotsIn(s, c, instr, n % 64)
  {
    hide Inv, Proj, SlotsIn;
    var i, t := n % 64, SlotsIn(s, c, instr, n % 64);
    forall w: nat | w < NUM_L1_WAYS ensures a.valid[w] == t.valid[w] {
      if t.valid[w] {
        UsedIsInL2(s, c, instr, i, w);
        assert LineAt(t, i, w) % 64 == i;
      }
    }
  }

  /** After it: likewise. */
  lemma ServedHolds(s: State, s': State, n: nat, c: nat, instr: bool, b: Slots, w: nat)
    requires Inv(s) && c < |s.cores| == |s'.cores| && KeepsSet(s, s', n % 64)
    requires Served(SlotsIn(s, c, instr, n % 64), b, n / 64, w)
    requires Thinned(b, SlotsIn(s', c, instr, n % 64))
    requires Emptied(s', n, false, n % 64, b, SlotsIn(s', c, instr, n % 64))
    ensures b == SlotsIn(s', c, instr, n % 64)
  {
    hide Inv, Proj, SlotsIn, Plru.UpdateFrom, Plru.VictimFrom, Has;
    var i, t, t' := n % 64, SlotsIn(s, c, instr, n % 64), SlotsIn(s', c, instr, n % 64);
    forall v: nat | v < NUM_L1_WAYS ensures t'.valid[v] == b.valid[v] {
      if b.valid[v] {
        if v != w && t.valid[v] {
          UsedIsInL2(s, c, instr, i, v);
          assert LineAt(b, i, v) == LineAt(t, i, v) && LineAt(t, i, v) % 64 == i;
        }
      }
    }
  }

  ghost predicate SetFull(s: State, c: nat, instr: bool, i: nat) {
    Good(s) && c < |s.cores| && i < L1_SETS && AllUsed(SlotsIn(s, c, instr, i))
  }

  /** Call j drops line x from the L1. */
  predicate DropsLine(chain: seq<State>, c: nat, instr: bool, j: nat, x: nat)
    requires j + 1 < |chain| && c < |chain[j].cores| && c < |chain[j + 1].cores|
  {
    L1WayOf(chain[j], c, instr, x) < NUM_L1_WAYS && L1WayOf(chain[j + 1], c, instr, x) == NUM_L1_WAYS
  }

  function SlotChain(chain: seq<State>, c: nat, instr: bool, i: nat): seq<Slots>
    requires i < L1_SETS && forall j: nat :: j < |chain| ==> c < |chain[j].cores|
  {
    seq(|chain|, j requires 0 <= j < |chain| => SlotsIn(chain[j], c, instr, i))
  }

  function TagsOf(ops: seq<Op>): seq<nat> { seq(|ops|, j requires 0 <= j < |ops| => ops[j].pa / 64 / 64) }

  lemma {:induction false} ChainGood(chain: seq<State>, ops: seq<Op>, c: nat, instr: bool, i: nat, j: nat)
    requires |chain| == |ops| + 1 && j < |chain| && Good(chain[0]) && c < |chain[0].cores|
    requires forall k: nat :: k < |ops| ==> MissedCall(chain, ops, c, instr, i, k)
    ensures Good(chain[j]) && c < |chain[j].cores|
    decreases j
  {
    hide Good, Step, KeepsSet, L1WayOf;
    if j == 0 {
    } else {
      ChainGood(chain, ops, c, instr, i, j - 1);
      assert MissedCall(chain, ops, c, instr, i, j - 1);
      StepInL2(chain[j - 1], ops[j - 1]);
    }
  }

  lemma ChainMisses(chain: seq<State>, ops: seq<Op>, c: nat, instr: bool, i: nat, j: nat)
    requires i < L1_SETS && j < |ops| && |chain| == |ops| + 1 && MissedCall(chain, ops, c, instr, i, j)
    requires Good(chain[j]) && forall k: nat :: k < |chain| ==> c < |chain[k].cores|
    ensures Misses(SlotChain(chain, c, instr, i), TagsOf(ops), j)
  {
    hide Good, Step, KeepsSet, L1WayOf, Served, SlotsIn, Has;
    var w := MissedCallServes(chain[j], ops[j]);
    var slots := SlotChain(chain, c, instr, i);
    assert Served(slots[j], slots[j + 1], TagsOf(ops)[j], w);
  }

  /** Eight calls of core c on lines of one full L1 set that it has not got, while no line of
      the set leaves L2: each of the set's eight lines is dropped by exactly one of them. */
  lemma EightMissesDropEachOnce(chain: seq<State>, ops: seq<Op>, c: nat, instr: bool, i: nat, w: nat)
    requires |ops| == 8 && |chain| == 9 && SetFull(chain[0], c, instr, i) && w < NUM_L1_WAYS
    requires forall j: nat :: j < 8 ==> MissedCall(chain, ops, c, instr, i, j)
    ensures forall j: nat :: j < 9 ==> c < |chain[j].cores|
    ensures var x := LineAt(SlotsIn(chain[0], c, instr, i), i, w);
            exists j: nat :: j < 8 && DropsLine(chain, c, instr, j, x)
                             && forall k: nat :: k < 8 && DropsLine(chain, c, instr, k, x) ==> k == j
  {
    hide Inv, Step, KeepsSet, L1WayOf, Has, SlotsIn;
    forall j: nat | j < 9 ensures Good(chain[j]) && c < |chain[j].cores| { ChainGood(chain, ops, c, instr, i, j); }
    var slots, tags := SlotChain(chain, c, instr, i), TagsOf(ops);
    forall j: nat | j < 8 ensures Misses(slots, tags, j) {
      assert MissedCall(chain, ops, c, instr, i, j);
      ChainMisses(chain, ops, c, instr, i, j);
    }
    InShaped(chain[0], c, instr, i);
    L1Distinct(chain[0], c, instr, i);
    assert Plru.Pow2(3) == 8;
    var x := LineAt(slots[0], i, w);
    assert x / 64 == slots[0].tag[w] && x % 64 == i;
    forall j: nat | j < 9 ensures Has(slots[j], x / 64) <==> L1WayOf(chain[j], c, instr, x) < NUM_L1_WAYS {
      HeldIsHas(chain[j], c, instr, x);
    }
    EachLeavesOnce(slots, tags, 3, w);
    var j: nat :| j < 8 && Leaves(slots, j, x / 64) && forall k: nat :: k < 8 && Leaves(slots, k, x / 64) ==> k == j;
    forall k: nat | k < 8 ensures DropsLine(chain, c, instr, k, x) == Leaves(slots, k, x / 64) {}
  }
}
