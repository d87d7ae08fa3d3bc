/** When a recording may be switched on: the visualizer starts from an empty shadow, so a
    trace recorded over warm caches does not rewind. */
module Recording {
  import opened Types
  import opened Coherence
  import opened Caches
  import opened Projection
  import opened Snoops
  import opened Prefetch
  import opened Shadow
  import opened Machine
  import opened Runs
  import opened Stepping
  import Trace

  ghost predicate DataRun(s: State, ops: seq<Op>) {
    AllFit(ops, |s.cores|) && Trace.DataOnly(ops) && Run(s, ops).Done?
  }

  /** One step there and back over a log whose events all carry the same number. */
  lemma OneEventBack(n: nat, e: Event)
    requires EventFits(e, n)
    ensures AllEventsFit([e], n) && Advances(n, [e], 1)
    ensures Backwards([e], Forwards([e], Fresh(n), 1), 1).shadow == ApplyBackward(ApplyForward(InitShadow(n), e), e)
  {
    assert |InitShadow(n).l1d| == n;
    hide ApplyForward, ApplyBackward, InitShadow;
    var log, q := [e], e.seqno;
    var r0 := Replayer(0, Fresh(n).shadow, 0);
    var r1 := Replayer(1, ApplyForward(r0.shadow, e), 0);
    assert Advance(log, r1, q) == r1;
    assert Advance(log, r0, q) == r1;
    assert Forwards(log, r0, 0) == r0;
    var r2 := r1.(currentSeq := q);
    assert Forwards(log, r0, 1) == r2;
    var r3 := Replayer(0, ApplyBackward(r2.shadow, e), q);
    assert Retreat(log, r3, q) == r3;
    assert Retreat(log, r2, q) == r3;
    assert Backwards(log, StepBackward(log, r2), 0) == StepBackward(log, r2);
  }

  lemma TwoEventsBack(n: nat, e: Event, f: Event)
    requires EventFits(e, n) && EventFits(f, n) && e.seqno == f.seqno
    ensures AllEventsFit([e, f], n) && Advances(n, [e, f], 1)
    ensures Backwards([e, f], Forwards([e, f], Fresh(n), 1), 1).shadow
         == ApplyBackward(ApplyBackward(ApplyForward(ApplyForward(InitShadow(n), e), f), f), e)
  {
    assert |InitShadow(n).l1d| == n;
    hide ApplyForward, ApplyBackward, InitShadow;
    var log, q := [e, f], e.seqno;
    var r0 := Replayer(0, Fresh(n).shadow, 0);
    var r1 := Replayer(1, ApplyForward(r0.shadow, e), 0);
    var r2 := Replayer(2, ApplyForward(r1.shadow, f), 0);
    assert Advance(log, r2, q) == r2;
    assert Advance(log, r1, q) == r2;
    assert Advance(log, r0, q) == r2;
    assert Forwards(log, r0, 0) == r0;
    var t2 := r2.(currentSeq := q);
    assert Forwards(log, r0, 1) == t2;
    var t1 := Replayer(1, ApplyBackward(t2.shadow, f), q);
    var t0 := Replayer(0, ApplyBackward(t1.shadow, e), q);
    assert Retreat(log, t0, q) == t0;
    assert Retreat(log, t1, q) == t0;
    assert Retreat(log, t2, q) == t0;
    assert Backwards(log, StepBackward(log, t2), 0) == StepBackward(log, t2);
  }

  /** A hit on a way that the shadow never saw filled is taken back to the state it reports,
      where the fresh shadow has INVALID. */
  lemma HitSticks(n: nat, e: Event)
    requires EventFits(e, n) && e.level == 1 && e.etype == L1dHit && e.oldState != Invalid
    ensures !Rewinds(n, [e])
  {
    hide Forwards, Backwards, Counted;
    OneEventBack(n, e);
    var sh := ApplyBackward(ApplyForward(InitShadow(n), e), e);
    assert sh.l1d[e.core][e.index].state[e.way] == e.oldState;
    assert InitShadow(n).l1d[e.core][e.index].state[e.way] == Invalid;
    assert !Alike(sh, InitShadow(n));
  }

  lemma L2HitSticks(n: nat, e: Event, f: Event)
    requires EventFits(e, n) && EventFits(f, n) && e.seqno == f.seqno
    requires e.level == 2 && e.etype == L2Hit && e.oldState != Invalid && f.level == 1
    ensures !Rewinds(n, [e, f])
  {
    hide Forwards, Backwards, Counted, Forward1, Backward1, Dominant;
    TwoEventsBack(n, e, f);
    var sh := ApplyBackward(ApplyBackward(ApplyForward(ApplyForward(InitShadow(n), e), f), f), e);
    assert sh.l2[e.index].state[e.way] == e.oldState;
    assert Occupied(sh.l2[e.index].state)[e.way] != Occupied(InitShadow(n).l2[e.index].state)[e.way];
    assert !Alike(sh, InitShadow(n));
  }

  /** The byte that a load of the line asks for. */
  function LoadLine(c: nat, m: nat): Op { Op(c, 64 * m, Load(1), 0) }

  lemma LoadFits(c: nat, m: nat, n: nat)
    requires c < n
    ensures LoadLine(c, m).Fits(n) && LoadLine(c, m).pa / 64 == m && LoadLine(c, m).pa % 64 == 0
  {
  }

  lemma OneOpRun(s: State, op: Op)
    requires op.Fits(|s.cores|) && Step(s, op).Done? && !op.kind.Fetching?
    ensures DataRun(s, [op]) && Run(s, [op]).value.0 == Step(s, op).value.0
  {
    hide Step;
    var (s1, out) := Step(s, op).value;
    assert [op][1..] == [];
    assert Run(s1, []) == Done((s1, []));
  }

  /** A valid L1D way: a load of its line is one hit. */
  lemma WarmL1(s: State, c: nat, i: nat, w: nat) returns (op: Op)
    requires Good(s) && s.log == [] && c < |s.cores| && i < L1_SETS && Valid(s.cores[c].l1d[i].state, w)
    ensures DataRun(s, [op]) && !Rewinds(|s.cores|, Run(s, [op]).value.0.log)
  {
    hide Rewinds, Run, DataRun, ReadHit, Proj, Coherent, LineAfter;
    var m := s.cores[c].l1d[i].tag[w] * 64 + i;
    op := LoadLine(c, m);
    LoadFits(c, m, |s.cores|);
    FullL1Way(s, c, false, i, w);
    HeldCached(s, c, false, m);
    StepIsAction(s, op);
    OneOpRun(s, op);
    HitLog(s, c, m, w);
  }

  lemma Stamped(s: State, c: nat, m: nat)
    requires c < |s.cores|
    ensures var s0 := s.(stamp := 0);
            L1WayOf(s0, c, false, m) == L1WayOf(s, c, false, m) && L2WayOf(s0, m) == L2WayOf(s, m)
  {
  }

  lemma HitLog(s: State, c: nat, m: nat, w: nat)
    requires s.log == [] && c < |s.cores| && w < NUM_L1_WAYS && w == L1WayOf(s, c, false, m)
    ensures LoadLine(c, m).Fits(|s.cores|) && Step(s, LoadLine(c, m)).Done?
    ensures !Rewinds(|s.cores|, Step(s, LoadLine(c, m)).value.0.log)
  {
    hide Rewinds, L1Touch, L1WayOf;
    LoadFits(c, m, |s.cores|);
    Stamped(s, c, m);
    var l1 := s.cores[c].l1d[m % 64];
    L1WayProj(s, c, false, m);
    var e := Event(L1dHit, c, 1, m % 64, w, 64 * m, l1.state[w], l1.state[w], Some(l1.data[w]), 0);
    assert Step(s, LoadLine(c, m)).value.0.log == [e];
    HitSticks(|s.cores|, e);
  }

  /** No valid L1D way, but a valid L2 way: a load of its line hits L2 and fills L1D. */
  lemma WarmL2(s: State, k: nat, v: nat) returns (op: Op)
    requires Good(s) && s.log == [] && |s.cores| > 0 && k < L2_SETS && Valid(s.l2[k].state, v)
    requires forall c: nat, i: nat, w: nat :: c < |s.cores| && i < L1_SETS ==> !Valid(s.cores[c].l1d[i].state, w)
    ensures DataRun(s, [op]) && !Rewinds(|s.cores|, Run(s, [op]).value.0.log)
  {
    hide Rewinds, Run, DataRun, ReadFromL2, Proj, LineAfter;
    var m := s.l2[k].tag[v] * 4096 + k;
    op := LoadLine(0, m);
    LoadFits(0, m, |s.cores|);
    FullSetWay(s, k, v);
    L2WayProj(s, m);
    Cached(s, m);
    StepIsAction(s, op);
    OneOpRun(s, op);
    forall c: nat | c < |s.cores| ensures L1WayOf(s, c, false, m) == NUM_L1_WAYS {
      L1WayProj(s, c, false, m);
    }
    NoDataSharers(s, m);
    L2HitLog(s, m, v);
  }

  lemma NoDataSharers(s: State, m: nat)
    requires Good(s) && Proj(s, m).l2.InL2?
    requires forall c: nat :: c < |s.cores| ==> L1WayOf(s, c, false, m) == NUM_L1_WAYS
    ensures Proj(s, m).l2.dm == {}
  {
    hide Placed, Windowed, Proj;
    assert Coherent(Proj(s, m));
    L2WayProj(s, m);
    forall c | c in Proj(s, m).l2.dm ensures false {
      assert Holds(Proj(s, m).d, c);
      L1WayProj(s, c, false, m);
    }
  }

  lemma L2HitLog(s: State, m: nat, v: nat)
    requires s.log == [] && |s.cores| > 0 && v < NUM_L2_WAYS && v == L2WayOf(s, m) && s.l2[m % 4096].dm[v] == {}
    requires L1WayOf(s, 0, false, m) == NUM_L1_WAYS && !Valid(s.cores[0].l1d[m % 64].state, 0)
    ensures LoadLine(0, m).Fits(|s.cores|) && Step(s, LoadLine(0, m)).Done?
    ensures !Rewinds(|s.cores|, Step(s, LoadLine(0, m)).value.0.log)
  {
    hide Rewinds, L1Fill, L1WayOf, L2WayOf, ReadL2Way;
    LoadFits(0, m, |s.cores|);
    Stamped(s, 0, m);
    var k, state := m % 4096, s.l2[m % 4096].state[v];
    var e := Event(L2Hit, 0, 2, k, v, 64 * m, state, state, None, 0);
    var s0 := Emit(s.(stamp := 0), L2Hit, 0, 2, k, v, 64 * m, state, state, None);
    assert s0.log == [e];
    assert EvictL1(s0, 0, false, m % 64) == Done((s0, 0));
    ReadL2WayIsSilent(s0, m, v);
    var (s2, line, shared) := ReadL2Way(s0, 0, false, m, v);
    var fill := if shared then Shared else Exclusive;
    var f := Event(L1dFill, 0, 1, m % 64, 0, 64 * m, Invalid, fill, Some(line), 0);
    assert Step(s, LoadLine(0, m)).value.0.log == [e, f];
    L2WayProj(s, m);
    L2HitSticks(|s.cores|, e, f);
  }

  lemma ReadL2WayIsSilent(s: State, m: nat, v: nat)
    requires |s.cores| > 0 && v < NUM_L2_WAYS && s.l2[m % 4096].dm[v] == {}
    ensures var s' := ReadL2Way(s, 0, false, m, v).0; s'.log == s.log && s'.stamp == s.stamp && s'.cores == s.cores
  {
    assert L2Read(s.l2[m % 4096], 0, v, false).dm[v] - {0} == {};
  }

  lemma WarmDoesNotRewind(s: State) returns (op: Op)
    requires Good(s) && s.log == [] && |s.cores| > 0 && !Trace.Cold(s)
    ensures DataRun(s, [op]) && !Rewinds(|s.cores|, Run(s, [op]).value.0.log)
  {
    hide Good, Rewinds, Run, DataRun;
    if c: nat, i: nat, w: nat :| c < |s.cores| && i < L1_SETS && Valid(s.cores[c].l1d[i].state, w) {
      op := WarmL1(s, c, i, w);
    } else {
      var k: nat, v: nat :| k < L2_SETS && Valid(s.l2[k].state, v);
      op := WarmL2(s, k, v);
    }
  }

  /** Every trace of loads and stores recorded from a state can be rewound exactly when no
      L1D and no L2 way is valid there. */
  lemma RewindsIffCold(s: State)
    requires Good(s) && s.log == [] && |s.cores| > 0
    ensures Trace.Cold(s) <==> forall ops :: DataRun(s, ops) ==> Rewinds(|s.cores|, Run(s, ops).value.0.log)
  {
    hide Good, Rewinds, Run, Trace.Cold;
    if Trace.Cold(s) {
      forall ops | DataRun(s, ops) ensures Rewinds(|s.cores|, Run(s, ops).value.0.log) {
        Trace.DataIsTraceable(s, ops);
        EmittedTraceRewinds(s, ops);
      }
    } else {
      var op := WarmDoesNotRewind(s);
    }
  }

  /** So a recording that is switched on after so much as one access, as the producer and
      consumer benchmark does, can always be continued to a trace that does not rewind. */
  lemma RecordingAfterAccess(s: State, first: Op) returns (op: Op)
    requires Good(s) && first.Fits(|s.cores|) && Step(s, first).Done?
    ensures var s1 := Step(s, first).value.0.(log := []);
            DataRun(s1, [op]) && !Rewinds(|s1.cores|, Run(s1, [op]).value.0.log)
  {
    hide Rewinds, Run, DataRun, Inv, Windowed, Step, LineAfter, Proj, Trace.Cold;
    StepKeepsDemandedLine(s, first);
    var s1 := Step(s, first).value.0.(log := []);
    Unlogged(Step(s, first).value.0);
    Trace.AccessWarms(s, first);
    op := WarmDoesNotRewind(s1);
  }

  lemma Unlogged(s: State)
    requires Good(s)
    ensures Good(s.(log := [])) && (Trace.Cold(s.(log := [])) <==> Trace.Cold(s))
  {
    hide Placed, Coherent, Proj;
    SameCaches(s, s.(log := []));
  }
}
