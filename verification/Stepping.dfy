/** Stepping through a trace, one call's events at a time (renderer.cpp).

    A position counts the events applied, so position 0 is the null cursor and position p
    has the cursor on event p - 1. */
module Stepping {
  import opened Types
  import opened Caches
  import opened Shadow
  import opened Machine
  import opened Runs
  import Trace

  datatype Replayer = Replayer(pos: nat, shadow: ShadowState, currentSeq: nat)

  predicate Fits(log: seq<Event>, r: Replayer) {
    r.pos <= |log| && AllEventsFit(log, |r.shadow.l1d|)
  }

  /** Apply events while they carry sequence number q. */
  function Advance(log: seq<Event>, r: Replayer, q: nat): (r': Replayer)
    requires Fits(log, r)
    ensures Fits(log, r') && r'.pos >= r.pos && |r'.shadow.l1d| == |r.shadow.l1d| && r'.currentSeq == r.currentSeq
    ensures forall i :: r.pos <= i < r'.pos ==> log[i].seqno == q
    ensures r'.pos < |log| ==> log[r'.pos].seqno != q
    decreases |log| - r.pos
  {
    if r.pos < |log| && log[r.pos].seqno == q
    then Advance(log, Replayer(r.pos + 1, ApplyForward(r.shadow, log[r.pos]), r.currentSeq), q)
    else r
  }

  /** step_forward */
  function StepForward(log: seq<Event>, r: Replayer): (r': Replayer)
    requires Fits(log, r)
    ensures Fits(log, r') && |r'.shadow.l1d| == |r.shadow.l1d|
  {
    if r.pos == |log| then r else Advance(log, r, log[r.pos].seqno).(currentSeq := log[r.pos].seqno)
  }

  /** Take events back while they carry sequence number q. */
  function Retreat(log: seq<Event>, r: Replayer, q: nat): (r': Replayer)
    requires Fits(log, r)
    ensures Fits(log, r') && r'.pos <= r.pos && |r'.shadow.l1d| == |r.shadow.l1d|
    ensures forall i :: r'.pos <= i < r.pos ==> log[i].seqno == q
    ensures r'.pos > 0 ==> log[r'.pos - 1].seqno != q
    decreases r.pos
  {
    if r.pos > 0 && log[r.pos - 1].seqno == q
    then Retreat(log, Replayer(r.pos - 1, ApplyBackward(r.shadow, log[r.pos - 1]), r.currentSeq), q)
    else r
  }

  function SeqAt(log: seq<Event>, pos: nat): nat
    requires pos <= |log|
  {
    if pos == 0 then 0 else log[pos - 1].seqno
  }

  /** step_backward */
  function StepBackward(log: seq<Event>, r: Replayer): (r': Replayer)
    requires Fits(log, r)
    ensures Fits(log, r') && |r'.shadow.l1d| == |r.shadow.l1d|
  {
    if r.pos == 0 then r else
    var r1 := Retreat(log, r, log[r.pos - 1].seqno);
    r1.(currentSeq := SeqAt(log, r1.pos))
  }

  /** The cursor is at the end of a maximal run of equal sequence numbers. */
  predicate AtBoundary(log: seq<Event>, pos: nat)
    requires pos <= |log|
  {
    0 < pos < |log| ==> log[pos - 1].seqno != log[pos].seqno
  }

  /** The position, the sequence number and the shadow fit together. */
  ghost predicate InStep(log: seq<Event>, r: Replayer) {
    && Fits(log, r) && AtBoundary(log, r.pos) && r.currentSeq == SeqAt(log, r.pos)
    && AllUndoable(|r.shadow.l1d|, log)
    && Alike(r.shadow, Replay(|r.shadow.l1d|, log[..r.pos]))
  }

  /** Same cursor, same sequence number, and shadows that agree on what backward steps
      restore. */
  ghost predicate SamePlace(a: Replayer, b: Replayer) {
    a.pos == b.pos && a.currentSeq == b.currentSeq && Alike(a.shadow, b.shadow)
  }

  // ---------------------------------------------------------------------------
  // One step
  // ---------------------------------------------------------------------------

  lemma ForwardAlike(a: ShadowState, b: ShadowState, e: Event)
    requires EventFits(e, |a.l1d|) && Alike(a, b)
    ensures Alike(ApplyForward(a, e), ApplyForward(b, e))
  {
    hide Occupied, Dominant, Forward2;
    if e.level == 1 {
      assert a.l1d[e.core][e.index].state == b.l1d[e.core][e.index].state;
    } else if e.level == 2 {
      ForwardOccupied(a.l2[e.index], b.l2[e.index], e);
    }
  }

  lemma ForwardOccupied(a: ShadowL2, b: ShadowL2, e: Event)
    requires e.way < NUM_L2_WAYS && Occupied(a.state) == Occupied(b.state)
    ensures Occupied(Forward2(a, e).state) == Occupied(Forward2(b, e).state)
  {
    forall v | 0 <= v < NUM_L2_WAYS ensures Occupied(Forward2(a, e).state)[v] == Occupied(Forward2(b, e).state)[v] {
      assert Occupied(a.state)[v] == Occupied(b.state)[v];
    }
  }

  lemma UndoableAlike(a: ShadowState, b: ShadowState, e: Event)
    requires EventFits(e, |a.l1d|) && Alike(a, b)
    ensures EventFits(e, |b.l1d|) && Undoable(a, e) == Undoable(b, e)
  {
    if e.level == 1 {
      assert a.l1d[e.core][e.index].state == b.l1d[e.core][e.index].state;
    } else if e.level == 2 {
      assert Occupied(a.l2[e.index].state)[e.way] == Occupied(b.l2[e.index].state)[e.way];
    }
  }

  lemma AlikeTwice(a: ShadowState, b: ShadowState, c: ShadowState)
    requires Alike(a, b) && Alike(b, c)
    ensures Alike(a, c)
  {
  }

  lemma {:induction false} UndoableAt(n: nat, log: seq<Event>, i: nat)
    requires AllEventsFit(log, n) && AllUndoable(n, log) && i < |log|
    ensures Undoable(Replay(n, log[..i]), log[i])
    ensures Replay(n, log[..i + 1]) == ApplyForward(Replay(n, log[..i]), log[i])
    decreases |log|
  {
    hide Undoable, ApplyForward;
    assert log[..i + 1][..i] == log[..i];
    if i >= |log| - 1 {
    } else {
      var front := log[..|log| - 1];
      UndoableAt(n, front, i);
      assert front[..i] == log[..i];
    }
  }

  /** Advancing from a position, then retreating over the same sequence number, comes
      back to it. */
  lemma {:induction false} AdvanceRetreat(log: seq<Event>, r: Replayer, q: nat)
    requires Fits(log, r) && AllUndoable(|r.shadow.l1d|, log)
    requires Alike(r.shadow, Replay(|r.shadow.l1d|, log[..r.pos]))
    ensures var r1 := Advance(log, r, q);
            && Alike(r1.shadow, Replay(|r.shadow.l1d|, log[..r1.pos]))
            && var back := Retreat(log, r1, q);
               var rest := Retreat(log, r, q);
               back.pos == rest.pos && Alike(back.shadow, rest.shadow)
    decreases |log| - r.pos
  {
    hide Alike, ApplyForward, ApplyBackward, Undoable;
    if r.pos < |log| && log[r.pos].seqno == q {
      var e := log[r.pos];
      var r1 := Replayer(r.pos + 1, ApplyForward(r.shadow, e), r.currentSeq);
      UndoableAt(|r.shadow.l1d|, log, r.pos);
      ForwardAlike(r.shadow, Replay(|r.shadow.l1d|, log[..r.pos]), e);
      UndoableAlike(r.shadow, Replay(|r.shadow.l1d|, log[..r.pos]), e);
      AdvanceRetreat(log, r1, q);
      BackwardUndoes(r.shadow, e);
      var r2 := Replayer(r.pos, ApplyBackward(r1.shadow, e), r1.currentSeq);
      RetreatAlike(log, r2, r, q);
      AlikeTwice(Retreat(log, Advance(log, r, q), q).shadow, Retreat(log, r1, q).shadow, Retreat(log, r, q).shadow);
    } else {
      AlikeSelf(Retreat(log, r, q).shadow);
    }
  }

  lemma AlikeSelf(a: ShadowState)
    ensures Alike(a, a)
  {
  }

  lemma {:induction false} RetreatAlike(log: seq<Event>, a: Replayer, b: Replayer, q: nat)
    requires Fits(log, a) && a.pos == b.pos && Alike(a.shadow, b.shadow)
    ensures Fits(log, b)
    ensures Retreat(log, a, q).pos == Retreat(log, b, q).pos
    ensures Alike(Retreat(log, a, q).shadow, Retreat(log, b, q).shadow)
    decreases a.pos
  {
    hide ApplyBackward;
    if a.pos == 0 || log[a.pos - 1].seqno != q {
    } else {
      var e := log[a.pos - 1];
      BackwardAlike(a.shadow, b.shadow, e);
      RetreatAlike(log, Replayer(a.pos - 1, ApplyBackward(a.shadow, e), a.currentSeq),
                   Replayer(b.pos - 1, ApplyBackward(b.shadow, e), b.currentSeq), q);
    }
  }

  /** A step forward leaves the cursor at the end of a maximal run, with the shadow of
      exactly the events before it. */
  lemma ForwardInStep(log: seq<Event>, r: Replayer)
    requires InStep(log, r)
    ensures InStep(log, StepForward(log, r))
  {
    hide Alike, AllUndoable, Replay, Advance, Retreat;
    if r.pos < |log| {
      AdvanceRetreat(log, r, log[r.pos].seqno);
      AdvanceMoves(log, r);
    }
  }

  lemma AdvanceMoves(log: seq<Event>, r: Replayer)
    requires Fits(log, r) && r.pos < |log|
    ensures Advance(log, r, log[r.pos].seqno).pos > r.pos
  {
    hide ApplyForward;
  }

  /** A step back undoes an advancing step forward. */
  lemma BackwardUndoesForward(log: seq<Event>, r: Replayer)
    requires InStep(log, r) && r.pos < |log|
    ensures StepForward(log, r).pos > r.pos
    ensures SamePlace(StepBackward(log, StepForward(log, r)), r)
  {
    hide Alike, AllUndoable, Replay, ApplyForward, ApplyBackward;
    var q := log[r.pos].seqno;
    AdvanceRetreat(log, r, q);
    AdvanceMoves(log, r);
    var r1 := StepForward(log, r);
    RetreatAlikeSeq(log, r1, Advance(log, r, q), q);
    assert Retreat(log, r, q) == r;
  }

  lemma {:induction false} RetreatAlikeSeq(log: seq<Event>, a: Replayer, b: Replayer, q: nat)
    requires Fits(log, a) && a.pos == b.pos && a.shadow == b.shadow
    ensures Fits(log, b)
    ensures Retreat(log, a, q).pos == Retreat(log, b, q).pos && Retreat(log, a, q).shadow == Retreat(log, b, q).shadow
    decreases a.pos
  {
    if a.pos == 0 || log[a.pos - 1].seqno != q {
    } else {
      var e := log[a.pos - 1];
      RetreatAlikeSeq(log, Replayer(a.pos - 1, ApplyBackward(a.shadow, e), a.currentSeq),
                      Replayer(b.pos - 1, ApplyBackward(b.shadow, e), b.currentSeq), q);
    }
  }

  lemma BackwardSame(log: seq<Event>, a: Replayer, b: Replayer)
    requires Fits(log, a) && SamePlace(a, b)
    ensures Fits(log, b) && SamePlace(StepBackward(log, a), StepBackward(log, b))
  {
    hide Alike;
    assert Fits(log, b) by { AlikeSizes(a.shadow, b.shadow); }
    if a.pos > 0 { RetreatAlike(log, a, b, log[a.pos - 1].seqno); }
  }

  lemma AlikeSizes(a: ShadowState, b: ShadowState)
    requires Alike(a, b)
    ensures |a.l1d| == |b.l1d|
  {
  }

  // ---------------------------------------------------------------------------
  // Any number of steps
  // ---------------------------------------------------------------------------

  function Forwards(log: seq<Event>, r: Replayer, n: nat): (r': Replayer)
    requires Fits(log, r)
    ensures Fits(log, r') && |r'.shadow.l1d| == |r.shadow.l1d|
  {
    if n == 0 then r else StepForward(log, Forwards(log, r, n - 1))
  }

  function Backwards(log: seq<Event>, r: Replayer, n: nat): (r': Replayer)
    requires Fits(log, r)
    ensures Fits(log, r') && |r'.shadow.l1d| == |r.shadow.l1d|
    decreases n
  {
    if n == 0 then r else Backwards(log, StepBackward(log, r), n - 1)
  }

  lemma {:induction false} BackwardsSame(log: seq<Event>, a: Replayer, b: Replayer, n: nat)
    requires Fits(log, a) && SamePlace(a, b)
    ensures Fits(log, b) && SamePlace(Backwards(log, a, n), Backwards(log, b, n))
    decreases n
  {
    hide StepBackward, SamePlace;
    BackwardSame(log, a, b);
    if n == 0 {
    } else {
      BackwardsSame(log, StepBackward(log, a), StepBackward(log, b), n - 1);
    }
  }

  lemma SameTwice(a: Replayer, b: Replayer, c: Replayer)
    requires SamePlace(a, b) && SamePlace(b, c)
    ensures SamePlace(a, c)
  {
    AlikeTwice(a.shadow, b.shadow, c.shadow);
  }

  /** Any number of advancing steps forward, then as many back, restores the cursor, the
      sequence number, every L1D state, every L2 way's occupancy and every counter. */
  lemma {:induction false} BackwardsUndoForwards(log: seq<Event>, r: Replayer, n: nat)
    requires InStep(log, r)
    requires forall m: nat :: m < n ==> Forwards(log, r, m).pos < |log|
    ensures InStep(log, Forwards(log, r, n))
    ensures SamePlace(Backwards(log, Forwards(log, r, n), n), r)
  {
    hide StepForward, StepBackward, SamePlace, InStep;
    assert Fits(log, r) by { InStepFits(log, r); }
    if n == 0 {
      SameSelf(r);
    } else {
      BackwardsUndoForwards(log, r, n - 1);
      var r1 := Forwards(log, r, n - 1);
      ForwardInStep(log, r1);
      BackwardUndoesForward(log, r1);
      BackwardsSame(log, StepBackward(log, StepForward(log, r1)), r1, n - 1);
      SameTwice(Backwards(log, Forwards(log, r, n), n), Backwards(log, r1, n - 1), r);
    }
  }

  lemma InStepFits(log: seq<Event>, r: Replayer)
    requires InStep(log, r)
    ensures Fits(log, r)
  {
  }

  lemma SameSelf(r: Replayer)
    ensures SamePlace(r, r)
  {
    AlikeSelf(r.shadow);
  }

  // ---------------------------------------------------------------------------
  // Any mixture of steps
  // ---------------------------------------------------------------------------

  lemma {:induction false} RetreatReplays(log: seq<Event>, r: Replayer, q: nat)
    requires Fits(log, r) && AllUndoable(|r.shadow.l1d|, log) && Alike(r.shadow, Replay(|r.shadow.l1d|, log[..r.pos]))
    ensures var r1 := Retreat(log, r, q); Alike(r1.shadow, Replay(|r.shadow.l1d|, log[..r1.pos]))
    decreases r.pos
  {
    hide Alike, ApplyForward, ApplyBackward, Undoable;
    if r.pos == 0 || log[r.pos - 1].seqno != q {
    } else {
      var n, e := |r.shadow.l1d|, log[r.pos - 1];
      var before := Replay(n, log[..r.pos - 1]);
      UndoableAt(n, log, r.pos - 1);
      BackwardAlike(r.shadow, ApplyForward(before, e), e);
      BackwardUndoes(before, e);
      AlikeTwice(ApplyBackward(r.shadow, e), ApplyBackward(ApplyForward(before, e), e), before);
      RetreatReplays(log, Replayer(r.pos - 1, ApplyBackward(r.shadow, e), r.currentSeq), q);
    }
  }

  /** A step back, too, leaves the cursor at the end of a maximal run, with the shadow of
      exactly the events before it. */
  lemma BackwardInStep(log: seq<Event>, r: Replayer)
    requires InStep(log, r)
    ensures InStep(log, StepBackward(log, r))
  {
    hide Alike, AllUndoable, Replay, Retreat;
    if r.pos > 0 {
      RetreatReplays(log, r, log[r.pos - 1].seqno);
      RetreatMoves(log, r);
    }
  }

  lemma RetreatMoves(log: seq<Event>, r: Replayer)
    requires Fits(log, r) && r.pos > 0
    ensures Retreat(log, r, log[r.pos - 1].seqno).pos < r.pos
  {
    hide ApplyBackward;
  }

  /** One key press of the visualizer. */
  datatype Press = Right | Left

  function AfterPresses(log: seq<Event>, r: Replayer, presses: seq<Press>): (r': Replayer)
    requires Fits(log, r)
    ensures Fits(log, r') && |r'.shadow.l1d| == |r.shadow.l1d|
    decreases |presses|
  {
    if presses == [] then r
    else AfterPresses(log, if presses[0] == Right then StepForward(log, r) else StepBackward(log, r), presses[1..])
  }

  /** Whatever the user presses, the cursor is at the end of a maximal run of equal
      sequence numbers and the shadow shows exactly the events up to it. */
  lemma {:induction false} AlwaysInStep(log: seq<Event>, r: Replayer, presses: seq<Press>)
    requires InStep(log, r)
    ensures Fits(log, r) && InStep(log, AfterPresses(log, r, presses))
    decreases |presses|
  {
    hide StepForward, StepBackward, InStep;
    InStepFits(log, r);
    if presses == [] {
    } else {
      ForwardInStep(log, r);
      BackwardInStep(log, r);
      AlwaysInStep(log, if presses[0] == Right then StepForward(log, r) else StepBackward(log, r), presses[1..]);
    }
  }

  /** The freshly initialised renderer is in step with any undoable trace. */
  lemma StartInStep(n: nat, log: seq<Event>)
    requires AllEventsFit(log, n) && AllUndoable(n, log)
    ensures InStep(log, Replayer(0, InitShadow(n), 0))
  {
    assert log[..0] == [];
    AlikeSelf(InitShadow(n));
  }

  // ---------------------------------------------------------------------------
  // Any trace at all
  // ---------------------------------------------------------------------------

  ghost predicate SameCursor(a: Replayer, b: Replayer) {
    && a.pos == b.pos && a.currentSeq == b.currentSeq && |a.shadow.l1d| == |b.shadow.l1d|
    && a.shadow.counters == b.shadow.counters
  }

  lemma {:induction false} RetreatCounts(log: seq<Event>, a: Replayer, b: Replayer, q: nat)
    requires Fits(log, a) && a.pos == b.pos && |a.shadow.l1d| == |b.shadow.l1d|
    requires a.shadow.counters == b.shadow.counters
    ensures Retreat(log, a, q).pos == Retreat(log, b, q).pos
    ensures Retreat(log, a, q).shadow.counters == Retreat(log, b, q).shadow.counters
    decreases a.pos
  {
    hide Backward1, Backward2, Counted;
    if a.pos == 0 || log[a.pos - 1].seqno != q {
    } else {
      var e := log[a.pos - 1];
      RetreatCounts(log, Replayer(a.pos - 1, ApplyBackward(a.shadow, e), a.currentSeq),
                    Replayer(b.pos - 1, ApplyBackward(b.shadow, e), b.currentSeq), q);
    }
  }

  lemma {:induction false} AdvanceRetreatCounts(log: seq<Event>, r: Replayer, q: nat)
    requires Fits(log, r)
    ensures var back, rest := Retreat(log, Advance(log, r, q), q), Retreat(log, r, q);
            back.pos == rest.pos && back.shadow.counters == rest.shadow.counters
    decreases |log| - r.pos
  {
    hide Forward1, Forward2, Backward1, Backward2, Counted, Dominant;
    if r.pos >= |log| || log[r.pos].seqno != q {
    } else {
      var e := log[r.pos];
      var r1 := Replayer(r.pos + 1, ApplyForward(r.shadow, e), r.currentSeq);
      AdvanceRetreatCounts(log, r1, q);
      CountedBack(r.shadow.counters, e);
      RetreatCounts(log, Replayer(r.pos, ApplyBackward(r1.shadow, e), r1.currentSeq), r, q);
    }
  }

  lemma BackwardCursor(log: seq<Event>, a: Replayer, b: Replayer)
    requires Fits(log, a) && SameCursor(a, b)
    ensures Fits(log, b) && SameCursor(StepBackward(log, a), StepBackward(log, b))
  {
    hide Retreat;
    if a.pos > 0 { RetreatCounts(log, a, b, log[a.pos - 1].seqno); }
  }

  lemma {:induction false} BackwardsCursor(log: seq<Event>, a: Replayer, b: Replayer, n: nat)
    requires Fits(log, a) && SameCursor(a, b)
    ensures Fits(log, b) && SameCursor(Backwards(log, a, n), Backwards(log, b, n))
    decreases n
  {
    hide StepBackward;
    BackwardCursor(log, a, b);
    if n == 0 {
    } else {
      BackwardsCursor(log, StepBackward(log, a), StepBackward(log, b), n - 1);
    }
  }

  /** A cursor at the end of a maximal run, with the sequence number that is there. */
  ghost predicate CursorOk(log: seq<Event>, r: Replayer) {
    Fits(log, r) && AtBoundary(log, r.pos) && r.currentSeq == SeqAt(log, r.pos)
  }

  lemma ForwardSettles(log: seq<Event>, r: Replayer)
    requires CursorOk(log, r) && r.pos < |log|
    ensures CursorOk(log, StepForward(log, r)) && SameCursor(StepBackward(log, StepForward(log, r)), r)
  {
    hide Advance, Retreat;
    var q := log[r.pos].seqno;
    AdvanceMoves(log, r);
    AdvanceRetreatCounts(log, r, q);
    RetreatCounts(log, StepForward(log, r), Advance(log, r, q), q);
    assert Retreat(log, r, q) == r by { NoRetreat(log, r, q); }
  }

  lemma NoRetreat(log: seq<Event>, r: Replayer, q: nat)
    requires Fits(log, r) && (r.pos > 0 ==> log[r.pos - 1].seqno != q)
    ensures Retreat(log, r, q) == r
  {
  }

  /** Of any trace whatever, wherever its recording began, stepping back restores the cursor,
      the sequence number and every counter. */
  lemma {:induction false} CursorRewinds(log: seq<Event>, r: Replayer, n: nat)
    requires CursorOk(log, r)
    requires forall m: nat :: m < n ==> Forwards(log, r, m).pos < |log|
    ensures CursorOk(log, Forwards(log, r, n))
    ensures SameCursor(Backwards(log, Forwards(log, r, n), n), r)
  {
    hide StepForward, StepBackward;
    if n == 0 {
    } else {
      CursorRewinds(log, r, n - 1);
      var r1 := Forwards(log, r, n - 1);
      ForwardSettles(log, r1);
      BackwardsCursor(log, StepBackward(log, StepForward(log, r1)), r1, n - 1);
    }
  }

  // ---------------------------------------------------------------------------
  // Emitted traces
  // ---------------------------------------------------------------------------

  function Fresh(n: nat): Replayer { Replayer(0, InitShadow(n), 0) }

  /** From a fresh renderer, any number of advancing steps and then as many back restore
      everything. */
  ghost predicate Rewinds(n: nat, log: seq<Event>) {
    && AllEventsFit(log, n)
    && forall k: nat :: Advances(n, log, k) ==>
         AtBoundary(log, Forwards(log, Fresh(n), k).pos)
         && SamePlace(Backwards(log, Forwards(log, Fresh(n), k), k), Fresh(n))
  }

  predicate Advances(n: nat, log: seq<Event>, k: nat)
    requires AllEventsFit(log, n)
  {
    forall m: nat :: m < k ==> Forwards(log, Fresh(n), m).pos < |log|
  }

  lemma UndoableRewinds(n: nat, log: seq<Event>)
    requires AllEventsFit(log, n) && AllUndoable(n, log)
    ensures Rewinds(n, log)
  {
    hide Forwards, Backwards, SamePlace, Alike, Replay, AllUndoable;
    StartInStep(n, log);
    forall k: nat | Advances(n, log, k)
      ensures AtBoundary(log, Forwards(log, Fresh(n), k).pos)
      ensures SamePlace(Backwards(log, Forwards(log, Fresh(n), k), k), Fresh(n))
    {
      BackwardsUndoForwards(log, Fresh(n), k);
    }
  }

  /** Recorded from cold caches, the trace of any run of loads, stores and quiet fetches can
      be stepped through and rewound. */
  lemma EmittedTraceRewinds(s: State, ops: seq<Op>)
    requires Trace.Cold(s) && s.log == [] && AllFit(ops, |s.cores|) && Trace.AllTraceable(s, ops) && Run(s, ops).Done?
    ensures Rewinds(|s.cores|, Run(s, ops).value.0.log)
  {
    hide Run, Rewinds, Trace.Matches, Trace.AllTraceable, Trace.Cold;
    Trace.ColdIsTraced(s);
    Trace.RunIsTraced(s, ops);
    UndoableRewinds(|s.cores|, Run(s, ops).value.0.log);
  }
}
