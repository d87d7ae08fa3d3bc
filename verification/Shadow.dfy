/** The visualizer's shadow state and what one trace event does to it, forward and
    backward (renderer.cpp). */
module Shadow {
  import opened Types
  import opened Caches

  datatype ShadowWays = ShadowWays(tag: seq<nat>, state: seq<Mesi>, data: seq<Line>)

  type ShadowL1 = s: ShadowWays | |s.tag| == |s.state| == |s.data| == NUM_L1_WAYS witness EmptyWays(NUM_L1_WAYS)

  type ShadowL2 = s: ShadowWays | |s.tag| == |s.state| == |s.data| == NUM_L2_WAYS witness EmptyWays(NUM_L2_WAYS)

  function EmptyWays(n: nat): ShadowWays {
    ShadowWays(seq(n, _ => 0), seq(n, _ => Invalid), seq(n, _ => ZeroLine()))
  }

  type ShadowL1Array = a: seq<ShadowL1> | |a| == L1_SETS witness seq(L1_SETS, _ => EmptyWays(NUM_L1_WAYS))

  type ShadowL2Array = a: seq<ShadowL2> | |a| == L2_SETS witness seq(L2_SETS, _ => EmptyWays(NUM_L2_WAYS))

  type Dominants = a: seq<Mesi> | |a| == L2_SETS witness seq(L2_SETS, _ => Invalid)

  datatype Counters = Counters(l1dHits: int, l2Hits: int, memFetches: int, snoops: int, prefetches: int)

  /** `tag` holds byte addresses here, as the renderer stores them. */
  datatype ShadowState = ShadowState(l1d: seq<ShadowL1Array>, l2: ShadowL2Array, dominant: Dominants,
                                     counters: seq<Counters>)

  function InitShadow(n: nat): ShadowState {
    ShadowState(seq(n, _ => seq(L1_SETS, _ => EmptyWays(NUM_L1_WAYS))),
                seq(L2_SETS, _ => EmptyWays(NUM_L2_WAYS)),
                seq(L2_SETS, _ => Invalid),
                seq(n, _ => Counters(0, 0, 0, 0, 0)))
  }

  /** The array bounds an event must respect; every event the simulator emits does. */
  predicate EventFits(e: Event, n: nat) {
    && (e.level == 1 ==> e.core < n && e.index < L1_SETS && e.way < NUM_L1_WAYS)
    && (e.level == 2 ==> e.index < L2_SETS && e.way < NUM_L2_WAYS)
  }

  function Tally(k: Counters, etype: EventType, delta: int): Counters {
    match etype
    case L1dHit => k.(l1dHits := k.l1dHits + delta)
    case L2Hit => k.(l2Hits := k.l2Hits + delta)
    case MemFetch => k.(memFetches := k.memFetches + delta)
    case SnoopDowngrade | SnoopInvalidate => k.(snoops := k.snoops + delta)
    case PrefetchL2 => k.(prefetches := k.prefetches + delta)
    case _ => k
  }

  /** update_counters_forward (delta = 1) and update_counters_backward (delta = -1). */
  function Counted(counters: seq<Counters>, e: Event, delta: int): (r: seq<Counters>)
    ensures |r| == |counters|
  {
    if e.core >= |counters| then counters
    else counters[e.core := Tally(counters[e.core], e.etype, delta)]
  }

  function Priority(state: Mesi): nat {
    match state
    case Modified => 3
    case Exclusive => 2
    case Shared => 1
    case Invalid => 0
  }

  /** The loop of recompute_l2_dominant from way w on. */
  function DominantFrom(states: seq<Mesi>, w: nat, dom: Mesi): (r: Mesi)
    requires w <= |states|
    ensures Priority(r) >= Priority(dom)
    ensures forall v :: w <= v < |states| ==> Priority(states[v]) <= Priority(r)
    ensures r == dom || r in states[w..]
    decreases |states| - w
  {
    if w == |states| then dom
    else
      var r := DominantFrom(states, w + 1, if Priority(states[w]) > Priority(dom) then states[w] else dom);
      assert states[w..] == [states[w]] + states[w + 1..];
      r
  }

  function Dominant(states: seq<Mesi>): Mesi { DominantFrom(states, 0, Invalid) }

  function SetWay(set0: ShadowWays, w: nat, state: Mesi): (r: ShadowWays)
    requires w < |set0.state|
    ensures |r.state| == |set0.state| && |r.tag| == |set0.tag| && |r.data| == |set0.data|
  {
    set0.(state := set0.state[w := state])
  }

  function SetData(set0: ShadowWays, w: nat, data: Option<Line>): (r: ShadowWays)
    requires w < |set0.data|
    ensures |r.state| == |set0.state| && |r.tag| == |set0.tag| && |r.data| == |set0.data|
  {
    if data.Some? then set0.(data := set0.data[w := data.value]) else set0
  }

  function SetTag(set0: ShadowWays, w: nat, address: nat): (r: ShadowWays)
    requires w < |set0.tag|
    ensures |r.state| == |set0.state| && |r.tag| == |set0.tag| && |r.data| == |set0.data|
  {
    set0.(tag := set0.tag[w := address])
  }

  function Forward1(set0: ShadowL1, e: Event): ShadowL1
    requires e.way < NUM_L1_WAYS
  {
    match e.etype
    case L1dFill => SetData(SetWay(SetTag(set0, e.way, e.address), e.way, e.newState), e.way, e.data)
    case L1dEvict | SnoopInvalidate => SetWay(set0, e.way, Invalid)
    case L1dHit | SnoopDowngrade => SetData(SetWay(set0, e.way, e.newState), e.way, e.data)
    case _ => set0
  }

  function Forward2(set0: ShadowL2, e: Event): ShadowL2
    requires e.way < NUM_L2_WAYS
  {
    match e.etype
    case L2Fill | PrefetchL2 => SetData(SetWay(SetTag(set0, e.way, e.address), e.way, e.newState), e.way, e.data)
    case L2Evict => SetWay(set0, e.way, Invalid)
    case L2Hit => SetWay(set0, e.way, e.newState)
    case _ => set0
  }

  function Backward1(set0: ShadowL1, e: Event): ShadowL1
    requires e.way < NUM_L1_WAYS
  {
    match e.etype
    case L1dFill => SetWay(set0, e.way, Invalid)
    case L1dEvict =>
      var set1 := SetWay(set0, e.way, e.oldState);
      if e.data.Some? then SetData(SetTag(set1, e.way, e.address), e.way, e.data) else set1
    case SnoopInvalidate | SnoopDowngrade | L1dHit => SetWay(set0, e.way, e.oldState)
    case _ => set0
  }

  function Backward2(set0: ShadowL2, e: Event): ShadowL2
    requires e.way < NUM_L2_WAYS
  {
    match e.etype
    case L2Fill | PrefetchL2 => SetWay(set0, e.way, Invalid)
    case L2Evict =>
      var set1 := SetWay(set0, e.way, e.oldState);
      if e.data.Some? then SetData(SetTag(set1, e.way, e.address), e.way, e.data) else set1
    case L2Hit => SetWay(set0, e.way, e.oldState)
    case _ => set0
  }

  function PutShadow1(sh: ShadowState, c: nat, i: nat, set0: ShadowL1): (r: ShadowState)
    requires c < |sh.l1d| && i < L1_SETS
    ensures |r.l1d| == |sh.l1d|
  {
    sh.(l1d := sh.l1d[c := sh.l1d[c][i := set0]])
  }

  function PutShadow2(sh: ShadowState, k: nat, set0: ShadowL2): ShadowState
    requires k < L2_SETS
  {
    sh.(l2 := sh.l2[k := set0], dominant := sh.dominant[k := Dominant(set0.state)])
  }

  /** apply_event_forward */
  function ApplyForward(sh: ShadowState, e: Event): (r: ShadowState)
    requires EventFits(e, |sh.l1d|)
    ensures |r.l1d| == |sh.l1d| && |r.counters| == |sh.counters|
  {
    var sh1 := sh.(counters := Counted(sh.counters, e, 1));
    if e.level == 1 then PutShadow1(sh1, e.core, e.index, Forward1(sh.l1d[e.core][e.index], e))
    else if e.level == 2 then PutShadow2(sh1, e.index, Forward2(sh.l2[e.index], e))
    else sh1
  }

  /** apply_event_backward */
  function ApplyBackward(sh: ShadowState, e: Event): (r: ShadowState)
    requires EventFits(e, |sh.l1d|)
    ensures |r.l1d| == |sh.l1d| && |r.counters| == |sh.counters|
  {
    var sh1 := sh.(counters := Counted(sh.counters, e, -1));
    if e.level == 1 then PutShadow1(sh1, e.core, e.index, Backward1(sh.l1d[e.core][e.index], e))
    else if e.level == 2 then PutShadow2(sh1, e.index, Backward2(sh.l2[e.index], e))
    else sh1
  }

  predicate AllEventsFit(log: seq<Event>, n: nat) { forall i :: 0 <= i < |log| ==> EventFits(log[i], n) }

  /** The shadow after a whole trace. */
  function Replay(n: nat, log: seq<Event>): (r: ShadowState)
    requires AllEventsFit(log, n)
    ensures |r.l1d| == |r.counters| == n
    decreases |log|
  {
    if log == [] then InitShadow(n) else ApplyForward(Replay(n, log[..|log| - 1]), log[|log| - 1])
  }

  // ---------------------------------------------------------------------------
  // Undoing
  // ---------------------------------------------------------------------------

  /** Which ways are valid; backward steps do not restore the L2 states themselves. */
  function Occupied(states: seq<Mesi>): (r: seq<bool>)
    ensures |r| == |states|
  {
    seq(|states|, w requires 0 <= w < |states| => states[w] != Invalid)
  }

  /** The parts that backward steps restore: L1D states, L2 occupancy and counters. */
  ghost predicate Alike(a: ShadowState, b: ShadowState) {
    && |a.l1d| == |b.l1d| && a.counters == b.counters
    && (forall c: nat, i: nat :: c < |a.l1d| && i < L1_SETS ==> a.l1d[c][i].state == b.l1d[c][i].state)
    && (forall k: nat :: k < L2_SETS ==> Occupied(a.l2[k].state) == Occupied(b.l2[k].state))
  }

  /** What an event records of the state it changes: the old state of its way in L1D, and
      whether the way was occupied in L2. */
  predicate Undoable(sh: ShadowState, e: Event)
    requires EventFits(e, |sh.l1d|)
  {
    && (e.level == 1 ==>
          match e.etype
          case L1dFill => sh.l1d[e.core][e.index].state[e.way] == Invalid
          case L1dEvict | SnoopInvalidate | SnoopDowngrade | L1dHit =>
            sh.l1d[e.core][e.index].state[e.way] == e.oldState
          case _ => true)
    && (e.level == 2 ==>
          match e.etype
          case L2Fill | PrefetchL2 => sh.l2[e.index].state[e.way] == Invalid
          case L2Evict => sh.l2[e.index].state[e.way] != Invalid && e.oldState != Invalid
          case L2Hit => sh.l2[e.index].state[e.way] != Invalid && e.oldState != Invalid && e.newState != Invalid
          case _ => true)
  }

  /** A backward step undoes the forward step of the same event. */
  lemma BackwardUndoes(sh: ShadowState, e: Event)
    requires EventFits(e, |sh.l1d|) && Undoable(sh, e)
    ensures Alike(ApplyBackward(ApplyForward(sh, e), e), sh)
  {
    var r := ApplyBackward(ApplyForward(sh, e), e);
    CountedBack(sh.counters, e);
    if e.level == 1 {
      assert r.l1d[e.core][e.index].state == sh.l1d[e.core][e.index].state;
    } else if e.level == 2 {
      assert Occupied(r.l2[e.index].state) == Occupied(sh.l2[e.index].state);
    }
  }

  lemma CountedBack(counters: seq<Counters>, e: Event)
    ensures Counted(Counted(counters, e, 1), e, -1) == counters
  {
  }

  /** Backward steps look at no more than the parts they restore. */
  lemma BackwardAlike(a: ShadowState, b: ShadowState, e: Event)
    requires EventFits(e, |a.l1d|) && Alike(a, b)
    ensures Alike(ApplyBackward(a, e), ApplyBackward(b, e))
  {
    hide Occupied, Dominant, Backward2;
    if e.level == 1 {
      assert a.l1d[e.core][e.index].state == b.l1d[e.core][e.index].state;
    } else if e.level == 2 {
      BackwardOccupied(a.l2[e.index], b.l2[e.index], e);
    }
  }

  lemma BackwardOccupied(a: ShadowL2, b: ShadowL2, e: Event)
    requires e.way < NUM_L2_WAYS && Occupied(a.state) == Occupied(b.state)
    ensures Occupied(Backward2(a, e).state) == Occupied(Backward2(b, e).state)
  {
    forall v | 0 <= v < NUM_L2_WAYS ensures Occupied(Backward2(a, e).state)[v] == Occupied(Backward2(b, e).state)[v] {
      assert Occupied(a.state)[v] == Occupied(b.state)[v];
    }
  }

  ghost predicate AllUndoable(n: nat, log: seq<Event>)
    requires AllEventsFit(log, n)
    decreases |log|
  {
    log == [] || (AllUndoable(n, log[..|log| - 1]) && Undoable(Replay(n, log[..|log| - 1]), log[|log| - 1]))
  }

  /** Over two events the line may be lost: a snoop takes a way away and a fill takes it again.
      Stepping back over both shows the old state, and the old line exactly when the fill was
      of the same line, for the snoop event brings back no address. */
  lemma InvalidatedLineComesBack(sh: ShadowState, e: Event, f: Event)
    requires EventFits(e, |sh.l1d|) && e.level == 1 && e.etype == SnoopInvalidate
    requires f.level == 1 && f.etype == L1dFill && f.core == e.core && f.index == e.index && f.way == e.way
    requires sh.l1d[e.core][e.index].state[e.way] == e.oldState
    ensures EventFits(f, |sh.l1d|)
    ensures var r := ApplyBackward(ApplyBackward(ApplyForward(ApplyForward(sh, e), f), f), e);
            var was, now := sh.l1d[e.core][e.index], r.l1d[e.core][e.index];
            && now.state == was.state
            && (now.tag[e.way] / 64 == was.tag[e.way] / 64 <==> f.address / 64 == was.tag[e.way] / 64)
  {
    hide Counted;
    var was := sh.l1d[e.core][e.index];
    assert was.state[e.way := Invalid][e.way := f.newState][e.way := Invalid][e.way := e.oldState] == was.state;
  }

  // ---------------------------------------------------------------------------
  // Counting
  // ---------------------------------------------------------------------------

  /** Which events of a trace are core c's and of one of the kinds. */
  function Chosen(log: seq<Event>, c: nat, kinds: set<EventType>): set<int> {
    set i | 0 <= i < |log| && log[i].core == c && log[i].etype in kinds
  }

  function Occurrences(log: seq<Event>, c: nat, kinds: set<EventType>): nat { |Chosen(log, c, kinds)| }

  lemma OneMore(log: seq<Event>, c: nat, kinds: set<EventType>)
    requires log != []
    ensures var front, e := log[..|log| - 1], log[|log| - 1];
            var more := if e.core == c && e.etype in kinds then 1 else 0;
            Occurrences(log, c, kinds) == Occurrences(front, c, kinds) + more
  {
    var n := |log| - 1;
    if log[n].core == c && log[n].etype in kinds {
      assert Chosen(log, c, kinds) == Chosen(log[..n], c, kinds) + {n};
    } else {
      assert Chosen(log, c, kinds) == Chosen(log[..n], c, kinds);
    }
  }

  /** After any trace, each counter shown for a core is the number of the core's events of the
      counter's kinds. */
  lemma {:induction false} CountersCount(n: nat, log: seq<Event>, c: nat)
    requires AllEventsFit(log, n) && c < n
    ensures Replay(n, log).counters[c]
         == Counters(Occurrences(log, c, {L1dHit}), Occurrences(log, c, {L2Hit}), Occurrences(log, c, {MemFetch}),
                     Occurrences(log, c, {SnoopDowngrade, SnoopInvalidate}), Occurrences(log, c, {PrefetchL2}))
    decreases |log|
  {
    hide ApplyForward, Occurrences;
    if log == [] {
      NoOccurrences(c);
    } else {
      CountersCount(n, log[..|log| - 1], c);
      LastCounted(n, log, c);
      OneMore(log, c, {L1dHit});
      OneMore(log, c, {L2Hit});
      OneMore(log, c, {MemFetch});
      OneMore(log, c, {SnoopDowngrade, SnoopInvalidate});
      OneMore(log, c, {PrefetchL2});
    }
  }

  lemma LastCounted(n: nat, log: seq<Event>, c: nat)
    requires AllEventsFit(log, n) && c < n && log != []
    ensures var front, e := log[..|log| - 1], log[|log| - 1];
            var was := Replay(n, front).counters[c];
            Replay(n, log).counters[c] == if e.core == c then Tally(was, e.etype, 1) else was
  {
    hide Forward1, Forward2, Dominant;
  }

  lemma NoOccurrences(c: nat)
    ensures forall kinds: set<EventType> :: Occurrences([], c, kinds) == 0
  {
    forall kinds: set<EventType> ensures Occurrences([], c, kinds) == 0 { assert Chosen([], c, kinds) == {}; }
  }

  /** The dominant state shown for a set is always the strongest of its ways. */
  lemma {:induction false} DominantIsStrongest(n: nat, log: seq<Event>, k: nat)
    requires AllEventsFit(log, n) && k < L2_SETS
    ensures var sh := Replay(n, log);
            && (forall w :: 0 <= w < NUM_L2_WAYS ==> Priority(sh.l2[k].state[w]) <= Priority(sh.dominant[k]))
            && (sh.dominant[k] == Invalid || sh.dominant[k] in sh.l2[k].state)
    decreases |log|
  {
    if log == [] {
    } else {
      var front, e := log[..|log| - 1], log[|log| - 1];
      DominantIsStrongest(n, front, k);
      if e.level == 2 && e.index == k {
        var states := Forward2(Replay(n, front).l2[k], e).state;
        assert states[0..] == states;
      }
    }
  }
}
