/** What the shadow shows of an L2 way: state, bytes and line of the way's last event, and for
    the ways that a call fills, the real ones. */
module Shown {
  import opened Types
  import opened Coherence
  import opened Caches
  import opened Projection
  import opened Snoops
  import opened Flat
  import opened Prefetch
  import opened Losses
  import opened Machine
  import opened Arrivals
  import opened Shadow
  import C = Calls
  import S = SecondLevel
  import Plru

  // ---------------------------------------------------------------------------
  // Any trace
  // ---------------------------------------------------------------------------

  predicate IsFill(e: Event) { e.etype == L2Fill || e.etype == PrefetchL2 }

  predicate About(e: Event, k: nat, w: nat) { e.level == 2 && e.index == k && e.way == w }

  /** An event that decides the state shown for way w of L2 set k. */
  predicate SetsState(e: Event, k: nat, w: nat) {
    About(e, k, w) && (IsFill(e) || e.etype == L2Hit || e.etype == L2Evict)
  }

  /** An event that decides the bytes shown. */
  predicate SetsBytes(e: Event, k: nat, w: nat) { About(e, k, w) && IsFill(e) && e.data.Some? }

  /** An event that decides the line shown. */
  predicate SetsLine(e: Event, k: nat, w: nat) { About(e, k, w) && IsFill(e) }

  lemma {:induction false} StateIsLast(n: nat, log: seq<Event>, k: nat, w: nat, j: nat)
    requires AllEventsFit(log, n) && k < L2_SETS && w < NUM_L2_WAYS && j < |log| && SetsState(log[j], k, w)
    requires forall i: nat :: j < i < |log| ==> !SetsState(log[i], k, w)
    ensures Replay(n, log).l2[k].state[w] == if log[j].etype == L2Evict then Invalid else log[j].newState
    decreases |log|
  {
    hide Dominant;
    if j == |log| - 1 {
    } else {
      var front := log[..|log| - 1];
      assert front[j] == log[j] && !SetsState(log[|log| - 1], k, w);
      StateIsLast(n, front, k, w, j);
    }
  }

  /** An L2 way of which no event tells is shown INVALID. */
  lemma {:induction false} StateUnset(n: nat, log: seq<Event>, k: nat, w: nat)
    requires AllEventsFit(log, n) && k < L2_SETS && w < NUM_L2_WAYS
    requires forall i: nat :: i < |log| ==> !SetsState(log[i], k, w)
    ensures Replay(n, log).l2[k].state[w] == Invalid
    decreases |log|
  {
    hide Dominant;
    if log == [] {
    } else {
      assert !SetsState(log[|log| - 1], k, w);
      StateUnset(n, log[..|log| - 1], k, w);
    }
  }

  lemma {:induction false} BytesAreLast(n: nat, log: seq<Event>, k: nat, w: nat, j: nat)
    requires AllEventsFit(log, n) && k < L2_SETS && w < NUM_L2_WAYS && j < |log| && SetsBytes(log[j], k, w)
    requires forall i: nat :: j < i < |log| ==> !SetsBytes(log[i], k, w)
    ensures Replay(n, log).l2[k].data[w] == log[j].data.value
    decreases |log|
  {
    hide Dominant;
    if j == |log| - 1 {
    } else {
      var front := log[..|log| - 1];
      assert front[j] == log[j] && !SetsBytes(log[|log| - 1], k, w);
      BytesAreLast(n, front, k, w, j);
    }
  }

  lemma {:induction false} LineIsLast(n: nat, log: seq<Event>, k: nat, w: nat, j: nat)
    requires AllEventsFit(log, n) && k < L2_SETS && w < NUM_L2_WAYS && j < |log| && SetsLine(log[j], k, w)
    requires forall i: nat :: j < i < |log| ==> !SetsLine(log[i], k, w)
    ensures Replay(n, log).l2[k].tag[w] == log[j].address
    decreases |log|
  {
    hide Dominant;
    if j == |log| - 1 {
    } else {
      var front := log[..|log| - 1];
      assert front[j] == log[j] && !SetsLine(log[|log| - 1], k, w);
      LineIsLast(n, front, k, w, j);
    }
  }

  // ---------------------------------------------------------------------------
  // Emitted events
  // ---------------------------------------------------------------------------

  /** Event j of the later log is new, and is stamped like the rest of the call. */
  predicate NewAt(s: State, s': State, j: nat) { |s.log| <= j < |s'.log| && s'.log[j].seqno == s.stamp }

  ghost predicate Extends(s: State, s': State) {
    && s.log <= s'.log && s'.stamp == s.stamp
    && forall j: nat :: |s.log| <= j < |s'.log| ==> NewAt(s, s', j)
  }

  ghost predicate NoFills(s: State, s': State) {
    Extends(s, s') && forall j: nat :: NewAt(s, s', j) ==> !IsFill(s'.log[j])
  }

  /** L2 set k is as it was, and no new event is about it. */
  ghost predicate Elsewhere(s: State, s': State, k: nat) {
    && Extends(s, s') && k < L2_SETS && s'.l2[k] == s.l2[k]
    && forall j: nat :: NewAt(s, s', j) && s'.log[j].level == 2 ==> s'.log[j].index != k
  }

  /** The way that the event names holds the event's line, in its new state, with its bytes. */
  predicate Real(s: State, e: Event) {
    && e.level == 2 && e.index < L2_SETS && e.way < NUM_L2_WAYS
    && e.newState == s.l2[e.index].state[e.way]
    && e.data == Some(s.l2[e.index].data[e.way])
    && e.address == 64 * (s.l2[e.index].tag[e.way] * 4096 + e.index)
  }

  /** Event j is the last to decide the state of its way. */
  ghost predicate LastSet(log: seq<Event>, j: nat) {
    j < |log| && forall i: nat :: j < i < |log| ==> !SetsState(log[i], log[j].index, log[j].way)
  }

  ghost predicate RealAt(s: State, j: nat) { j < |s.log| && Real(s, s.log[j]) && LastSet(s.log, j) }

  /** Every fill that was reported is as reported. */
  ghost predicate FillsReal(s: State, s': State) {
    Extends(s, s') && forall j: nat :: NewAt(s, s', j) && IsFill(s'.log[j]) ==> RealAt(s', j)
  }

  lemma ExtendsTwice(s: State, s1: State, s2: State)
    requires Extends(s, s1) && Extends(s1, s2)
    ensures Extends(s, s2)
    ensures forall j: nat :: j < |s1.log| ==> s2.log[j] == s1.log[j]
    ensures forall j: nat :: NewAt(s, s2, j) ==> NewAt(s, s1, j) || NewAt(s1, s2, j)
  {
    forall j: nat | |s.log| <= j < |s2.log| ensures NewAt(s, s2, j) {
      if j < |s1.log| { assert NewAt(s, s1, j) && s2.log[j] == s1.log[j]; } else { assert NewAt(s1, s2, j); }
    }
  }

  lemma NoFillsTwice(s: State, s1: State, s2: State)
    requires NoFills(s, s1) && NoFills(s1, s2)
    ensures NoFills(s, s2)
  {
    ExtendsTwice(s, s1, s2);
  }

  lemma ElsewhereTwice(s: State, s1: State, s2: State, k: nat)
    requires Elsewhere(s, s1, k) && Elsewhere(s1, s2, k)
    ensures Elsewhere(s, s2, k)
  {
    ExtendsTwice(s, s1, s2);
  }

  /** No event. */
  lemma SilentExtends(s: State, s': State)
    requires s'.log == s.log && s'.stamp == s.stamp
    ensures NoFills(s, s') && FillsReal(s, s')
    ensures forall k: nat :: k < L2_SETS && s'.l2[k] == s.l2[k] ==> Elsewhere(s, s', k)
  {
  }

  /** One event. */
  lemma OneExtends(s: State, s': State)
    requires |s'.log| == |s.log| + 1 && s.log <= s'.log && s'.stamp == s.stamp && s'.log[|s.log|].seqno == s.stamp
    ensures Extends(s, s') && (!IsFill(s'.log[|s.log|]) ==> NoFills(s, s'))
    ensures forall k: nat ::
              k < L2_SETS && s'.l2[k] == s.l2[k] && (s'.log[|s.log|].level == 2 ==> s'.log[|s.log|].index != k) ==>
                Elsewhere(s, s', k)
  {
  }

  lemma NoFillsReal(s: State, s1: State, s2: State)
    requires NoFills(s, s1) && FillsReal(s1, s2)
    ensures FillsReal(s, s2)
  {
    ExtendsTwice(s, s1, s2);
  }

  lemma RealNoFills(s: State, s': State)
    requires NoFills(s, s')
    ensures FillsReal(s, s')
  {
  }

  /** Fills of set k, then events elsewhere. */
  lemma FillsTwice(s: State, s1: State, s2: State, k: nat)
    requires FillsReal(s, s1) && FillsReal(s1, s2) && Elsewhere(s1, s2, k)
    requires forall j: nat :: NewAt(s, s1, j) && IsFill(s1.log[j]) ==> s1.log[j].index == k
    ensures FillsReal(s, s2)
  {
    ExtendsTwice(s, s1, s2);
    forall j: nat | NewAt(s, s2, j) && IsFill(s2.log[j]) ensures RealAt(s2, j) {
      if NewAt(s, s1, j) {
        assert RealAt(s1, j);
        StaysLast(s, s1, s2, j, k);
      }
    }
  }

  lemma StaysLast(s: State, s1: State, s2: State, j: nat, k: nat)
    requires Extends(s1, s2) && Elsewhere(s1, s2, k) && RealAt(s1, j) && s1.log[j].index == k
    ensures RealAt(s2, j)
  {
    assert s2.log[j] == s1.log[j];
    forall i: nat | j < i < |s2.log| ensures !SetsState(s2.log[i], s2.log[j].index, s2.log[j].way) {
      if i < |s1.log| { assert s2.log[i] == s1.log[i]; } else { assert NewAt(s1, s2, i); }
    }
  }

  // ---------------------------------------------------------------------------
  // Snoops and evictions fill nothing
  // ---------------------------------------------------------------------------

  lemma {:induction false} DowngradePeersNoFills(s: State, sharers: set<nat>, n: nat, w2: nat, line: Line)
    requires w2 < NUM_L2_WAYS
    ensures NoFills(s, DowngradePeers(s, sharers, n, w2, line).0)
    decreases sharers
  {
    hide NoFills;
    if sharers == {} {
      SilentExtends(s, s);
    } else {
      var c := LowestBit(sharers);
      var (s1, line1) := DowngradePeer(s, c, n, w2, line);
      if s1.log == s.log { SilentExtends(s, s1); } else { OneExtends(s, s1); }
      hide DowngradePeer;
      DowngradePeersNoFills(s1, sharers - {c}, n, w2, line1);
      NoFillsTwice(s, s1, DowngradePeers(s1, sharers - {c}, n, w2, line1).0);
    }
  }

  lemma {:induction false} InvalidatePeersNoFills(s: State, sharers: set<nat>, n: nat, w2: nat, line: Line)
    requires w2 < NUM_L2_WAYS
    ensures NoFills(s, InvalidatePeers(s, sharers, n, w2, line).0)
    decreases sharers
  {
    hide NoFills;
    if sharers == {} {
      SilentExtends(s, s);
    } else {
      var c := LowestBit(sharers);
      var (s1, line1) := InvalidatePeer(s, c, n, w2, line);
      if s1.log == s.log { SilentExtends(s, s1); } else { OneExtends(s, s1); }
      hide InvalidatePeer;
      InvalidatePeersNoFills(s1, sharers - {c}, n, w2, line1);
      NoFillsTwice(s, s1, InvalidatePeers(s1, sharers - {c}, n, w2, line1).0);
    }
  }

  lemma {:induction false} InvalidatePeersINoFills(s: State, sharers: set<nat>, n: nat)
    ensures NoFills(s, InvalidatePeersI(s, sharers, n))
    decreases sharers
  {
    hide NoFills;
    if sharers == {} {
      SilentExtends(s, s);
    } else {
      var s1 := InvalidatePeerI(s, LowestBit(sharers), n);
      if s1.log == s.log { SilentExtends(s, s1); } else { OneExtends(s, s1); }
      InvalidatePeersINoFills(s1, sharers - {LowestBit(sharers)}, n);
      NoFillsTwice(s, s1, InvalidatePeersI(s1, sharers - {LowestBit(sharers)}, n));
    }
  }

  lemma EvictL1NoFills(s: State, c: nat, instr: bool, i: nat)
    requires c < |s.cores| && i < L1_SETS && EvictL1(s, c, instr, i).Done?
    ensures NoFills(s, EvictL1(s, c, instr, i).value.0)
  {
    hide NoFills, L2WriteBack, L2Release, Plru.VictimFrom;
    var s' := EvictL1(s, c, instr, i).value.0;
    if s' == s { SilentExtends(s, s'); } else { OneExtends(s, s'); }
  }

  lemma BackInvalidateCoreAt(s: State, c: nat, dm: set<nat>, im: set<nat>, n: nat, v: nat, k: nat)
    requires v < NUM_L2_WAYS && BackInvalidateCore(s, c, dm, im, n, v).Done?
    ensures var s' := BackInvalidateCore(s, c, dm, im, n, v).value;
            NoFills(s, s') && (k < L2_SETS && k != n % 4096 ==> Elsewhere(s, s', k))
  {
    hide NoFills, Elsewhere;
    var s1 := if c in dm then BackInvalidateD(s, c, n, v).value else s;
    if c in dm { OneExtends(s, s1); } else { SilentExtends(s, s1); }
    var s2 := BackInvalidateCore(s, c, dm, im, n, v).value;
    if c in im { OneExtends(s1, s2); } else { SilentExtends(s1, s2); }
    NoFillsTwice(s, s1, s2);
    if k < L2_SETS && k != n % 4096 { ElsewhereTwice(s, s1, s2, k); }
  }

  lemma {:induction false} BackInvalidateAt(s: State, all: set<nat>, dm: set<nat>, im: set<nat>, n: nat, v: nat, k: nat)
    requires v < NUM_L2_WAYS && BackInvalidate(s, all, dm, im, n, v).Done?
    ensures var s' := BackInvalidate(s, all, dm, im, n, v).value;
            NoFills(s, s') && (k < L2_SETS && k != n % 4096 ==> Elsewhere(s, s', k))
    decreases all
  {
    hide NoFills, Elsewhere, BackInvalidateCore;
    SilentExtends(s, s);
    if all == {} {
    } else {
      var c := LowestBit(all);
      BackInvalidateCoreAt(s, c, dm, im, n, v, k);
      var s1 := BackInvalidateCore(s, c, dm, im, n, v).value;
      BackInvalidateAt(s1, all - {c}, dm, im, n, v, k);
      var s2 := BackInvalidate(s, all, dm, im, n, v).value;
      NoFillsTwice(s, s1, s2);
      if k < L2_SETS && k != n % 4096 { ElsewhereTwice(s, s1, s2, k); }
    }
  }

  lemma EvictL2At(s: State, i: nat, k: nat)
    requires i < L2_SETS && EvictL2(s, i).Done?
    ensures var s' := EvictL2(s, i).value.0;
            NoFills(s, s') && (k < L2_SETS && k != i ==> Elsewhere(s, s', k))
  {
    hide NoFills, Elsewhere, BackInvalidate, Plru.VictimFrom;
    SilentExtends(s, s);
    var l2 := s.l2[i];
    if FreeFrom(l2.state, 0) == NUM_L2_WAYS {
      var v := Plru.Victim(l2.plru);
      var n := l2.tag[v] * 4096 + i;
      assert n % 4096 == i;
      BackInvalidateAt(s, l2.dm[v] + l2.im[v], l2.dm[v], l2.im[v], n, v, k);
      var s1 := BackInvalidate(s, l2.dm[v] + l2.im[v], l2.dm[v], l2.im[v], n, v).value;
      var s2 := EvictL2(s, i).value.0;
      OneExtends(s1, s2);
      NoFillsTwice(s, s1, s2);
      if k < L2_SETS && k != i { ElsewhereTwice(s, s1, s2, k); }
    }
  }

  // ---------------------------------------------------------------------------
  // Prefetches
  // ---------------------------------------------------------------------------

  /** A prefetch reports a fill of its own set, and what it reports is real. */
  lemma PfFillReal(s: State, from: int, next: int, k: nat)
    requires PfFill(s, from, next).Done? && next % 64 == 0
    ensures var s' := PfFill(s, from, next).value.0;
            && FillsReal(s, s')
            && (forall j: nat :: NewAt(s, s', j) && IsFill(s'.log[j]) ==> s'.log[j].index == next / 64 % 4096)
            && (k < L2_SETS && (k != next / 64 % 4096 || s' == s) ==> Elsewhere(s, s', k))
  {
    hide EvictL2, Elsewhere, Plru.Update;
    SilentExtends(s, s);
    var s' := PfFill(s, from, next).value.0;
    if s' != s {
      var p: nat := next / 64;
      EvictL2At(s, p % 4096, k);
      var (s1, w) := EvictL2(s, p % 4096).value;
      assert |s'.log| == |s1.log| + 1;
      OneExtends(s1, s');
      PutIsReal(s1, s', p, w);
      NoFillsReal(s, s1, s');
      ExtendsTwice(s, s1, s');
      if k < L2_SETS && k != p % 4096 { ElsewhereTwice(s, s1, s', k); }
    } else {
      assert NoFills(s, s');
    }
  }

  /** The last event is a fill of the line that its way holds. */
  lemma PutIsReal(s: State, s': State, p: nat, w: nat)
    requires Extends(s, s') && |s'.log| == |s.log| + 1 && w < NUM_L2_WAYS
    requires var e, l2 := s'.log[|s.log|], s'.l2[p % 4096];
             && About(e, p % 4096, w) && e.address == 64 * p && l2.tag[w] == p / 4096
             && e.newState == l2.state[w] && e.data == Some(l2.data[w])
    ensures FillsReal(s, s')
  {
    assert p == p / 4096 * 4096 + p % 4096;
    assert LastSet(s'.log, |s.log|);
  }

  /** The lines of a burst lie ahead of its head. */
  lemma {:induction false} BurstAhead(size: nat, head: int, miss: int, stride: int, left: nat, p: nat)
    requires (stride == 1 || stride == -1) && head % LINE_SIZE == 0 && p in BurstLines(size, head, miss, stride, left)
    ensures (p - head / 64) * stride > 0 && p / 64 == head / 4096
    decreases left
  {
    if left == 0 || (head - miss) * stride >= PREFETCH_DISTANCE * LINE_SIZE {
    } else {
      var next := head + stride * LINE_SIZE;
      NextLineOver(head, stride);
      if next / 4096 != head / 4096 || next < LINE_SIZE || next + LINE_SIZE > size {
      } else if p != next / 64 {
        BurstAhead(size, next, miss, stride, left - 1, p);
        if stride == 1 {} else { assert stride == -1; }
      }
    }
  }

  /** Line p would not change set k: it goes elsewhere, or is there. */
  predicate Skips(s: State, p: nat, k: nat) { p % 4096 != k || L2WayOf(s, p) < NUM_L2_WAYS }

  lemma SkipsStill(s: State, s1: State, p: nat, k: nat)
    requires Skips(s, p, k) && Elsewhere(s, s1, k)
    ensures Skips(s1, p, k)
  {
  }

  /** A burst leaves every set alone that its lines do not change. */
  lemma {:induction false} BurstElsewhere(s: State, head: int, miss: int, stride: int, left: nat, k: nat)
    requires (stride == 1 || stride == -1) && head % LINE_SIZE == 0 && RunBurst(s, head, miss, stride, left).Done?
    requires k < L2_SETS && forall p: nat :: p in BurstLines(|s.mem|, head, miss, stride, left) ==> Skips(s, p, k)
    ensures Elsewhere(s, RunBurst(s, head, miss, stride, left).value.state, k)
    decreases left
  {
    hide PfFill, Elsewhere, FillsReal, Skips;
    SilentExtends(s, s);
    if left == 0 || (head - miss) * stride >= PREFETCH_DISTANCE * LINE_SIZE {
    } else {
      var next := head + stride * LINE_SIZE;
      NextLineOver(head, stride);
      var (s1, ok) := PfFill(s, head, next).value;
      PfFillShape(s, head, next);
      if ok {
        var all := BurstLines(|s.mem|, head, miss, stride, left);
        var rest := BurstLines(|s.mem|, next, miss, stride, left - 1);
        assert all == [next / 64] + rest;
        assert all[0] in all;
        SkippedFill(s, head, next, k);
        forall p: nat | p in rest ensures Skips(s1, p, k) { assert p in all; SkipsStill(s, s1, p, k); }
        BurstElsewhere(s1, next, miss, stride, left - 1, k);
        ElsewhereTwice(s, s1, RunBurst(s1, next, miss, stride, left - 1).value.state, k);
      }
    }
  }

  lemma SkippedFill(s: State, from: int, next: int, k: nat)
    requires PfFill(s, from, next).Done? && next % 64 == 0 && next >= 0 && k < L2_SETS && Skips(s, next / 64, k)
    ensures Elsewhere(s, PfFill(s, from, next).value.0, k)
  {
    hide EvictL2, Elsewhere, FillsReal, Plru.Update;
    PfFillReal(s, from, next, k);
  }

  lemma PfFillShape(s: State, from: int, next: int)
    requires PfFill(s, from, next).Done?
    ensures var (s', ok) := PfFill(s, from, next).value;
            && |s'.mem| == |s.mem| && (!ok ==> s' == s)
            && (ok ==> next / 4096 == from / 4096 && next >= LINE_SIZE && next + LINE_SIZE <= |s.mem|)
  {
    hide EvictL2;
    if next / 4096 == from / 4096 && next >= 64 && next + 64 <= |s.mem| {
      var p: nat := next / 64;
      if L2WayOf(s, p) == NUM_L2_WAYS { EvictL2Size(s, p % 4096); }
    }
  }

  lemma EvictL2Size(s: State, k: nat)
    requires k < L2_SETS && EvictL2(s, k).Done?
    ensures |EvictL2(s, k).value.0.mem| == |s.mem|
  {
    hide BackInvalidate, RetireL2, Plru.VictimFrom;
    var l2 := s.l2[k];
    if FreeFrom(l2.state, 0) == NUM_L2_WAYS {
      var v := Plru.Victim(l2.plru);
      BackInvalidateSize(s, l2.dm[v] + l2.im[v], l2.dm[v], l2.im[v], l2.tag[v] * 4096 + k, v);
    }
  }

  lemma {:induction false} BackInvalidateSize(s: State, all: set<nat>, dm: set<nat>, im: set<nat>, n: nat, v: nat)
    requires v < NUM_L2_WAYS && BackInvalidate(s, all, dm, im, n, v).Done?
    ensures BackInvalidate(s, all, dm, im, n, v).value.mem == s.mem
    decreases all
  {
    if all == {} {
    } else {
      var c := LowestBit(all);
      BackInvalidateSize(BackInvalidateCore(s, c, dm, im, n, v).value, all - {c}, dm, im, n, v);
    }
  }

  lemma {:induction false} BurstReal(s: State, head: int, miss: int, stride: int, left: nat)
    requires (stride == 1 || stride == -1) && head % LINE_SIZE == 0 && RunBurst(s, head, miss, stride, left).Done?
    ensures FillsReal(s, RunBurst(s, head, miss, stride, left).value.state)
    decreases left
  {
    hide PfFill, Elsewhere, FillsReal;
    SilentExtends(s, s);
    if left == 0 || (head - miss) * stride >= PREFETCH_DISTANCE * LINE_SIZE {
    } else {
      var next := head + stride * LINE_SIZE;
      NextLineOver(head, stride);
      var (s1, ok) := PfFill(s, head, next).value;
      PfFillShape(s, head, next);
      if ok {
        var k: nat := next / 64 % 4096;
        PfFillReal(s, head, next, k);
        BurstReal(s1, next, miss, stride, left - 1);
        forall p: nat | p in BurstLines(|s.mem|, next, miss, stride, left - 1) ensures Skips(s1, p, k) {
          BurstAhead(|s.mem|, next, miss, stride, left - 1, p);
          if p % 4096 == k { OneLinePerSet(p, next / 64); }
        }
        BurstElsewhere(s1, next, miss, stride, left - 1, k);
        FillsTwice(s, s1, RunBurst(s1, next, miss, stride, left - 1).value.state, k);
      }
    }
  }

  lemma StreamReal(s: State, c: nat, n: nat)
    requires Windowed(s) && c < |s.cores| && StreamOnMiss(s, c, 64 * n).Done?
    ensures FillsReal(s, StreamOnMiss(s, c, 64 * n).value)
  {
    hide RunBurst, FillsReal, BurstLines, Elsewhere, NoFills;
    var pf := s.cores[c].pf;
    var i := MatchFrom(pf.streams, 64 * n, 0);
    var s' := StreamOnMiss(s, c, 64 * n).value;
    SilentExtends(s, s);
    if i < NUM_STREAMS {
      var stream := Advanced(pf.streams[i], 64 * n);
      var stride := stream.direction.Sign();
      MatchStartsBurst(pf.streams[i], 64 * n);
      BurstReal(s, stream.prefetchHead, 64 * n, stride, PREFETCH_DISTANCE + 1);
      var b := RunBurst(s, stream.prefetchHead, 64 * n, stride, PREFETCH_DISTANCE + 1).value;
      RealThenSame(s, b.state, s');
    } else {
      RealThenSame(s, s, s');
    }
  }

  /** Bookkeeping after the fills. */
  lemma RealThenSame(s: State, s1: State, s2: State)
    requires FillsReal(s, s1) && s2.log == s1.log && s2.stamp == s1.stamp && s2.l2 == s1.l2
    ensures FillsReal(s, s2)
  {
    assert forall j: nat :: NewAt(s, s2, j) ==> NewAt(s, s1, j);
    assert forall j: nat :: RealAt(s1, j) ==> RealAt(s2, j);
    forall j: nat | |s.log| <= j < |s2.log| ensures NewAt(s, s2, j) { assert NewAt(s, s1, j); }
  }

  /** The set of line n, which is in L2, is left alone. */
  lemma StreamElsewhere(s: State, c: nat, n: nat)
    requires Windowed(s) && c < |s.cores| && StreamOnMiss(s, c, 64 * n).Done? && L2WayOf(s, n) < NUM_L2_WAYS
    ensures Elsewhere(s, StreamOnMiss(s, c, 64 * n).value, n % 4096)
  {
    hide RunBurst, BurstLines, Elsewhere, L2WayOf;
    var pf := s.cores[c].pf;
    var i := MatchFrom(pf.streams, 64 * n, 0);
    var s' := StreamOnMiss(s, c, 64 * n).value;
    if i < NUM_STREAMS {
      var stream := Advanced(pf.streams[i], 64 * n);
      var stride, head := stream.direction.Sign(), stream.prefetchHead;
      MatchStartsBurst(pf.streams[i], 64 * n);
      forall p: nat | p in BurstLines(|s.mem|, head, 64 * n, stride, PREFETCH_DISTANCE + 1)
        ensures Skips(s, p, n % 4096)
      {
        BurstOnPage(|s.mem|, head, n, stride, p);
        OneLinePerSet(p, n);
      }
      BurstElsewhere(s, head, 64 * n, stride, PREFETCH_DISTANCE + 1, n % 4096);
      var b := RunBurst(s, head, 64 * n, stride, PREFETCH_DISTANCE + 1).value;
      SilentExtends(b.state, s');
      ElsewhereTwice(s, b.state, s', n % 4096);
    } else {
      SilentExtends(s, s');
    }
  }

  lemma BurstOnPage(size: nat, head: int, n: nat, stride: int, p: nat)
    requires BurstStart(head, 64 * n, stride, PREFETCH_DISTANCE + 1)
    requires p in BurstLines(size, head, 64 * n, stride, PREFETCH_DISTANCE + 1)
    ensures p / 64 == n / 64
  {
    StartsOnPage(head, n, stride);
    BurstAhead(size, head, 64 * n, stride, PREFETCH_DISTANCE + 1, p);
  }

  // ---------------------------------------------------------------------------
  // Calls
  // ---------------------------------------------------------------------------

  /** What a data fill reports is real; a fetch reports none. */
  lemma InstallReal(s: State, c: nat, instr: bool, n: nat, w2: nat, w1: nat, line: Line, state: Mesi)
    requires c < |s.cores| && w2 < NUM_L2_WAYS && w1 < NUM_L1_WAYS
    requires InstallBoth(s, c, instr, n, w2, w1, line, state).Done?
    ensures var s' := InstallBoth(s, c, instr, n, w2, w1, line, state).value;
            && FillsReal(s, s')
            && (forall j: nat :: NewAt(s, s', j) && IsFill(s'.log[j]) ==> s'.log[j].index == n % 4096)
  {
    hide L1Fill, Plru.Update;
    var s' := InstallBoth(s, c, instr, n, w2, w1, line, state).value;
    assert n == n / 4096 * 4096 + n % 4096;
    if instr {
      SilentExtends(s, s');
    } else {
      assert |s'.log| == |s.log| + 3;
      assert IsFill(s'.log[|s.log|]) && !IsFill(s'.log[|s.log| + 1]) && !IsFill(s'.log[|s.log| + 2]);
      assert LastSet(s'.log, |s.log|);
      assert RealAt(s', |s.log|);
    }
  }

  lemma RoomReal(s: State, c: nat, instr: bool, n: nat, line: Line, state: Mesi)
    requires c < |s.cores|
    requires var r1 := MakeRoom(s, c, instr, n);
             && r1.Done?
             && InstallBoth(r1.value.0, c, instr, n, r1.value.1, r1.value.2, line, state).Done?
    ensures var (s1, w2, w1) := MakeRoom(s, c, instr, n).value;
            var s2 := InstallBoth(s1, c, instr, n, w2, w1, line, state).value;
            && FillsReal(s, s2)
            && (forall j: nat :: NewAt(s, s2, j) && IsFill(s2.log[j]) ==> s2.log[j].index == n % 4096)
  {
    hide EvictL1, EvictL2, InstallBoth;
    var (s1, w2, w1) := MakeRoom(s, c, instr, n).value;
    EvictL2At(s, n % 4096, 0);
    var t := EvictL2(s, n % 4096).value.0;
    EvictL1NoFills(t, c, instr, n % 64);
    NoFillsTwice(s, t, s1);
    InstallReal(s1, c, instr, n, w2, w1, line, state);
    var s2 := InstallBoth(s1, c, instr, n, w2, w1, line, state).value;
    NoFillsReal(s, s1, s2);
    ExtendsTwice(s, s1, s2);
  }

  lemma MissReal(s: State, c: nat, n: nat, line: Line, state: Mesi)
    requires Inv(s) && Windowed(s) && c < |s.cores| && Proj(s, n).l2.NotInL2? && InMemory(s.mem, n)
    requires state == Exclusive || state == Modified
    ensures var r1 := MakeRoom(s, c, false, n);
            && r1.Done?
            && var (s1, w2, w1) := r1.value;
               var r2 := InstallBoth(s1, c, false, n, w2, w1, line, state);
               && r2.Done?
               && var r3 := StreamOnMiss(r2.value, c, 64 * n);
                  r3.Done? && FillsReal(s, CountMem(r3.value, c))
  {
    hide Inv, Proj, MakeRoom, InstallBoth, StreamOnMiss, FillsReal, Elsewhere, L2WayOf;
    FillMates(s, c, false, n, line, state);
    S.InstalledInL2(s, c, false, n, line, state);
    RoomReal(s, c, false, n, line, state);
    var (s1, w2, w1) := MakeRoom(s, c, false, n).value;
    var s2 := InstallBoth(s1, c, false, n, w2, w1, line, state).value;
    L2WayProj(s2, n);
    WindowedRest(s, s2);
    StreamBrings(s2, c, n);
    StreamReal(s2, c, n);
    StreamElsewhere(s2, c, n);
    var s3 := StreamOnMiss(s2, c, 64 * n).value;
    FillsTwice(s, s2, s3, n % 4096);
    RealThenSame(s, s3, CountMem(s3, c));
  }

  lemma FetchMissReal(s: State, c: nat, n: nat)
    requires Inv(s) && c < |s.cores| && Proj(s, n).l2.NotInL2? && InMemory(s.mem, n)
    ensures var r := FetchFromMemory(s, c, n); r.Done? && FillsReal(s, r.value.0)
  {
    hide Inv, Proj, MakeRoom, InstallBoth, PfFill, FillsReal, Elsewhere;
    FillMates(s, c, true, n, MemLine(s.mem, n), Exclusive);
    C.MakeRoomStretch(s, c, true, n);
    var (s1, w2, w1) := MakeRoom(s, c, true, n).value;
    SameMemLine(s, s1, n);
    RoomReal(s, c, true, n, MemLine(s1.mem, n), Exclusive);
    var s2 := InstallBoth(s1, c, true, n, w2, w1, MemLine(s1.mem, n), Exclusive).value;
    PfFillBrings(s2, 64 * n, 64 * n + 64);
    PfFillReal(s2, 64 * n, 64 * n + 64, n % 4096);
    var (s3, ok) := PfFill(s2, 64 * n, 64 * n + 64).value;
    FillsTwice(s, s2, s3, n % 4096);
    RealThenSame(s, s3, CountMem(s3, c));
  }

  lemma ReadWayNoFills(s: State, c: nat, instr: bool, n: nat, w2: nat)
    requires c < |s.cores| && w2 < NUM_L2_WAYS
    ensures NoFills(s, ReadL2Way(s, c, instr, n, w2).0)
  {
    hide DowngradePeers, NoFills, L2Read;
    var line := s.l2[n % 4096].data[w2];
    var l2 := L2Read(s.l2[n % 4096], c, w2, instr);
    var s1 := PutL2(s, n % 4096, l2);
    var s2 := SetL2State(s1, n % 4096, w2, Shared);
    SilentExtends(s, s1);
    SilentExtends(s, s2);
    DowngradePeersNoFills(s2, l2.dm[w2] - {c}, n, w2, line);
    NoFillsTwice(s, s2, DowngradePeers(s2, l2.dm[w2] - {c}, n, w2, line).0);
  }

  /** The first event of the call says that core c hit L2, where, and in which state. */
  predicate HitFirst(s: State, s': State, c: nat, pa: nat, w: nat)
    requires w < NUM_L2_WAYS
  {
    var k := pa / 64 % 4096;
    && |s'.log| > |s.log|
    && s'.log[|s.log|] == Event(L2Hit, c, 2, k, w, pa, s.l2[k].state[w], s.l2[k].state[w], None, s.stamp)
  }

  lemma FirstStays(s: State, s': State, j: nat)
    requires NoFills(s, s') && j < |s.log|
    ensures j < |s'.log| && s'.log[j] == s.log[j]
  {
  }

  lemma ReadFromL2NoFills(s: State, c: nat, pa: nat, w2: nat)
    requires c < |s.cores| && w2 < NUM_L2_WAYS && ReadFromL2(s, c, pa, w2).Done?
    ensures NoFills(s, ReadFromL2(s, c, pa, w2).value.0) && HitFirst(s, ReadFromL2(s, c, pa, w2).value.0, c, pa, w2)
  {
    hide EvictL1, ReadL2Way, L1Fill, NoFills;
    var n := pa / 64;
    var state := s.l2[n % 4096].state[w2];
    var s0 := Emit(s, L2Hit, c, 2, n % 4096, w2, pa, state, state, None);
    OneExtends(s, s0);
    EvictL1NoFills(s0, c, false, n % 64);
    var (s1, w1) := EvictL1(s0, c, false, n % 64).value;
    ReadWayNoFills(s1, c, false, n, w2);
    var s2 := ReadL2Way(s1, c, false, n, w2).0;
    OneExtends(s2, ReadFromL2(s, c, pa, w2).value.0);
    NoFillsTwice(s0, s1, s2);
    NoFillsTwice(s0, s2, ReadFromL2(s, c, pa, w2).value.0);
    NoFillsTwice(s, s0, ReadFromL2(s, c, pa, w2).value.0);
    FirstStays(s0, ReadFromL2(s, c, pa, w2).value.0, |s.log|);
  }

  lemma FetchFromL2NoFills(s: State, c: nat, n: nat, w2: nat)
    requires c < |s.cores| && w2 < NUM_L2_WAYS && FetchFromL2(s, c, n, w2).Done?
    ensures NoFills(s, FetchFromL2(s, c, n, w2).value.0)
  {
    hide EvictL1, ReadL2Way, L1Fill, NoFills;
    EvictL1NoFills(s, c, true, n % 64);
    var (s1, w1) := EvictL1(s, c, true, n % 64).value;
    ReadWayNoFills(s1, c, true, n, w2);
    var s2 := ReadL2Way(s1, c, true, n, w2).0;
    NoFillsTwice(s, s1, s2);
    SilentExtends(s2, FetchFromL2(s, c, n, w2).value.0);
    NoFillsTwice(s, s2, FetchFromL2(s, c, n, w2).value.0);
  }

  lemma WriteHitNoFills(s: State, c: nat, pa: nat, w: nat, bytes: seq<byte>)
    requires c < |s.cores| && w < NUM_L1_WAYS && pa % 64 + |bytes| <= LINE_SIZE && WriteHit(s, c, pa, w, bytes).Done?
    ensures NoFills(s, WriteHit(s, c, pa, w, bytes).value)
  {
    hide InvalidatePeers, InvalidatePeersI, Patch, L1Write, NoFills, L2Own, L2Touch;
    var n, w2, s' := pa / 64, L2WayOf(s, pa / 64), WriteHit(s, c, pa, w, bytes).value;
    var sharers := s.l2[n % 4096].dm[w2] - {c};
    var t := InvalidatePeers(s, sharers, n, w2, ZeroLine()).0;
    var s1 := if s.cores[c].l1d[n % 64].state[w] == Shared then Upgrade(s, c, n, w2) else s;
    SilentExtends(s, s);
    if s.cores[c].l1d[n % 64].state[w] == Shared {
      InvalidatePeersNoFills(s, sharers, n, w2, ZeroLine());
      SilentExtends(t, s1);
      NoFillsTwice(s, t, s1);
    }
    var s2 := InvalidatePeersI(s1, s1.l2[n % 4096].im[w2], n);
    InvalidatePeersINoFills(s1, s1.l2[n % 4096].im[w2], n);
    NoFillsTwice(s, s1, s2);
    OneExtends(s2, s');
    NoFillsTwice(s, s2, s');
  }

  lemma WriteFromL2NoFills(s: State, c: nat, pa: nat, w2: nat, bytes: seq<byte>)
    requires c < |s.cores| && pa % 64 + |bytes| <= LINE_SIZE
    requires w2 < NUM_L2_WAYS && WriteFromL2(s, c, pa, w2, bytes).Done?
    ensures NoFills(s, WriteFromL2(s, c, pa, w2, bytes).value)
    ensures HitFirst(s, WriteFromL2(s, c, pa, w2, bytes).value, c, pa, w2)
  {
    hide InvalidatePeers, InvalidatePeersI, EvictL1, Patch, L1Fill, NoFills, L2Own, L2Touch;
    var n := pa / 64;
    var l2 := s.l2[n % 4096];
    var s0 := Emit(s, L2Hit, c, 2, n % 4096, w2, pa, l2.state[w2], l2.state[w2], None);
    OneExtends(s, s0);
    InvalidatePeersNoFills(s0, l2.dm[w2] - {c}, n, w2, l2.data[w2]);
    var (s1, newest) := InvalidatePeers(s0, l2.dm[w2] - {c}, n, w2, l2.data[w2]);
    EvictL1NoFills(s1, c, false, n % 64);
    var (s2, w1) := EvictL1(s1, c, false, n % 64).value;
    NoFillsTwice(s0, s1, s2);
    var line := Patch(newest, pa % 64, bytes);
    var s3 := PutL1(s2, c, false, n % 64, L1Fill(s2.cores[c].l1d[n % 64], n / 64, w1, line, Modified));
    var s4 := Emit(s3, L1dFill, c, 1, n % 64, w1, pa, Invalid, Modified, Some(line));
    OneExtends(s2, s4);
    NoFillsTwice(s0, s2, s4);
    var s5 := InvalidatePeersI(s4, s4.l2[n % 4096].im[w2], n);
    InvalidatePeersINoFills(s4, s4.l2[n % 4096].im[w2], n);
    NoFillsTwice(s0, s4, s5);
    SilentExtends(s5, WriteFromL2(s, c, pa, w2, bytes).value);
    NoFillsTwice(s0, s5, WriteFromL2(s, c, pa, w2, bytes).value);
    NoFillsTwice(s, s0, WriteFromL2(s, c, pa, w2, bytes).value);
    FirstStays(s0, WriteFromL2(s, c, pa, w2, bytes).value, |s.log|);
  }

  lemma ReadReal(s: State, c: nat, pa: nat, size: nat)
    requires Good(s) && c < |s.cores| && pa % 64 + size <= LINE_SIZE && Read(s, c, pa, size).Done?
    ensures FillsReal(s, Read(s, c, pa, size).value.0)
  {
    hide Inv, Windowed, Proj, ReadFromL2, MakeRoom, InstallBoth, StreamOnMiss, CountMem, L1Touch, L1WayOf, L2WayOf,
         FillsReal, NoFills;
    var n, s' := pa / 64, Read(s, c, pa, size).value.0;
    L2WayProj(s, n);
    if L1WayOf(s, c, false, n) < NUM_L1_WAYS {
      OneExtends(s, s');
      RealNoFills(s, s');
    } else if L2WayOf(s, n) < NUM_L2_WAYS {
      ReadFromL2NoFills(s, c, pa, L2WayOf(s, n));
      RealNoFills(s, s');
    } else {
      C.MakeRoomStretch(s, c, false, n);
      SameMemLine(s, MakeRoom(s, c, false, n).value.0, n);
      MissReal(s, c, n, MemLine(s.mem, n), Exclusive);
    }
  }

  lemma WriteReal(s: State, c: nat, pa: nat, bytes: seq<byte>)
    requires Good(s) && c < |s.cores| && pa % 64 + |bytes| <= LINE_SIZE && Write(s, c, pa, bytes).Done?
    ensures FillsReal(s, Write(s, c, pa, bytes).value)
  {
    hide Inv, Windowed, Proj, WriteFromL2, WriteHit, MakeRoom, InstallBoth, StreamOnMiss, CountMem, L1WayOf, L2WayOf,
         Patch, FillsReal, NoFills;
    var n, s' := pa / 64, Write(s, c, pa, bytes).value;
    L2WayProj(s, n);
    if L1WayOf(s, c, false, n) < NUM_L1_WAYS {
      WriteHitNoFills(s, c, pa, L1WayOf(s, c, false, n), bytes);
      RealNoFills(s, s');
    } else if L2WayOf(s, n) < NUM_L2_WAYS {
      WriteFromL2NoFills(s, c, pa, L2WayOf(s, n), bytes);
      RealNoFills(s, s');
    } else {
      MissReal(s, c, n, Patch(MemLine(s.mem, n), pa % 64, bytes), Modified);
    }
  }

  lemma FetchReal(s: State, c: nat, pa: nat, size: nat)
    requires Good(s) && c < |s.cores| && pa % 64 + size <= LINE_SIZE && Fetch(s, c, pa, size).Done?
    ensures FillsReal(s, Fetch(s, c, pa, size).value.0)
  {
    hide Inv, Windowed, Proj, FetchFromL2, FetchFromMemory, L1Touch, L1WayOf, L2WayOf, FillsReal, NoFills;
    var n, s' := pa / 64, Fetch(s, c, pa, size).value.0;
    L2WayProj(s, n);
    if L1WayOf(s, c, true, n) < NUM_L1_WAYS {
      SilentExtends(s, s');
    } else if L2WayOf(s, n) < NUM_L2_WAYS {
      FetchFromL2NoFills(s, c, n, L2WayOf(s, n));
      RealNoFills(s, s');
    } else if InMemory(s.mem, n) {
      FetchMissReal(s, c, n);
    } else {
      NoFetch(s, c, n);
    }
  }

  /** The shadow shows L2 way w of set k in the state, with the bytes and the line of the
      real way. */
  ghost predicate ShownAsIs(s: State, k: nat, w: nat)
    requires AllEventsFit(s.log, |s.cores|) && k < L2_SETS && w < NUM_L2_WAYS
  {
    var set0, l2 := Replay(|s.cores|, s.log).l2[k], s.l2[k];
    set0.state[w] == l2.state[w] && set0.data[w] == l2.data[w] && set0.tag[w] == 64 * (l2.tag[w] * 4096 + k)
  }

  /** A completed call only adds events to the trace, all with its own sequence number. After
      it, each L2 way for which it reported a fill or a prefetch is in the state and holds
      the line and the bytes of that report, and the shadow shows it as it is. */
  lemma FilledWaysAreShown(s: State, op: Op, j: nat)
    requires Good(s) && op.Fits(|s.cores|) && Step(s, op).Done?
    ensures var s' := Step(s, op).value.0;
            && s.log <= s'.log && |s'.cores| == |s.cores|
            && (|s.log| <= j < |s'.log| ==> s'.log[j].seqno == op.stamp)
            && (|s.log| <= j < |s'.log| && IsFill(s'.log[j]) ==>
                  && Real(s', s'.log[j])
                  && (AllEventsFit(s'.log, |s'.cores|) ==> ShownAsIs(s', s'.log[j].index, s'.log[j].way)))
  {
    hide Good, Read, Write, Fetch, FillsReal, Replay;
    var s0, s' := s.(stamp := op.stamp), Step(s, op).value.0;
    Restamped(s, op.stamp);
    match op.kind {
      case Load(size) => ReadReal(s0, op.core, op.pa, size);
      case Store(bytes) => WriteReal(s0, op.core, op.pa, bytes);
      case Fetching(size) => FetchReal(s0, op.core, op.pa, size);
    }
    if |s.log| <= j < |s'.log| {
      RealFill(s0, s', j);
      if IsFill(s'.log[j]) && AllEventsFit(s'.log, |s'.cores|) { RealIsShown(s', j); }
    } else {
      RealExtends(s0, s');
    }
  }

  lemma RealExtends(s: State, s': State)
    requires FillsReal(s, s')
    ensures s.log <= s'.log
  {
  }

  lemma RealFill(s: State, s': State, j: nat)
    requires FillsReal(s, s') && |s.log| <= j < |s'.log|
    ensures s.log <= s'.log && s'.log[j].seqno == s.stamp && (IsFill(s'.log[j]) ==> RealAt(s', j))
  {
    assert NewAt(s, s', j);
  }

  lemma RealIsShown(s: State, j: nat)
    requires RealAt(s, j) && IsFill(s.log[j]) && AllEventsFit(s.log, |s.cores|)
    ensures ShownAsIs(s, s.log[j].index, s.log[j].way)
  {
    hide Replay;
    var n, k, w := |s.cores|, s.log[j].index, s.log[j].way;
    assert SetsState(s.log[j], k, w);
    forall i: nat | j < i < |s.log| ensures !SetsState(s.log[i], k, w) {}
    StateIsLast(n, s.log, k, w, j);
    BytesAreLast(n, s.log, k, w, j);
    LineIsLast(n, s.log, k, w, j);
  }

  /** A load or a store that misses L1 and hits L2 reports first in which way, and in which
      state, it found its line. */
  lemma L2HitIsReported(s: State, op: Op)
    requires Good(s) && op.Fits(|s.cores|) && Step(s, op).Done? && !op.kind.Fetching?
    requires L1WayOf(s, op.core, false, op.pa / 64) == NUM_L1_WAYS && L2WayOf(s, op.pa / 64) < NUM_L2_WAYS
    ensures HitFirst(s.(stamp := op.stamp), Step(s, op).value.0, op.core, op.pa, L2WayOf(s, op.pa / 64))
  {
    hide ReadFromL2, WriteFromL2, NoFills, L1WayOf, L2WayOf;
    var s0, n := s.(stamp := op.stamp), op.pa / 64;
    C.SameL2Array(s, s0, n);
    C.SameL1Way(s, s0, op.core, false, n);
    match op.kind {
      case Load(size) => ReadFromL2NoFills(s0, op.core, op.pa, L2WayOf(s, n));
      case Store(bytes) => WriteFromL2NoFills(s0, op.core, op.pa, L2WayOf(s, n), bytes);
    }
  }
}
