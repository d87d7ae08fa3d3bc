/** The emitted trace: replayed forward it gives the caches back, and every event of it
    can be undone, if the caches were empty when recording began and no fetch emits too
    little or too much. */
module Trace {
  import opened Types
  import opened Coherence
  import opened Caches
  import opened Projection
  import opened Snoops
  import opened Sets
  import opened Flat
  import opened Prefetch
  import opened Machine
  import opened Runs
  import opened Shadow
  import C = Calls
  import Plru

  /** The shadow of an L1D set shows each way's state, and of each valid way the line
      and the bytes. */
  ghost predicate Matches1(l1: L1Set, set0: ShadowL1, i: nat) {
    && set0.state == l1.state
    && forall w: nat :: Valid(l1.state, w) ==> set0.tag[w] / 64 == l1.tag[w] * 64 + i && set0.data[w] == l1.data[w]
  }

  /** The shadow of an L2 set shows which ways are valid, and of each valid way the line. */
  ghost predicate Matches2(l2: L2Set, set0: ShadowL2, k: nat) {
    && (forall w: nat :: w < NUM_L2_WAYS ==> Valid(set0.state, w) == Valid(l2.state, w))
    && (forall w: nat :: Valid(l2.state, w) ==> set0.tag[w] / 64 == l2.tag[w] * 4096 + k)
  }

  ghost predicate Matches(s: State, sh: ShadowState) {
    && |sh.l1d| == |sh.counters| == |s.cores|
    && (forall c: nat, i: nat :: c < |s.cores| && i < L1_SETS ==> Matches1(s.cores[c].l1d[i], sh.l1d[c][i], i))
    && (forall k: nat :: k < L2_SETS ==> Matches2(s.l2[k], sh.l2[k], k))
  }

  /** The log so far replays to the present caches and can be taken back event by event. */
  ghost predicate Traced(s: State) {
    && AllEventsFit(s.log, |s.cores|)
    && Matches(s, Replay(|s.cores|, s.log))
    && AllUndoable(|s.cores|, s.log)
  }

  function Now(s: State): ShadowState
    requires AllEventsFit(s.log, |s.cores|)
  {
    Replay(|s.cores|, s.log)
  }

  /** How far the shadow's three counters are ahead of core c's own. */
  function Ahead(s: State, c: nat): (int, int, int)
    requires AllEventsFit(s.log, |s.cores|) && c < |s.cores|
  {
    var k, pmc := Now(s).counters[c], s.cores[c].pmc;
    (k.l1dHits - pmc.l1dHits, k.l2Hits - pmc.l2Hits, k.memFetches - pmc.memFetches)
  }

  ghost predicate CountersAgree(s: State)
    requires AllEventsFit(s.log, |s.cores|)
  {
    forall c: nat :: c < |s.cores| ==> Ahead(s, c) == (0, 0, 0)
  }

  ghost predicate SameL1d(s: State, s': State) {
    |s'.cores| == |s.cores| && forall c: nat :: c < |s.cores| ==> s'.cores[c].l1d == s.cores[c].l1d
  }

  ghost predicate SamePmc(s: State, s': State) {
    |s'.cores| == |s.cores| && forall c: nat :: c < |s.cores| ==> s'.cores[c].pmc == s.cores[c].pmc
  }

  /** A stretch that keeps the trace faithful and moves both sets of counters alike. */
  ghost predicate KeepsTrace(s: State, s': State) {
    && |s'.cores| == |s.cores| && Traced(s') && AllEventsFit(s.log, |s.cores|)
    && forall c: nat :: c < |s.cores| ==> Ahead(s', c) == Ahead(s, c)
  }

  lemma KeepsTwice(s: State, s1: State, s2: State)
    requires KeepsTrace(s, s1) && KeepsTrace(s1, s2)
    ensures KeepsTrace(s, s2)
  {
    hide Traced, Ahead, AllEventsFit;
  }

  /** Events that the three counters do not count. */
  predicate Uncounted(e: Event) { e.etype != L1dHit && e.etype != L2Hit && e.etype != MemFetch }

  // ---------------------------------------------------------------------------
  // One event
  // ---------------------------------------------------------------------------

  lemma ReplayPush(n: nat, log: seq<Event>, e: Event)
    requires AllEventsFit(log, n) && EventFits(e, n)
    ensures AllEventsFit(log + [e], n)
    ensures Replay(n, log + [e]) == ApplyForward(Replay(n, log), e)
    ensures AllUndoable(n, log) && Undoable(Replay(n, log), e) ==> AllUndoable(n, log + [e])
  {
    hide ApplyForward, Undoable;
    assert (log + [e])[..|log + [e]| - 1] == log;
  }

  /** No event: the L1D and the occupancy of L2 are as before. */
  lemma SilentKeeps(s: State, s': State)
    requires Traced(s) && s'.log == s.log && SameL1d(s, s') && SameL2Ways(s, s')
    ensures Traced(s') && (SamePmc(s, s') ==> KeepsTrace(s, s'))
  {
    hide AllUndoable, Replay, AllEventsFit;
  }

  /** An event about one L1D set. */
  lemma L1EventKeeps(s: State, s': State, e: Event)
    requires Traced(s) && e.level == 1 && EventFits(e, |s.cores|) && s'.log == s.log + [e]
    requires |s'.cores| == |s.cores| && SameL2Ways(s, s')
    requires forall c: nat, i: nat :: c < |s.cores| && i < L1_SETS && (c != e.core || i != e.index) ==>
               s'.cores[c].l1d[i] == s.cores[c].l1d[i]
    requires Undoable(Now(s), e)
    requires Matches1(s'.cores[e.core].l1d[e.index], Forward1(Now(s).l1d[e.core][e.index], e), e.index)
    ensures Traced(s') && (Uncounted(e) && SamePmc(s, s') ==> KeepsTrace(s, s'))
    ensures Now(s').counters == Counted(Now(s).counters, e, 1)
  {
    hide AllUndoable, Replay, AllEventsFit, Undoable, Forward1, Matches1, Matches2, WaysKept;
    ReplayPush(|s.cores|, s.log, e);
    forall k: nat | k < L2_SETS ensures Matches2(s'.l2[k], Now(s').l2[k], k) {
      OccupancyMatches(s.l2[k], s'.l2[k], Now(s).l2[k], k);
    }
  }

  lemma OccupancyMatches(l2: L2Set, l2': L2Set, set0: ShadowL2, k: nat)
    requires WaysKept(l2, l2') && Matches2(l2, set0, k)
    ensures Matches2(l2', set0, k)
  {
  }

  /** An event about one L2 set. */
  lemma L2EventKeeps(s: State, s': State, e: Event)
    requires Traced(s) && e.level == 2 && EventFits(e, |s.cores|) && s'.log == s.log + [e]
    requires SameL1d(s, s')
    requires forall k: nat :: k < L2_SETS && k != e.index ==> WaysKept(s.l2[k], s'.l2[k])
    requires Undoable(Now(s), e)
    requires Matches2(s'.l2[e.index], Forward2(Now(s).l2[e.index], e), e.index)
    ensures Traced(s') && (Uncounted(e) && SamePmc(s, s') ==> KeepsTrace(s, s'))
    ensures Now(s').counters == Counted(Now(s).counters, e, 1)
  {
    hide AllUndoable, Replay, AllEventsFit, Undoable, Forward2, Matches1, Matches2, WaysKept;
    ReplayPush(|s.cores|, s.log, e);
    forall k: nat | k < L2_SETS ensures Matches2(s'.l2[k], Now(s').l2[k], k) {
      if k != e.index { OccupancyMatches(s.l2[k], s'.l2[k], Now(s).l2[k], k); }
    }
  }

  /** An event that changes no shadow set. */
  lemma OtherEventKeeps(s: State, s': State, e: Event)
    requires Traced(s) && s'.log == s.log + [e] && SameL1d(s, s') && SameL2Ways(s, s')
    requires EventFits(e, |s.cores|) && (e.level == 3 || (e.level == 1 && e.etype == L1iSnoopInvalidate))
    ensures Traced(s') && (Uncounted(e) && SamePmc(s, s') ==> KeepsTrace(s, s'))
    ensures Now(s').counters == Counted(Now(s).counters, e, 1)
  {
    hide AllUndoable, Replay, AllEventsFit;
    if e.level == 1 {
      L1EventKeeps(s, s', e);
    } else {
      ReplayPush(|s.cores|, s.log, e);
    }
  }

  lemma MatchesAt(s: State, c: nat, i: nat)
    requires Traced(s) && c < |s.cores| && i < L1_SETS
    ensures Matches1(s.cores[c].l1d[i], Now(s).l1d[c][i], i)
  {
  }

  lemma MatchesAt2(s: State, k: nat)
    requires Traced(s) && k < L2_SETS
    ensures Matches2(s.l2[k], Now(s).l2[k], k)
  {
  }

  // ---------------------------------------------------------------------------
  // Snoops
  // ---------------------------------------------------------------------------

  lemma NothingKeeps(s: State)
    requires Traced(s)
    ensures KeepsTrace(s, s)
  {
    hide AllUndoable, Replay, Matches;
  }

  lemma OneSetKept(s: State, s': State, k: nat)
    requires k < L2_SETS && WaysKept(s.l2[k], s'.l2[k])
    requires forall j: nat :: j < L2_SETS && j != k ==> s'.l2[j] == s.l2[j]
    ensures SameL2Ways(s, s')
  {
  }

  /** A snooped or evicted L1D way: the event shows its old state, the set its new one. */
  lemma L1WayEventKeeps(s: State, s': State, c: nat, i: nat, w: nat, e: Event)
    requires Traced(s) && c < |s.cores| && i < L1_SETS && Valid(s.cores[c].l1d[i].state, w)
    requires e.level == 1 && e.core == c && e.index == i && e.way == w && s'.log == s.log + [e]
    requires e.etype == L1dEvict || e.etype == SnoopInvalidate || e.etype == SnoopDowngrade || e.etype == L1dHit
    requires e.oldState == s.cores[c].l1d[i].state[w]
    requires |s'.cores| == |s.cores| && SameL2Ways(s, s')
    requires forall b: nat, j: nat :: b < |s.cores| && j < L1_SETS && (b != c || j != i) ==>
        s'.cores[b].l1d[j] == s.cores[b].l1d[j]
    requires var l1, l1' := s.cores[c].l1d[i], s'.cores[c].l1d[i];
             && l1'.tag == l1.tag
             && (forall v: nat :: v < NUM_L1_WAYS && v != w ==>
                 l1'.state[v] == l1.state[v] && l1'.data[v] == l1.data[v])
             && (if e.etype == L1dEvict || e.etype == SnoopInvalidate then l1'.state[w] == Invalid
                 else l1'.state[w] == e.newState && e.data == Some(l1'.data[w]))
    ensures Traced(s') && (Uncounted(e) && SamePmc(s, s') ==> KeepsTrace(s, s'))
    ensures Now(s').counters == Counted(Now(s).counters, e, 1)
  {
    hide Traced, KeepsTrace, Replay, SameL2Ways, Counted;
    assert AllEventsFit(s.log, |s.cores|) by { TracedFits(s); }
    MatchesAt(s, c, i);
    var l1, l1', set0 := s.cores[c].l1d[i], s'.cores[c].l1d[i], Now(s).l1d[c][i];
    var set1 := Forward1(set0, e);
    assert set1.state == l1'.state;
    L1EventKeeps(s, s', e);
  }

  lemma TracedFits(s: State)
    requires Traced(s)
    ensures AllEventsFit(s.log, |s.cores|) && |Now(s).l1d| == |Now(s).counters| == |s.cores|
  {
  }

  lemma DowngradePeerKeeps(s: State, c: nat, n: nat, w2: nat, line: Line)
    requires Traced(s) && w2 < NUM_L2_WAYS
    ensures KeepsTrace(s, DowngradePeer(s, c, n, w2, line).0)
  {
    hide Traced, KeepsTrace;
    NothingKeeps(s);
    if c < |s.cores| {
      var l1 := s.cores[c].l1d[n % 64];
      var w := Find(l1.tag, l1.state, n / 64);
      if w < NUM_L1_WAYS {
        var s' := DowngradePeer(s, c, n, w2, line).0;
        OneSetKept(s, s', n % 4096);
        L1WayEventKeeps(s, s', c, n % 64, w, s'.log[|s.log|]);
      }
    }
  }

  lemma {:induction false} DowngradePeersKeeps(s: State, sharers: set<nat>, n: nat, w2: nat, line: Line)
    requires Traced(s) && w2 < NUM_L2_WAYS
    ensures KeepsTrace(s, DowngradePeers(s, sharers, n, w2, line).0)
    decreases sharers
  {
    hide Traced, DowngradePeer;
    NothingKeeps(s);
    if sharers == {} {
    } else {
      var c := LowestBit(sharers);
      DowngradePeerKeeps(s, c, n, w2, line);
      var (s1, line1) := DowngradePeer(s, c, n, w2, line);
      DowngradePeersKeeps(s1, sharers - {c}, n, w2, line1);
    }
  }

  lemma InvalidatePeerKeeps(s: State, c: nat, n: nat, w2: nat, line: Line)
    requires Traced(s) && w2 < NUM_L2_WAYS
    ensures KeepsTrace(s, InvalidatePeer(s, c, n, w2, line).0)
  {
    hide Traced, KeepsTrace;
    var s' := InvalidatePeer(s, c, n, w2, line).0;
    OneSetKept(s, s', n % 4096);
    if c < |s.cores| {
      var l1 := s.cores[c].l1d[n % 64];
      var w := Find(l1.tag, l1.state, n / 64);
      if w < NUM_L1_WAYS {
        L1WayEventKeeps(s, s', c, n % 64, w, s'.log[|s.log|]);
      } else {
        SilentKeeps(s, s');
      }
    } else {
      SilentKeeps(s, s');
    }
  }

  lemma {:induction false} InvalidatePeersKeeps(s: State, sharers: set<nat>, n: nat, w2: nat, line: Line)
    requires Traced(s) && w2 < NUM_L2_WAYS
    ensures KeepsTrace(s, InvalidatePeers(s, sharers, n, w2, line).0)
    decreases sharers
  {
    hide Traced, InvalidatePeer;
    NothingKeeps(s);
    if sharers == {} {
    } else {
      var c := LowestBit(sharers);
      InvalidatePeerKeeps(s, c, n, w2, line);
      var (s1, line1) := InvalidatePeer(s, c, n, w2, line);
      InvalidatePeersKeeps(s1, sharers - {c}, n, w2, line1);
    }
  }

  lemma {:induction false} InvalidatePeersIKeeps(s: State, sharers: set<nat>, n: nat)
    requires Traced(s)
    ensures KeepsTrace(s, InvalidatePeersI(s, sharers, n))
    decreases sharers
  {
    hide Traced;
    NothingKeeps(s);
    if sharers == {} {
    } else {
      var c := LowestBit(sharers);
      var s1 := InvalidatePeerI(s, c, n);
      if s1 != s { OtherEventKeeps(s, s1, s1.log[|s.log|]); }
      InvalidatePeersIKeeps(s1, sharers - {c}, n);
    }
  }

  // ---------------------------------------------------------------------------
  // Evictions
  // ---------------------------------------------------------------------------

  /** The way handed out is INVALID, and the other sets of L1D are as they were. */
  lemma EvictL1Keeps(s: State, c: nat, i: nat)
    requires Traced(s) && c < |s.cores| && i < L1_SETS && EvictL1(s, c, false, i).Done?
    ensures var (s', w) := EvictL1(s, c, false, i).value;
            KeepsTrace(s, s') && s'.cores[c].l1d[i].state[w] == Invalid && SameL2Ways(s, s')
  {
    hide Traced, KeepsTrace, L2WriteBack, L2Release;
    NothingKeeps(s);
    var l1 := s.cores[c].l1d[i];
    var (s', w) := EvictL1(s, c, false, i).value;
    if FreeFrom(l1.state, 0) == NUM_L1_WAYS {
      var n := l1.tag[w] * 64 + i;
      var l2 := s.l2[n % 4096];
      ReleaseKeepsWays(l2, c, Find(l2.tag, l2.state, n / 4096), false, l1.data[w]);
      OneSetKept(s, s', n % 4096);
      L1WayEventKeeps(s, s', c, i, w, s'.log[|s.log|]);
    }
  }

  lemma BackInvalidateDKeeps(s: State, c: nat, n: nat, v: nat)
    requires Traced(s) && v < NUM_L2_WAYS && Valid(s.l2[n % 4096].state, v) && BackInvalidateD(s, c, n, v).Done?
    ensures var s' := BackInvalidateD(s, c, n, v).value;
            KeepsTrace(s, s') && Valid(s'.l2[n % 4096].state, v)
  {
    hide Traced, KeepsTrace;
    var s' := BackInvalidateD(s, c, n, v).value;
    var w := L1WayOf(s, c, false, n);
    OneSetKept(s, s', n % 4096);
    L1WayEventKeeps(s, s', c, n % 64, w, s'.log[|s.log|]);
  }

  lemma BackInvalidateCoreKeeps(s: State, c: nat, dm: set<nat>, im: set<nat>, n: nat, v: nat)
    requires Traced(s) && v < NUM_L2_WAYS && Valid(s.l2[n % 4096].state, v)
        && BackInvalidateCore(s, c, dm, im, n, v).Done?
    ensures var s' := BackInvalidateCore(s, c, dm, im, n, v).value;
            KeepsTrace(s, s') && Valid(s'.l2[n % 4096].state, v)
  {
    hide Traced, BackInvalidateD, BackInvalidateI, KeepsTrace;
    NothingKeeps(s);
    if c in dm { BackInvalidateDKeeps(s, c, n, v); }
    var s1 := if c in dm then BackInvalidateD(s, c, n, v).value else s;
    KeepsIsTraced(s, s1);
    if c in im {
      BackInvalidateIKeeps(s1, c, n);
      KeepsTwice(s, s1, BackInvalidateI(s1, c, n).value);
    }
  }

  lemma BackInvalidateIKeeps(s: State, c: nat, n: nat)
    requires Traced(s) && BackInvalidateI(s, c, n).Done?
    ensures var s' := BackInvalidateI(s, c, n).value; KeepsTrace(s, s') && s'.l2 == s.l2
  {
    hide Traced, KeepsTrace;
    var s' := BackInvalidateI(s, c, n).value;
    OneSetKept(s, s', 0);
    OtherEventKeeps(s, s', s'.log[|s.log|]);
  }

  lemma {:induction false} BackInvalidateKeeps(s: State, all: set<nat>, dm: set<nat>, im: set<nat>, n: nat, v: nat)
    requires Traced(s) && v < NUM_L2_WAYS && Valid(s.l2[n % 4096].state, v)
        && BackInvalidate(s, all, dm, im, n, v).Done?
    ensures var s' := BackInvalidate(s, all, dm, im, n, v).value;
            KeepsTrace(s, s') && Valid(s'.l2[n % 4096].state, v)
    decreases all
  {
    hide Traced, BackInvalidateCore;
    NothingKeeps(s);
    if all == {} {
    } else {
      var c := LowestBit(all);
      BackInvalidateCoreKeeps(s, c, dm, im, n, v);
      BackInvalidateKeeps(BackInvalidateCore(s, c, dm, im, n, v).value, all - {c}, dm, im, n, v);
    }
  }

  /** An L2 way that the event fills or empties, the rest of its set as it was. */
  lemma L2WayEventKeeps(s: State, s': State, k: nat, w: nat, n: nat, e: Event)
    requires Traced(s) && k < L2_SETS && w < NUM_L2_WAYS && n % 4096 == k
    requires e.level == 2 && e.index == k && e.way == w && s'.log == s.log + [e] && Uncounted(e)
    requires SameL1d(s, s') && SamePmc(s, s')
    requires forall j: nat :: j < L2_SETS && j != k ==> s'.l2[j] == s.l2[j]
    requires forall v: nat :: v < NUM_L2_WAYS && v != w ==>
               s'.l2[k].tag[v] == s.l2[k].tag[v] && Valid(s'.l2[k].state, v) == Valid(s.l2[k].state, v)
    requires if e.etype == L2Evict then Valid(s.l2[k].state, w) && e.oldState != Invalid && !Valid(s'.l2[k].state, w)
             else (e.etype == L2Fill || e.etype == PrefetchL2) && !Valid(s.l2[k].state, w) && e.newState != Invalid
                  && Valid(s'.l2[k].state, w) && s'.l2[k].tag[w] == n / 4096 && e.address == 64 * n
    ensures KeepsTrace(s, s')
  {
    hide Traced, KeepsTrace, Replay;
    TracedFits(s);
    MatchesAt2(s, k);
    L2EventKeeps(s, s', e);
  }

  lemma EvictL2Keeps(s: State, k: nat)
    requires Traced(s) && k < L2_SETS && EvictL2(s, k).Done?
    ensures var (s', w) := EvictL2(s, k).value;
            KeepsTrace(s, s') && s'.l2[k].state[w] == Invalid
  {
    hide Traced, BackInvalidate;
    NothingKeeps(s);
    var l2 := s.l2[k];
    if FreeFrom(l2.state, 0) == NUM_L2_WAYS {
      var (s', v) := EvictL2(s, k).value;
      var n := l2.tag[v] * 4096 + k;
      assert n % 4096 == k;
      BackInvalidateKeeps(s, l2.dm[v] + l2.im[v], l2.dm[v], l2.im[v], n, v);
      var s1 := BackInvalidate(s, l2.dm[v] + l2.im[v], l2.dm[v], l2.im[v], n, v).value;
      L2WayEventKeeps(s1, s', k, v, n, s'.log[|s1.log|]);
    }
  }

  /** Stepping back over an L1D eviction puts the line, its bytes and its state back in the way
      that it left. */
  lemma EvictedL1ComesBack(s: State, c: nat, i: nat)
    requires Traced(s) && c < |s.cores| && i < L1_SETS && EvictL1(s, c, false, i).Done?
    requires FreeFrom(s.cores[c].l1d[i].state, 0) == NUM_L1_WAYS
    ensures var (s', w) := EvictL1(s, c, false, i).value;
            && AllEventsFit(s'.log, |s'.cores|) && |s'.log| == |s.log| + 1 && c < |s'.cores|
            && var set0, l1 := ApplyBackward(Now(s'), s'.log[|s.log|]).l1d[c][i], s.cores[c].l1d[i];
               set0.state == l1.state && set0.tag[w] == 64 * (l1.tag[w] * 64 + i) && set0.data[w] == l1.data[w]
  {
    hide Traced, L2WriteBack, L2Release, Replay, Counted, Plru.VictimFrom;
    var (s', w) := EvictL1(s, c, false, i).value;
    EvictL1Keeps(s, c, i);
    TracedFits(s);
    TracedFits(s');
    MatchesAt(s, c, i);
    ReplayPush(|s.cores|, s.log, s'.log[|s.log|]);
    var l1 := s.cores[c].l1d[i];
    assert l1.state[w := Invalid][w := l1.state[w]] == l1.state;
  }

  /** Stepping back over an L2 eviction puts the line back in its way, with the state that it
      had and the bytes that it gave up. */
  lemma EvictedL2ComesBack(s: State, n: nat, v: nat)
    requires Traced(s) && v < NUM_L2_WAYS && s.l2[n % 4096].tag[v] == n / 4096 && RetireL2(s, n, v).Done?
    ensures var s' := RetireL2(s, n, v).value;
            && AllEventsFit(s'.log, |s'.cores|) && |s'.log| == |s.log| + 1
            && var set0, l2 := ApplyBackward(Now(s'), s'.log[|s.log|]).l2[n % 4096], s.l2[n % 4096];
               set0.state[v] == l2.state[v] && set0.tag[v] / 64 == l2.tag[v] * 4096 + n % 4096
               && set0.data[v] == l2.data[v]
  {
    hide Traced, Replay, Counted, Dominant;
    TracedFits(s);
    ReplayPush(|s.cores|, s.log, RetireL2(s, n, v).value.log[|s.log|]);
  }

  // ---------------------------------------------------------------------------
  // Fills and prefetches
  // ---------------------------------------------------------------------------

  lemma PfFillKeeps(s: State, from: int, next: int)
    requires Traced(s) && PfFill(s, from, next).Done?
    ensures KeepsTrace(s, PfFill(s, from, next).value.0)
  {
    hide Traced, EvictL2;
    NothingKeeps(s);
    var s' := PfFill(s, from, next).value.0;
    if s' != s {
      var n: nat := next / 64;
      EvictL2Keeps(s, n % 4096);
      var (s1, w) := EvictL2(s, n % 4096).value;
      L2WayEventKeeps(s1, s', n % 4096, w, n, s'.log[|s1.log|]);
    }
  }

  lemma {:induction false} RunBurstKeeps(s: State, head: int, miss: int, stride: int, left: nat)
    requires Traced(s) && RunBurst(s, head, miss, stride, left).Done?
    ensures KeepsTrace(s, RunBurst(s, head, miss, stride, left).value.state)
    decreases left
  {
    hide Traced, PfFill;
    NothingKeeps(s);
    if left == 0 || (head - miss) * stride >= PREFETCH_DISTANCE * LINE_SIZE {
    } else {
      var next := head + stride * LINE_SIZE;
      PfFillKeeps(s, head, next);
      var (s1, ok) := PfFill(s, head, next).value;
      if ok { RunBurstKeeps(s1, next, miss, stride, left - 1); }
    }
  }

  lemma StreamOnMissKeeps(s: State, c: nat, miss: int)
    requires Traced(s) && c < |s.cores| && StreamOnMiss(s, c, miss).Done?
    ensures KeepsTrace(s, StreamOnMiss(s, c, miss).value)
  {
    hide Traced, RunBurst, KeepsTrace;
    NothingKeeps(s);
    var pf := s.cores[c].pf;
    var i := MatchFrom(pf.streams, miss, 0);
    var s' := StreamOnMiss(s, c, miss).value;
    if i < NUM_STREAMS {
      var stream := Advanced(pf.streams[i], miss);
      RunBurstKeeps(s, stream.prefetchHead, miss, stream.direction.Sign(), PREFETCH_DISTANCE + 1);
      var b := RunBurst(s, stream.prefetchHead, miss, stream.direction.Sign(), PREFETCH_DISTANCE + 1).value;
      PutPfKeeps(b.state, c, i, Settled(stream, b.head, b.blocked), s);
      KeepsTwice(s, b.state, s');
    } else {
      PutPfKeeps(s, c, OldestFrom(pf.age, 0, 1), Stream(miss, miss, Unknown, Training), s);
    }
  }

  lemma PutPfKeeps(s: State, c: nat, i: nat, stream: Stream, s0: State)
    requires KeepsTrace(s0, s) && c < |s.cores| && i < NUM_STREAMS
    ensures KeepsTrace(s, PutPf(s, c, i, stream))
  {
    hide Traced;
    OneSetKept(s, PutPf(s, c, i, stream), 0);
    SilentKeeps(s, PutPf(s, c, i, stream));
  }

  /** An L1D fill of an INVALID way. */
  lemma FillEventKeeps(s: State, s': State, c: nat, n: nat, w: nat, address: nat, line: Line, state: Mesi)
    requires Traced(s) && c < |s.cores| && w < NUM_L1_WAYS && state != Invalid && address / 64 == n
    requires s.cores[c].l1d[n % 64].state[w] == Invalid
    requires |s'.cores| == |s.cores| && s'.l2 == s.l2
    requires s'.log == s.log + [Event(L1dFill, c, 1, n % 64, w, address, Invalid, state, Some(line), s.stamp)]
    requires forall b: nat, j: nat :: b < |s.cores| && j < L1_SETS && (b != c || j != n % 64) ==>
        s'.cores[b].l1d[j] == s.cores[b].l1d[j]
    requires s'.cores[c].l1d[n % 64] == L1Fill(s.cores[c].l1d[n % 64], n / 64, w, line, state)
    ensures Traced(s') && (SamePmc(s, s') ==> KeepsTrace(s, s'))
    ensures Now(s').counters == Now(s).counters
  {
    hide Traced, KeepsTrace, Replay;
    TracedFits(s);
    MatchesAt(s, c, n % 64);
    OneSetKept(s, s', 0);
    var e := s'.log[|s.log|];
    var set1 := Forward1(Now(s).l1d[c][n % 64], e);
    assert set1.state == s'.cores[c].l1d[n % 64].state;
    L1EventKeeps(s, s', e);
  }

  /** Counted by one: the shadow's counter of core c, its own, or both. */
  ghost predicate AheadBy(s: State, s': State, c: nat, by1: int, by2: int, by3: int) {
    && |s'.cores| == |s.cores| && AllEventsFit(s.log, |s.cores|) && Traced(s')
    && (forall b: nat :: b < |s.cores| ==>
          var was := Ahead(s, b);
          Ahead(s', b) == if b == c then (was.0 + by1, was.1 + by2, was.2 + by3) else was)
  }

  lemma AheadThenKeeps(s: State, s1: State, s2: State, c: nat, by1: int, by2: int, by3: int)
    requires AheadBy(s, s1, c, by1, by2, by3) && KeepsTrace(s1, s2)
    ensures AheadBy(s, s2, c, by1, by2, by3)
  {
    hide Traced, Ahead, AllEventsFit;
  }

  lemma KeepsThenAhead(s: State, s1: State, s2: State, c: nat, by1: int, by2: int, by3: int)
    requires KeepsTrace(s, s1) && AheadBy(s1, s2, c, by1, by2, by3)
    ensures AheadBy(s, s2, c, by1, by2, by3)
  {
    hide Traced, Ahead, AllEventsFit;
  }

  /** The counter moves, and nothing the shadow shows. */
  lemma CountMemBehind(s: State, c: nat)
    requires Traced(s) && c < |s.cores|
    ensures AheadBy(s, CountMem(s, c), c, 0, 0, -1)
  {
    hide Traced;
    TracedFits(s);
    OneSetKept(s, CountMem(s, c), 0);
    SilentKeeps(s, CountMem(s, c));
  }

  lemma InstallBothKeeps(s: State, c: nat, n: nat, w2: nat, w1: nat, line: Line, state: Mesi)
    requires Traced(s) && c < |s.cores| && w2 < NUM_L2_WAYS && w1 < NUM_L1_WAYS && state != Invalid
    requires s.l2[n % 4096].state[w2] == Invalid && s.cores[c].l1d[n % 64].state[w1] == Invalid
    requires InstallBoth(s, c, false, n, w2, w1, line, state).Done?
    ensures AheadBy(s, InstallBoth(s, c, false, n, w2, w1, line, state).value, c, 0, 0, 1)
  {
    hide Traced, AheadBy, KeepsTrace;
    var s' := InstallBoth(s, c, false, n, w2, w1, line, state).value;
    var l2 := L2Install(s.l2[n % 4096], n / 4096, w2, line, state, {c}, {}).value;
    var s2 := Emit(PutL2(s, n % 4096, l2), L2Fill, c, 2, n % 4096, w2, 64 * n, Invalid, state, Some(line));
    L2WayEventKeeps(s, s2, n % 4096, w2, n, s2.log[|s.log|]);
    KeepsIsTraced(s, s2);
    var s3 := PutL1(s2, c, false, n % 64, L1Fill(s2.cores[c].l1d[n % 64], n / 64, w1, line, state));
    var s4 := Emit(s3, L1dFill, c, 1, n % 64, w1, 64 * n, Invalid, state, Some(line));
    assert 64 * n / 64 == n;
    FillEventKeeps(s2, s4, c, n, w1, 64 * n, line, state);
    KeepsTwice(s, s2, s4);
    MemFetchAhead(s4, c, 64 * n, line);
    KeepsThenAhead(s, s4, s', c, 0, 0, 1);
  }

  lemma KeepsIsTraced(s: State, s': State)
    requires KeepsTrace(s, s')
    ensures Traced(s') && |s'.cores| == |s.cores|
  {
  }

  lemma MemFetchAhead(s: State, c: nat, address: nat, line: Line)
    requires Traced(s) && c < |s.cores|
    ensures AheadBy(s, Emit(s, MemFetch, c, 3, 0, 0, address, Invalid, Invalid, Some(line)), c, 0, 0, 1)
  {
    hide Traced;
    TracedFits(s);
    var s' := Emit(s, MemFetch, c, 3, 0, 0, address, Invalid, Invalid, Some(line));
    OneSetKept(s, s', 0);
    OtherEventKeeps(s, s', s'.log[|s.log|]);
  }

  // ---------------------------------------------------------------------------
  // Loads
  // ---------------------------------------------------------------------------

  lemma {:induction false} DowngradeOthers(s: State, sharers: set<nat>, n: nat, w2: nat, line: Line, c: nat)
    requires w2 < NUM_L2_WAYS && c < |s.cores| && c !in sharers
    ensures DowngradePeers(s, sharers, n, w2, line).0.cores[c] == s.cores[c]
    decreases sharers
  {
    if sharers == {} {
    } else {
      var b := LowestBit(sharers);
      var (s1, line1) := DowngradePeer(s, b, n, w2, line);
      DowngradeOthers(s1, sharers - {b}, n, w2, line1, c);
    }
  }

  /** Invalidating peers changes other cores and, in L2, masks only. */
  lemma {:induction false} InvalidateOthers(s: State, sharers: set<nat>, n: nat, w2: nat, line: Line, c: nat)
    requires w2 < NUM_L2_WAYS && c < |s.cores| && c !in sharers
    ensures var s' := InvalidatePeers(s, sharers, n, w2, line).0;
            s'.cores[c] == s.cores[c] && s'.l2[n % 4096].state == s.l2[n % 4096].state
    decreases sharers
  {
    if sharers == {} {
    } else {
      var b := LowestBit(sharers);
      var (s1, line1) := InvalidatePeer(s, b, n, w2, line);
      InvalidateOthers(s1, sharers - {b}, n, w2, line1, c);
    }
  }

  lemma {:induction false} InvalidateIOthers(s: State, sharers: set<nat>, n: nat, c: nat)
    requires c < |s.cores|
    ensures var s' := InvalidatePeersI(s, sharers, n);
            s'.cores[c].l1d == s.cores[c].l1d && s'.l2 == s.l2
    decreases sharers
  {
    if sharers == {} {
    } else {
      var b := LowestBit(sharers);
      InvalidateIOthers(InvalidatePeerI(s, b, n), sharers - {b}, n, c);
    }
  }

  lemma AheadBoth(s: State, s1: State, s2: State, c: nat, by1: int, by2: int, by3: int)
    requires AheadBy(s, s1, c, by1, by2, by3) && AheadBy(s1, s2, c, -by1, -by2, -by3)
    ensures KeepsTrace(s, s2)
  {
    hide Traced, Ahead, AllEventsFit;
  }

  lemma ReadHitKeeps(s: State, c: nat, pa: nat, w: nat)
    requires Traced(s) && c < |s.cores| && w < NUM_L1_WAYS && w == L1WayOf(s, c, false, pa / 64)
    ensures KeepsTrace(s, ReadHit(s, c, pa, w))
  {
    hide Traced;
    TracedFits(s);
    var s' := ReadHit(s, c, pa, w);
    OneSetKept(s, s', 0);
    L1WayEventKeeps(s, s', c, pa / 64 % 64, w, s'.log[|s.log|]);
  }

  lemma L2HitAhead(s: State, c: nat, n: nat, w2: nat, pa: nat)
    requires Traced(s) && c < |s.cores| && w2 < NUM_L2_WAYS && w2 == L2WayOf(s, n)
    ensures var state := s.l2[n % 4096].state[w2];
            AheadBy(s, Emit(s, L2Hit, c, 2, n % 4096, w2, pa, state, state, None), c, 0, 1, 0)
  {
    hide Traced;
    TracedFits(s);
    MatchesAt2(s, n % 4096);
    var state := s.l2[n % 4096].state[w2];
    var s' := Emit(s, L2Hit, c, 2, n % 4096, w2, pa, state, state, None);
    assert Valid(s.l2[n % 4096].state, w2);
    assert Valid(Now(s).l2[n % 4096].state, w2);
    L2EventKeeps(s, s', s'.log[|s.log|]);
  }

  lemma ReadL2WayKeeps(s: State, c: nat, instr: bool, n: nat, w2: nat)
    requires Traced(s) && c < |s.cores| && w2 < NUM_L2_WAYS && Valid(s.l2[n % 4096].state, w2)
    ensures var s' := ReadL2Way(s, c, instr, n, w2).0;
            KeepsTrace(s, s') && s'.cores[c] == s.cores[c]
  {
    hide Traced, KeepsTrace, DowngradePeers;
    var line := s.l2[n % 4096].data[w2];
    var l2 := L2Read(s.l2[n % 4096], c, w2, instr);
    var s1 := PutL2(s, n % 4096, l2);
    OneSetKept(s, s1, n % 4096);
    SilentKeeps(s, s1);
    KeepsIsTraced(s, s1);
    var dSharers := l2.dm[w2] - {c};
    var s2 := SetL2State(s1, n % 4096, w2, Shared);
    OneSetKept(s1, s2, n % 4096);
    SilentKeeps(s1, s2);
    KeepsIsTraced(s1, s2);
    DowngradePeersKeeps(s2, dSharers, n, w2, line);
    DowngradeOthers(s2, dSharers, n, w2, line, c);
    var s3 := DowngradePeers(s2, dSharers, n, w2, line).0;
    KeepsTwice(s1, s2, s3);
    KeepsTwice(s, s1, s3);
  }

  lemma ReadFromL2Keeps(s: State, c: nat, pa: nat, w2: nat)
    requires Traced(s) && c < |s.cores| && w2 < NUM_L2_WAYS && w2 == L2WayOf(s, pa / 64)
    requires ReadFromL2(s, c, pa, w2).Done?
    ensures KeepsTrace(s, ReadFromL2(s, c, pa, w2).value.0)
  {
    hide Traced, KeepsTrace, AheadBy, EvictL1, ReadL2Way;
    var n := pa / 64;
    var state := s.l2[n % 4096].state[w2];
    var s0 := Emit(s, L2Hit, c, 2, n % 4096, w2, pa, state, state, None);
    L2HitAhead(s, c, n, w2, pa);
    AheadIsTraced(s, s0, c, 0, 1, 0);
    EvictL1Keeps(s0, c, n % 64);
    var (s1, w1) := EvictL1(s0, c, false, n % 64).value;
    KeepsIsTraced(s0, s1);
    assert Valid(s1.l2[n % 4096].state, w2) by { assert WaysKept(s0.l2[n % 4096], s1.l2[n % 4096]); }
    ReadL2WayKeeps(s1, c, false, n, w2);
    var (s2, line, shared) := ReadL2Way(s1, c, false, n, w2);
    KeepsIsTraced(s1, s2);
    AheadThenKeeps(s, s0, s1, c, 0, 1, 0);
    AheadThenKeeps(s, s1, s2, c, 0, 1, 0);
    var s' := ReadFromL2(s, c, pa, w2).value.0;
    FillCounted(s2, s', c, n, w1, pa, line, if shared then Shared else Exclusive);
    AheadBoth(s, s2, s', c, 0, 1, 0);
  }

  lemma AheadIsTraced(s: State, s': State, c: nat, by1: int, by2: int, by3: int)
    requires AheadBy(s, s', c, by1, by2, by3)
    ensures Traced(s') && |s'.cores| == |s.cores|
  {
  }

  /** The fill at the end of an L2 hit, together with its count. */
  lemma FillCounted(s: State, s': State, c: nat, n: nat, w: nat, address: nat, line: Line, state: Mesi)
    requires Traced(s) && c < |s.cores| && w < NUM_L1_WAYS && state != Invalid && address / 64 == n
    requires s.cores[c].l1d[n % 64].state[w] == Invalid
    requires s' == Emit(PutL1(CountL2(s, c), c, false, n % 64, L1Fill(s.cores[c].l1d[n % 64], n / 64, w, line, state)),
                        L1dFill, c, 1, n % 64, w, address, Invalid, state, Some(line))
    ensures AheadBy(s, s', c, 0, -1, 0)
  {
    hide Traced;
    TracedFits(s);
    FillEventKeeps(s, s', c, n, w, address, line, state);
    TracedFits(s');
  }

  /** A whole miss of a load or a store. */
  lemma MissKeeps(s: State, c: nat, n: nat, line: Line, state: Mesi)
    requires Traced(s) && c < |s.cores| && state != Invalid
    requires MakeRoom(s, c, false, n).Done?
    requires var (s1, w2, w1) := MakeRoom(s, c, false, n).value;
             && InstallBoth(s1, c, false, n, w2, w1, line, state).Done?
             && StreamOnMiss(InstallBoth(s1, c, false, n, w2, w1, line, state).value, c, 64 * n).Done?
    ensures var (s1, w2, w1) := MakeRoom(s, c, false, n).value;
            var s2 := InstallBoth(s1, c, false, n, w2, w1, line, state).value;
            KeepsTrace(s, CountMem(StreamOnMiss(s2, c, 64 * n).value, c))
  {
    hide Traced, KeepsTrace, AheadBy, EvictL1, EvictL2, InstallBoth, StreamOnMiss, CountMem;
    EvictL2Keeps(s, n % 4096);
    var (t, w2) := EvictL2(s, n % 4096).value;
    KeepsIsTraced(s, t);
    EvictL1Keeps(t, c, n % 64);
    var (s1, w1) := EvictL1(t, c, false, n % 64).value;
    KeepsIsTraced(t, s1);
    KeepsTwice(s, t, s1);
    assert s1.l2[n % 4096].state[w2] == Invalid by {
      assert WaysKept(t.l2[n % 4096], s1.l2[n % 4096]);
      assert Valid(s1.l2[n % 4096].state, w2) == Valid(t.l2[n % 4096].state, w2);
    }
    InstallBothKeeps(s1, c, n, w2, w1, line, state);
    var s2 := InstallBoth(s1, c, false, n, w2, w1, line, state).value;
    AheadIsTraced(s1, s2, c, 0, 0, 1);
    StreamOnMissKeeps(s2, c, 64 * n);
    var s3 := StreamOnMiss(s2, c, 64 * n).value;
    KeepsIsTraced(s2, s3);
    AheadThenKeeps(s1, s2, s3, c, 0, 0, 1);
    CountMemBehind(s3, c);
    AheadBoth(s1, s3, CountMem(s3, c), c, 0, 0, 1);
    KeepsTwice(s, s1, CountMem(s3, c));
  }

  lemma ReadKeeps(s: State, c: nat, pa: nat, size: nat)
    requires Traced(s) && c < |s.cores| && pa % 64 + size <= LINE_SIZE && Read(s, c, pa, size).Done?
    ensures KeepsTrace(s, Read(s, c, pa, size).value.0)
  {
    hide Traced, KeepsTrace, ReadFromL2, ReadHit, MakeRoom, InstallBoth, StreamOnMiss, CountMem;
    var n := pa / 64;
    var w, w2 := L1WayOf(s, c, false, n), L2WayOf(s, n);
    if w < NUM_L1_WAYS {
      ReadHitKeeps(s, c, pa, w);
    } else if w2 < NUM_L2_WAYS {
      ReadFromL2Keeps(s, c, pa, w2);
    } else {
      MissKeeps(s, c, n, MemLine(MakeRoom(s, c, false, n).value.0.mem, n), Exclusive);
    }
  }

  // ---------------------------------------------------------------------------
  // Stores
  // ---------------------------------------------------------------------------

  lemma UpgradeKeeps(s: State, c: nat, n: nat, w2: nat)
    requires Traced(s) && c < |s.cores| && w2 < NUM_L2_WAYS
    ensures var s' := Upgrade(s, c, n, w2);
            KeepsTrace(s, s') && s'.cores[c] == s.cores[c] && s'.l2[n % 4096].state == s.l2[n % 4096].state
  {
    hide Traced, KeepsTrace, InvalidatePeers;
    var sharers := s.l2[n % 4096].dm[w2] - {c};
    InvalidatePeersKeeps(s, sharers, n, w2, ZeroLine());
    InvalidateOthers(s, sharers, n, w2, ZeroLine(), c);
    var s1 := InvalidatePeers(s, sharers, n, w2, ZeroLine()).0;
    KeepsIsTraced(s, s1);
    var s2 := Upgrade(s, c, n, w2);
    OneSetKept(s1, s2, n % 4096);
    SilentKeeps(s1, s2);
    KeepsTwice(s, s1, s2);
  }

  /** The end of both store paths, as the trace sees it: nothing. */
  lemma OwnKeeps(s: State, c: nat, n: nat, w2: nat)
    requires Traced(s) && c < |s.cores| && w2 < NUM_L2_WAYS && Valid(s.l2[n % 4096].state, w2)
    ensures var s1 := InvalidatePeersI(s, s.l2[n % 4096].im[w2], n);
            && KeepsTrace(s, PutL2(s1, n % 4096, L2Own(s1.l2[n % 4096], c, w2)))
            && KeepsTrace(s, PutL2(s1, n % 4096, L2Touch(L2Own(s1.l2[n % 4096], c, w2), w2)))
            && s1.cores[c].l1d == s.cores[c].l1d
  {
    hide Traced, KeepsTrace, InvalidatePeersI;
    var im := s.l2[n % 4096].im[w2];
    InvalidatePeersIKeeps(s, im, n);
    InvalidateIOthers(s, im, n, c);
    var s1 := InvalidatePeersI(s, im, n);
    KeepsIsTraced(s, s1);
    var own := L2Own(s1.l2[n % 4096], c, w2);
    var s2, s3 := PutL2(s1, n % 4096, own), PutL2(s1, n % 4096, L2Touch(own, w2));
    OneSetKept(s1, s2, n % 4096);
    OneSetKept(s1, s3, n % 4096);
    SilentKeeps(s1, s2);
    SilentKeeps(s1, s3);
    KeepsTwice(s, s1, s2);
    KeepsTwice(s, s1, s3);
  }

  lemma WriteHitKeeps(s: State, c: nat, pa: nat, w: nat, bytes: seq<byte>)
    requires Traced(s) && c < |s.cores| && w < NUM_L1_WAYS && pa % 64 + |bytes| <= LINE_SIZE
    requires w == L1WayOf(s, c, false, pa / 64) && WriteHit(s, c, pa, w, bytes).Done?
    ensures KeepsTrace(s, WriteHit(s, c, pa, w, bytes).value)
  {
    hide Traced, KeepsTrace, Upgrade, InvalidatePeersI, L2Own, Patch;
    var n := pa / 64;
    var w2 := L2WayOf(s, n);
    var was := s.cores[c].l1d[n % 64].state[w];
    NothingKeeps(s);
    if was == Shared { UpgradeKeeps(s, c, n, w2); }
    var s1 := if was == Shared then Upgrade(s, c, n, w2) else s;
    KeepsIsTraced(s, s1);
    OwnKeeps(s1, c, n, w2);
    var t := InvalidatePeersI(s1, s1.l2[n % 4096].im[w2], n);
    var s2 := PutL2(t, n % 4096, L2Own(t.l2[n % 4096], c, w2));
    KeepsTwice(s, s1, s2);
    KeepsIsTraced(s, s2);
    StoreEventKeeps(s2, c, n, w, pa, bytes, was);
    KeepsTwice(s, s2, WriteHit(s, c, pa, w, bytes).value);
  }

  lemma StoreEventKeeps(s: State, c: nat, n: nat, w: nat, pa: nat, bytes: seq<byte>, was: Mesi)
    requires Traced(s) && c < |s.cores| && w < NUM_L1_WAYS && pa % 64 + |bytes| <= LINE_SIZE
    requires s.cores[c].l1d[n % 64].state[w] == was != Invalid
    ensures var l1 := L1Write(s.cores[c].l1d[n % 64], w, pa % 64, bytes);
            KeepsTrace(s, Emit(PutL1(CountL1d(s, c), c, false, n % 64, l1),
                               L1dHit, c, 1, n % 64, w, pa, was, Modified, Some(l1.data[w])))
  {
    hide Traced, Patch;
    TracedFits(s);
    var l1 := L1Write(s.cores[c].l1d[n % 64], w, pa % 64, bytes);
    var s' := Emit(PutL1(CountL1d(s, c), c, false, n % 64, l1), L1dHit, c, 1, n % 64, w, pa, was, Modified,
        Some(l1.data[w]));
    OneSetKept(s, s', 0);
    L1WayEventKeeps(s, s', c, n % 64, w, s'.log[|s.log|]);
    TracedFits(s');
  }

  lemma WriteFromL2Keeps(s: State, c: nat, pa: nat, w2: nat, bytes: seq<byte>)
    requires Traced(s) && c < |s.cores| && pa % 64 + |bytes| <= LINE_SIZE
    requires w2 < NUM_L2_WAYS && w2 == L2WayOf(s, pa / 64) && WriteFromL2(s, c, pa, w2, bytes).Done?
    ensures KeepsTrace(s, WriteFromL2(s, c, pa, w2, bytes).value)
  {
    hide Traced, KeepsTrace, AheadBy, EvictL1, InvalidatePeers, InvalidatePeersI, L2Own, L2Touch, Patch, L1Fill,
         CountL2;
    var n := pa / 64;
    var l2 := s.l2[n % 4096];
    var s0 := Emit(s, L2Hit, c, 2, n % 4096, w2, pa, l2.state[w2], l2.state[w2], None);
    L2HitAhead(s, c, n, w2, pa);
    AheadIsTraced(s, s0, c, 0, 1, 0);
    var sharers := l2.dm[w2] - {c};
    InvalidatePeersKeeps(s0, sharers, n, w2, l2.data[w2]);
    InvalidateOthers(s0, sharers, n, w2, l2.data[w2], c);
    var (s1, newest) := InvalidatePeers(s0, sharers, n, w2, l2.data[w2]);
    KeepsIsTraced(s0, s1);
    var line := Patch(newest, pa % 64, bytes);
    EvictL1Keeps(s1, c, n % 64);
    var (s2, w1) := EvictL1(s1, c, false, n % 64).value;
    KeepsIsTraced(s1, s2);
    KeepsTwice(s0, s1, s2);
    AheadThenKeeps(s, s0, s2, c, 0, 1, 0);
    assert Valid(s2.l2[n % 4096].state, w2) by { assert WaysKept(s1.l2[n % 4096], s2.l2[n % 4096]); }
    FillOwnKeeps(s2, c, n, w2, w1, pa, line);
    AheadBoth(s, s2, WriteFromL2(s, c, pa, w2, bytes).value, c, 0, 1, 0);
  }

  lemma FillOwnKeeps(s: State, c: nat, n: nat, w2: nat, w1: nat, pa: nat, line: Line)
    requires Traced(s) && c < |s.cores| && w2 < NUM_L2_WAYS && w1 < NUM_L1_WAYS && pa / 64 == n
    requires Valid(s.l2[n % 4096].state, w2) && s.cores[c].l1d[n % 64].state[w1] == Invalid
    ensures var s3 := PutL1(s, c, false, n % 64, L1Fill(s.cores[c].l1d[n % 64], n / 64, w1, line, Modified));
            var s4 := Emit(s3, L1dFill, c, 1, n % 64, w1, pa, Invalid, Modified, Some(line));
            var s5 := InvalidatePeersI(s4, s4.l2[n % 4096].im[w2], n);
            AheadBy(s, CountL2(PutL2(s5, n % 4096, L2Touch(L2Own(s5.l2[n % 4096], c, w2), w2)), c), c, 0, -1, 0)
  {
    hide Traced, KeepsTrace, AheadBy, InvalidatePeersI, L2Own, L2Touch;
    var s3 := PutL1(s, c, false, n % 64, L1Fill(s.cores[c].l1d[n % 64], n / 64, w1, line, Modified));
    var s4 := Emit(s3, L1dFill, c, 1, n % 64, w1, pa, Invalid, Modified, Some(line));
    FillEventKeeps(s, s4, c, n, w1, pa, line, Modified);
    KeepsIsTraced(s, s4);
    OwnKeeps(s4, c, n, w2);
    var s5 := InvalidatePeersI(s4, s4.l2[n % 4096].im[w2], n);
    var s6 := PutL2(s5, n % 4096, L2Touch(L2Own(s5.l2[n % 4096], c, w2), w2));
    KeepsTwice(s, s4, s6);
    KeepsIsTraced(s4, s6);
    CountL2Behind(s6, c);
    KeepsThenAhead(s, s6, CountL2(s6, c), c, 0, -1, 0);
  }

  lemma CountL2Behind(s: State, c: nat)
    requires Traced(s) && c < |s.cores|
    ensures AheadBy(s, CountL2(s, c), c, 0, -1, 0)
  {
    hide Traced;
    TracedFits(s);
    OneSetKept(s, CountL2(s, c), 0);
    SilentKeeps(s, CountL2(s, c));
  }

  lemma WriteKeeps(s: State, c: nat, pa: nat, bytes: seq<byte>)
    requires Traced(s) && c < |s.cores| && pa % 64 + |bytes| <= LINE_SIZE && Write(s, c, pa, bytes).Done?
    ensures KeepsTrace(s, Write(s, c, pa, bytes).value)
  {
    hide Traced, KeepsTrace, WriteFromL2, WriteHit, MakeRoom, InstallBoth, StreamOnMiss, CountMem, Patch;
    var n := pa / 64;
    var w, w2 := L1WayOf(s, c, false, n), L2WayOf(s, n);
    if w < NUM_L1_WAYS {
      WriteHitKeeps(s, c, pa, w, bytes);
    } else if w2 < NUM_L2_WAYS {
      WriteFromL2Keeps(s, c, pa, w2, bytes);
    } else {
      MissKeeps(s, c, n, Patch(MemLine(s.mem, n), pa % 64, bytes), Modified);
    }
  }

  // ---------------------------------------------------------------------------
  // Fetches
  // ---------------------------------------------------------------------------

  /** The fetch hits L1I, or it hits L2 and finds a free way in L1I. The others evict an L1I
      way, which is reported as an L1D eviction, or fill L2 without a report. */
  predicate QuietFetch(s: State, c: nat, n: nat)
    requires c < |s.cores|
  {
    || L1WayOf(s, c, true, n) < NUM_L1_WAYS
    || (L2WayOf(s, n) < NUM_L2_WAYS && FreeFrom(s.cores[c].l1i[n % 64].state, 0) < NUM_L1_WAYS)
  }

  lemma QuietFetchKeeps(s: State, c: nat, pa: nat, size: nat)
    requires Traced(s) && c < |s.cores| && pa % 64 + size <= LINE_SIZE && QuietFetch(s, c, pa / 64)
    requires Fetch(s, c, pa, size).Done?
    ensures AheadBy(s, Fetch(s, c, pa, size).value.0, c, 0,
                    if L1WayOf(s, c, true, pa / 64) < NUM_L1_WAYS then 0 else -1, 0)
  {
    hide Traced, ReadL2Way, FetchFromMemory, L1Touch;
    var n := pa / 64;
    var s' := Fetch(s, c, pa, size).value.0;
    TracedFits(s);
    if L1WayOf(s, c, true, n) < NUM_L1_WAYS {
      OneSetKept(s, s', 0);
      SilentKeeps(s, s');
    } else {
      FetchHitKeeps(s, c, n, L2WayOf(s, n));
    }
  }

  lemma FetchHitKeeps(s: State, c: nat, n: nat, w2: nat)
    requires Traced(s) && c < |s.cores| && w2 < NUM_L2_WAYS && w2 == L2WayOf(s, n)
    requires FreeFrom(s.cores[c].l1i[n % 64].state, 0) < NUM_L1_WAYS && FetchFromL2(s, c, n, w2).Done?
    ensures AheadBy(s, FetchFromL2(s, c, n, w2).value.0, c, 0, -1, 0)
  {
    hide Traced, ReadL2Way, KeepsTrace, AheadBy, L1Fill;
    ReadL2WayKeeps(s, c, true, n, w2);
    var (s1, line, _) := ReadL2Way(s, c, true, n, w2);
    KeepsIsTraced(s, s1);
    var w1 := FreeFrom(s.cores[c].l1i[n % 64].state, 0);
    var s2 := PutL1(s1, c, true, n % 64, L1Fill(s1.cores[c].l1i[n % 64], n / 64, w1, line, Shared));
    OneSetKept(s1, s2, 0);
    SilentKeeps(s1, s2);
    KeepsTwice(s, s1, s2);
    KeepsIsTraced(s1, s2);
    CountL2Behind(s2, c);
    KeepsThenAhead(s, s2, CountL2(s2, c), c, 0, -1, 0);
  }

  // ---------------------------------------------------------------------------
  // Runs
  // ---------------------------------------------------------------------------

  predicate Traceable(s: State, op: Op)
    requires op.Fits(|s.cores|)
  {
    op.kind.Fetching? ==> QuietFetch(s, op.core, op.pa / 64)
  }

  ghost predicate AllTraceable(s: State, ops: seq<Op>)
    requires AllFit(ops, |s.cores|)
    decreases |ops|
  {
    ops == [] ||
    (Traceable(s, ops[0]) && (Step(s, ops[0]).Done? ==> AllTraceable(Step(s, ops[0]).value.0, ops[1..])))
  }

  /** No call of the run is an instruction fetch. */
  predicate DataOnly(ops: seq<Op>) { forall i :: 0 <= i < |ops| ==> !ops[i].kind.Fetching? }

  lemma {:induction false} DataIsTraceable(s: State, ops: seq<Op>)
    requires AllFit(ops, |s.cores|) && DataOnly(ops)
    ensures AllTraceable(s, ops)
    decreases |ops|
  {
    hide Step;
    if ops == [] || !Step(s, ops[0]).Done? {
    } else {
      DataIsTraceable(Step(s, ops[0]).value.0, ops[1..]);
    }
  }

  /** The shadow's counters are as far ahead as they were. */
  ghost predicate SameLead(s: State, s': State)
    requires AllEventsFit(s.log, |s.cores|) && AllEventsFit(s'.log, |s'.cores|)
  {
    |s'.cores| == |s.cores| && forall c: nat :: c < |s.cores| ==> Ahead(s', c) == Ahead(s, c)
  }

  lemma LeadMoves(s: State, s0: State, s': State, c: nat, step: int)
    requires KeepsTrace(s, s0) && AheadBy(s0, s', c, 0, step, 0) && c < |s.cores|
    ensures AllEventsFit(s'.log, |s'.cores|) && (SameLead(s, s') <==> step == 0)
  {
    hide Ahead, AllEventsFit, Matches, AllUndoable;
    assert Ahead(s', c) == (Ahead(s, c).0, Ahead(s, c).1 + step, Ahead(s, c).2);
  }

  /** A load, a store or a quiet fetch keeps the trace faithful; only a fetch that hits L2
      moves a counter that the trace does not. */
  lemma StepKeepsTrace(s: State, op: Op)
    requires Traced(s) && op.Fits(|s.cores|) && Traceable(s, op) && Step(s, op).Done?
    ensures var s' := Step(s, op).value.0;
            && Traced(s') && |s'.cores| == |s.cores|
            && (SameLead(s, s') <==>
                  !(op.kind.Fetching? && L1WayOf(s, op.core, true, op.pa / 64) == NUM_L1_WAYS))
  {
    hide Traced, Ahead, Read, Write, Fetch;
    var s0 := s.(stamp := op.stamp);
    OneSetKept(s, s0, 0);
    SilentKeeps(s, s0);
    KeepsIsTraced(s, s0);
    TracedFits(s);
    match op.kind {
      case Load(size) =>
        ReadKeeps(s0, op.core, op.pa, size);
        KeepsTwice(s, s0, Step(s, op).value.0);
      case Store(bytes) =>
        WriteKeeps(s0, op.core, op.pa, bytes);
        KeepsTwice(s, s0, Step(s, op).value.0);
      case Fetching(size) =>
        QuietFetchKeeps(s0, op.core, op.pa, size);
        var step := if L1WayOf(s, op.core, true, op.pa / 64) < NUM_L1_WAYS then 0 else -1;
        AheadIsTraced(s0, Step(s, op).value.0, op.core, 0, step, 0);
        LeadMoves(s, s0, Step(s, op).value.0, op.core, step);
    }
    TracedFits(Step(s, op).value.0);
  }

  /** Replaying the trace of any run of loads, stores and quiet fetches, on any cores, gives
      a shadow that shows the real caches, and each event of the trace can be taken back.
      Without fetches, the shadow's counters move as the real ones do. */
  lemma {:induction false} RunIsTraced(s: State, ops: seq<Op>)
    requires Traced(s) && AllFit(ops, |s.cores|) && AllTraceable(s, ops) && Run(s, ops).Done?
    ensures var s' := Run(s, ops).value.0;
            Traced(s') && |s'.cores| == |s.cores| && (DataOnly(ops) ==> SameLead(s, s'))
    decreases |ops|
  {
    hide Traced, Ahead, Step, Traceable;
    TracedFits(s);
    if ops == [] {
    } else {
      StepKeepsTrace(s, ops[0]);
      RunIsTraced(Step(s, ops[0]).value.0, ops[1..]);
      TracedFits(Step(s, ops[0]).value.0);
      TracedFits(Run(s, ops).value.0);
      if DataOnly(ops) {
        assert !ops[0].kind.Fetching?;
        assert forall i :: 0 <= i < |ops[1..]| ==> ops[1..][i] == ops[i + 1];
      }
    }
  }

  // ---------------------------------------------------------------------------
  // Where a recording may start
  // ---------------------------------------------------------------------------

  /** Nothing in L1D or L2. */
  ghost predicate Cold(s: State) {
    && (forall c: nat, i: nat, w: nat :: c < |s.cores| && i < L1_SETS ==> !Valid(s.cores[c].l1d[i].state, w))
    && (forall k: nat, w: nat :: k < L2_SETS ==> !Valid(s.l2[k].state, w))
  }

  ghost predicate ZeroCounters(s: State) {
    forall c: nat :: c < |s.cores| ==>
      var pmc := s.cores[c].pmc; pmc.l1dHits == 0 && pmc.l2Hits == 0 && pmc.memFetches == 0
  }

  /** With no event recorded yet, the fresh shadow shows the counters exactly when they are
      zero. */
  lemma ZeroCountersAgree(s: State)
    requires s.log == []
    ensures AllEventsFit(s.log, |s.cores|)
    ensures CountersAgree(s) <==> ZeroCounters(s)
  {
    forall c: nat | c < |s.cores|
      ensures var was, pmc := Ahead(s, c), s.cores[c].pmc;
              was.0 == 0 - pmc.l1dHits && was.1 == 0 - pmc.l2Hits && was.2 == 0 - pmc.memFetches
    {
      assert Now(s).counters[c] == Counters(0, 0, 0, 0, 0);
    }
  }

  /** And it shows the caches exactly when every L1D and L2 way is INVALID. */
  lemma ColdIsTraced(s: State)
    requires s.log == []
    ensures Traced(s) <==> Cold(s)
  {
    if Cold(s) {
      forall c: nat, i: nat | c < |s.cores| && i < L1_SETS
        ensures s.cores[c].l1d[i].state == EmptyWays(NUM_L1_WAYS).state
      {
        forall w: nat | w < NUM_L1_WAYS ensures s.cores[c].l1d[i].state[w] == Invalid {
          assert !Valid(s.cores[c].l1d[i].state, w);
        }
      }
    }
    if Matches(s, Now(s)) {
      forall c: nat, i: nat, w: nat | c < |s.cores| && i < L1_SETS ensures !Valid(s.cores[c].l1d[i].state, w) {
        assert Matches1(s.cores[c].l1d[i], Now(s).l1d[c][i], i);
      }
      forall k: nat, w: nat | k < L2_SETS ensures !Valid(s.l2[k].state, w) {
        assert Matches2(s.l2[k], Now(s).l2[k], k);
        assert !Valid(Now(s).l2[k].state, w);
      }
    }
  }

  lemma InitTraced(n: nat, mem: seq<byte>)
    ensures Traced(Init(n, mem)) && CountersAgree(Init(n, mem))
  {
    hide Traced, CountersAgree;
    ColdIsTraced(Init(n, mem));
    ZeroCountersAgree(Init(n, mem));
  }

  /** Where no line is cached, every way is INVALID, and the other way round. */
  lemma ColdHoldsNothing(s: State, m: nat)
    requires Cold(s)
    ensures Proj(s, m).l2.NotInL2? && forall c: nat :: c < |s.cores| ==> L1WayOf(s, c, false, m) == NUM_L1_WAYS
  {
    hide Proj;
    L2WayProj(s, m);
    forall c: nat | c < |s.cores| ensures L1WayOf(s, c, false, m) == NUM_L1_WAYS { L1WayProj(s, c, false, m); }
  }

  /** Any access at all leaves the caches warm. */
  lemma AccessWarms(s: State, op: Op)
    requires Good(s) && op.Fits(|s.cores|) && Step(s, op).Done?
    ensures !Cold(Step(s, op).value.0)
  {
    hide Good, Step, Proj, Cold, LineAfter;
    StepKeepsDemandedLine(s, op);
    if Cold(Step(s, op).value.0) { ColdHoldsNothing(Step(s, op).value.0, op.pa / 64); }
  }

  /** A fetch that is not quiet: a miss from cold caches, at the end of a page, fills L2 and
      emits nothing, so that no trace of it can give the caches back. */
  lemma FetchMissIsUntraced(s: State, c: nat, n: nat)
    requires Good(s) && Cold(s) && s.log == [] && c < |s.cores| && InMemory(s.mem, n) && n % 64 == 63
    requires forall w: nat :: !Valid(s.cores[c].l1i[n % 64].state, w)
    ensures var r := FetchFromMemory(s, c, n);
            r.Done? && r.value.0.log == [] && !Traced(r.value.0)
  {
    hide Inv, Windowed, Proj, C.CallKeeps, Traced;
    ColdHoldsNothing(s, n);
    C.FetchFromMemoryCall(s, c, n);
    FetchMissIsSilent(s, c, n);
    var s' := FetchFromMemory(s, c, n).value.0;
    ColdIsTraced(s');
    assert C.CallKeeps(s, s', n, FillI(Proj(s, n), c));
    CallLeaves(s, s', n, FillI(Proj(s, n), c));
    if Cold(s') { ColdHoldsNothing(s', n); }
  }

  lemma CallLeaves(s: State, s': State, n: nat, x: LineState)
    requires C.CallKeeps(s, s', n, x)
    ensures Proj(s', n) == x
  {
    hide Inv, Tracks, Proj;
  }

  lemma FetchMissIsSilent(s: State, c: nat, n: nat)
    requires Cold(s) && s.log == [] && c < |s.cores| && n % 64 == 63
    requires forall w: nat :: !Valid(s.cores[c].l1i[n % 64].state, w)
    requires FetchFromMemory(s, c, n).Done?
    ensures FetchFromMemory(s, c, n).value.0.log == []
  {
    hide L1Fill, L2Install;
    assert !Valid(s.l2[n % 4096].state, 0) && !Valid(s.cores[c].l1i[n % 64].state, 0);
    assert (64 * n + 64) / 4096 == n / 64 + 1 && 64 * n / 4096 == n / 64;
  }
}
