/** Which lines an L1 keeps and which it gives up, over runs: tree-PLRU on whole calls. */
module Recency {
  import opened Types
  import opened Coherence
  import opened Caches
  import opened Projection
  import opened Snoops
  import opened Flat
  import opened Prefetch
  import opened Losses
  import opened Machine
  import opened Arrivals
  import opened Replacement
  import C = Calls
  import Plru

  function Slots1(l1: L1Set): (a: Slots)
    ensures |a.tag| == |a.valid| == NUM_L1_WAYS
  {
    Slots(l1.tag, seq(NUM_L1_WAYS, w requires 0 <= w < NUM_L1_WAYS => l1.state[w] != Invalid), l1.plru)
  }

  /** Set i of core c's L1D or L1I. */
  function SlotsIn(s: State, c: nat, instr: bool, i: nat): (a: Slots)
    requires c < |s.cores| && i < L1_SETS
    ensures |a.tag| == |a.valid| == NUM_L1_WAYS
  {
    Slots1(GetL1(s, c, instr, i))
  }

  lemma SetShaped(l1: L1Set)
    ensures Shaped(Slots1(l1), 3)
  {
    assert Plru.Pow2(3) == 8;
  }

  lemma InShaped(s: State, c: nat, instr: bool, i: nat)
    requires c < |s.cores| && i < L1_SETS
    ensures Shaped(SlotsIn(s, c, instr, i), 3)
  {
    SetShaped(GetL1(s, c, instr, i));
  }

  // ---------------------------------------------------------------------------
  // Ways that snoops and evictions empty
  // ---------------------------------------------------------------------------

  ghost predicate ThinsIn(s: State, s': State, c: nat, instr: bool, i: nat) {
    && c < |s.cores| == |s'.cores| && i < L1_SETS
    && Thinned(SlotsIn(s, c, instr, i), SlotsIn(s', c, instr, i))
  }

  /** No replacement bits move, no way is filled. */
  ghost predicate Thins(s: State, s': State) {
    && |s'.cores| == |s.cores|
    && forall c: nat, instr, i: nat :: c < |s.cores| && i < L1_SETS ==> ThinsIn(s, s', c, instr, i)
  }

  lemma ThinsTwice(s: State, s1: State, s2: State)
    requires Thins(s, s1) && Thins(s1, s2)
    ensures Thins(s, s2)
  {
    hide SlotsIn;
    forall c: nat, instr, i: nat | c < |s.cores| && i < L1_SETS ensures ThinsIn(s, s2, c, instr, i) {
      assert ThinsIn(s, s1, c, instr, i) && ThinsIn(s1, s2, c, instr, i);
    }
  }

  lemma SameThins(s: State, s': State)
    requires |s'.cores| == |s.cores|
    requires forall c: nat :: c < |s.cores| ==> s'.cores[c].l1d == s.cores[c].l1d && s'.cores[c].l1i == s.cores[c].l1i
    ensures Thins(s, s')
  {
    forall c: nat, instr, i: nat | c < |s.cores| && i < L1_SETS ensures ThinsIn(s, s', c, instr, i) {
      assert SlotsIn(s', c, instr, i) == SlotsIn(s, c, instr, i);
    }
  }

  /** Writing back a set with the same tags and bits, and no way filled. */
  lemma PutThins(s: State, c: nat, instr: bool, i: nat, l1: L1Set)
    requires c < |s.cores| && i < L1_SETS
    requires var l := GetL1(s, c, instr, i);
             && l1.tag == l.tag && l1.plru == l.plru
             && forall w: nat :: w < NUM_L1_WAYS && l1.state[w] != Invalid ==> l.state[w] != Invalid
    ensures Thins(s, PutL1(s, c, instr, i, l1))
  {
    var s' := PutL1(s, c, instr, i, l1);
    forall b: nat, code, j: nat | b < |s.cores| && j < L1_SETS ensures ThinsIn(s, s', b, code, j) {
      if b == c && code == instr && j == i {
        assert GetL1(s', b, code, j) == l1;
      } else {
        assert GetL1(s', b, code, j) == GetL1(s, b, code, j);
      }
    }
  }

  lemma DowngradePeerThins(s: State, c: nat, n: nat, w2: nat, line: Line)
    requires w2 < NUM_L2_WAYS
    ensures Thins(s, DowngradePeer(s, c, n, w2, line).0)
  {
    hide Thins;
    SameThins(s, s);
    if c < |s.cores| {
      var l1 := s.cores[c].l1d[n % 64];
      var w := Find(l1.tag, l1.state, n / 64);
      if w < NUM_L1_WAYS {
        var l2 := s.l2[n % 4096];
        var s1 := if l1.state[w] == Modified then PutL2(s, n % 4096, l2.(data := l2.data[w2 := l1.data[w]])) else s;
        var s2 := Emit(s1, SnoopDowngrade, c, 1, n % 64, w, 0, l1.state[w], Shared, Some(l1.data[w]));
        SameThins(s, s2);
        PutThins(s2, c, false, n % 64, l1.(state := l1.state[w := Shared]));
        ThinsTwice(s, s2, DowngradePeer(s, c, n, w2, line).0);
      }
    }
  }

  lemma {:induction false} DowngradePeersThins(s: State, sharers: set<nat>, n: nat, w2: nat, line: Line)
    requires w2 < NUM_L2_WAYS
    ensures Thins(s, DowngradePeers(s, sharers, n, w2, line).0)
    decreases sharers
  {
    hide Thins, DowngradePeer;
    if sharers == {} {
      SameThins(s, s);
    } else {
      var c := LowestBit(sharers);
      var (s1, line1) := DowngradePeer(s, c, n, w2, line);
      DowngradePeerThins(s, c, n, w2, line);
      DowngradePeersThins(s1, sharers - {c}, n, w2, line1);
      ThinsTwice(s, s1, DowngradePeers(s1, sharers - {c}, n, w2, line1).0);
    }
  }

  lemma InvalidatePeerThins(s: State, c: nat, n: nat, w2: nat, line: Line)
    requires w2 < NUM_L2_WAYS
    ensures Thins(s, InvalidatePeer(s, c, n, w2, line).0)
  {
    hide Thins;
    var l2 := s.l2[n % 4096];
    var s0 := PutL2(s, n % 4096, l2.(dm := l2.dm[w2 := l2.dm[w2] - {c}]));
    SameThins(s, s0);
    if c < |s.cores| {
      var l1 := s.cores[c].l1d[n % 64];
      var w := Find(l1.tag, l1.state, n / 64);
      if w < NUM_L1_WAYS {
        var s1 := Emit(s0, SnoopInvalidate, c, 1, n % 64, w, 0, l1.state[w], Invalid, Some(l1.data[w]));
        SameThins(s, s1);
        PutThins(s1, c, false, n % 64, L1Drop(l1, w));
        ThinsTwice(s, s1, InvalidatePeer(s, c, n, w2, line).0);
      }
    }
  }

  lemma {:induction false} InvalidatePeersThins(s: State, sharers: set<nat>, n: nat, w2: nat, line: Line)
    requires w2 < NUM_L2_WAYS
    ensures Thins(s, InvalidatePeers(s, sharers, n, w2, line).0)
    decreases sharers
  {
    hide Thins, InvalidatePeer;
    if sharers == {} {
      SameThins(s, s);
    } else {
      var c := LowestBit(sharers);
      var (s1, line1) := InvalidatePeer(s, c, n, w2, line);
      InvalidatePeerThins(s, c, n, w2, line);
      InvalidatePeersThins(s1, sharers - {c}, n, w2, line1);
      ThinsTwice(s, s1, InvalidatePeers(s1, sharers - {c}, n, w2, line1).0);
    }
  }

  lemma InvalidatePeerIThins(s: State, c: nat, n: nat)
    ensures Thins(s, InvalidatePeerI(s, c, n))
  {
    hide Thins;
    SameThins(s, s);
    if c < |s.cores| {
      var l1 := s.cores[c].l1i[n % 64];
      var w := Find(l1.tag, l1.state, n / 64);
      if w < NUM_L1_WAYS {
        var s1 := Emit(s, L1iSnoopInvalidate, c, 1, n % 64, w, 0, l1.state[w], Invalid, None);
        SameThins(s, s1);
        PutThins(s1, c, true, n % 64, L1Drop(l1, w));
        ThinsTwice(s, s1, InvalidatePeerI(s, c, n));
      }
    }
  }

  lemma {:induction false} InvalidatePeersIThins(s: State, sharers: set<nat>, n: nat)
    ensures Thins(s, InvalidatePeersI(s, sharers, n))
    decreases sharers
  {
    hide Thins, InvalidatePeerI;
    if sharers == {} {
      SameThins(s, s);
    } else {
      var c := LowestBit(sharers);
      InvalidatePeerIThins(s, c, n);
      InvalidatePeersIThins(InvalidatePeerI(s, c, n), sharers - {c}, n);
      ThinsTwice(s, InvalidatePeerI(s, c, n), InvalidatePeersI(s, sharers, n));
    }
  }

  lemma BackInvalidateDThins(s: State, c: nat, n: nat, v: nat)
    requires v < NUM_L2_WAYS && BackInvalidateD(s, c, n, v).Done?
    ensures Thins(s, BackInvalidateD(s, c, n, v).value)
  {
    hide Thins;
    var l1 := s.cores[c].l1d[n % 64];
    var w := Find(l1.tag, l1.state, n / 64);
    var l2 := s.l2[n % 4096];
    var s1 := if l1.state[w] == Modified
              then PutL2(s, n % 4096, l2.(data := l2.data[v := l1.data[w]], state := l2.state[v := Modified]))
              else s;
    var s2 := Emit(s1, SnoopInvalidate, c, 1, n % 64, w, 64 * n, l1.state[w], Invalid, Some(l1.data[w]));
    SameThins(s, s2);
    PutThins(s2, c, false, n % 64, L1Drop(l1, w));
    ThinsTwice(s, s2, BackInvalidateD(s, c, n, v).value);
  }

  lemma BackInvalidateIThins(s: State, c: nat, n: nat)
    requires BackInvalidateI(s, c, n).Done?
    ensures Thins(s, BackInvalidateI(s, c, n).value)
  {
    hide Thins;
    var l1 := s.cores[c].l1i[n % 64];
    var w := Find(l1.tag, l1.state, n / 64);
    var s1 := Emit(s, L1iSnoopInvalidate, c, 1, n % 64, w, 64 * n, l1.state[w], Invalid, None);
    SameThins(s, s1);
    PutThins(s1, c, true, n % 64, L1Drop(l1, w));
    ThinsTwice(s, s1, BackInvalidateI(s, c, n).value);
  }

  lemma {:induction false} BackInvalidateThins(s: State, all: set<nat>, dm: set<nat>, im: set<nat>, n: nat, v: nat)
    requires v < NUM_L2_WAYS && BackInvalidate(s, all, dm, im, n, v).Done?
    ensures Thins(s, BackInvalidate(s, all, dm, im, n, v).value)
    decreases all
  {
    hide Thins, BackInvalidateD, BackInvalidateI;
    SameThins(s, s);
    if all == {} {
    } else {
      var c := LowestBit(all);
      if c in dm { BackInvalidateDThins(s, c, n, v); }
      var s1 := if c in dm then BackInvalidateD(s, c, n, v).value else s;
      if c in im { BackInvalidateIThins(s1, c, n); } else { SameThins(s1, s1); }
      var s2 := BackInvalidateCore(s, c, dm, im, n, v).value;
      ThinsTwice(s, s1, s2);
      BackInvalidateThins(s2, all - {c}, dm, im, n, v);
      ThinsTwice(s, s2, BackInvalidate(s, all, dm, im, n, v).value);
    }
  }

  lemma EvictL2Thins(s: State, k: nat)
    requires k < L2_SETS && EvictL2(s, k).Done?
    ensures Thins(s, EvictL2(s, k).value.0)
  {
    hide Thins, BackInvalidate, Plru.VictimFrom;
    SameThins(s, s);
    var l2 := s.l2[k];
    if FreeFrom(l2.state, 0) == NUM_L2_WAYS {
      var v := Plru.Victim(l2.plru);
      var n := l2.tag[v] * 4096 + k;
      BackInvalidateThins(s, l2.dm[v] + l2.im[v], l2.dm[v], l2.im[v], n, v);
      var s1 := BackInvalidate(s, l2.dm[v] + l2.im[v], l2.dm[v], l2.im[v], n, v).value;
      SameThins(s1, EvictL2(s, k).value.0);
      ThinsTwice(s, s1, EvictL2(s, k).value.0);
    }
  }

  lemma PfFillThins(s: State, from: int, next: int)
    requires PfFill(s, from, next).Done?
    ensures Thins(s, PfFill(s, from, next).value.0)
  {
    hide Thins, EvictL2, L2Install;
    SameThins(s, s);
    var s' := PfFill(s, from, next).value.0;
    if s' != s {
      var n: nat := next / 64;
      EvictL2Thins(s, n % 4096);
      SameThins(EvictL2(s, n % 4096).value.0, s');
      ThinsTwice(s, EvictL2(s, n % 4096).value.0, s');
    }
  }

  lemma {:induction false} RunBurstThins(s: State, head: int, miss: int, stride: int, left: nat)
    requires RunBurst(s, head, miss, stride, left).Done?
    ensures Thins(s, RunBurst(s, head, miss, stride, left).value.state)
    decreases left
  {
    hide Thins, PfFill;
    if left == 0 || (head - miss) * stride >= PREFETCH_DISTANCE * LINE_SIZE {
      SameThins(s, s);
    } else {
      var next := head + stride * LINE_SIZE;
      PfFillThins(s, head, next);
      var (s1, ok) := PfFill(s, head, next).value;
      if ok {
        RunBurstThins(s1, next, miss, stride, left - 1);
        ThinsTwice(s, s1, RunBurst(s1, next, miss, stride, left - 1).value.state);
      }
    }
  }

  lemma StreamOnMissThins(s: State, c: nat, miss: int)
    requires c < |s.cores| && StreamOnMiss(s, c, miss).Done?
    ensures Thins(s, StreamOnMiss(s, c, miss).value)
  {
    hide Thins, RunBurst;
    var pf := s.cores[c].pf;
    var i := MatchFrom(pf.streams, miss, 0);
    var s' := StreamOnMiss(s, c, miss).value;
    if i < NUM_STREAMS {
      var stream := Advanced(pf.streams[i], miss);
      RunBurstThins(s, stream.prefetchHead, miss, stream.direction.Sign(), PREFETCH_DISTANCE + 1);
      var b := RunBurst(s, stream.prefetchHead, miss, stream.direction.Sign(), PREFETCH_DISTANCE + 1).value;
      SameThins(b.state, s');
      ThinsTwice(s, b.state, s');
    } else {
      SameThins(s, s');
    }
  }

  // ---------------------------------------------------------------------------
  // Why a way is emptied
  // ---------------------------------------------------------------------------

  function LineAt(a: Slots, i: nat, w: nat): nat
    requires w < |a.tag|
  {
    a.tag[w] * 64 + i
  }

  /** During a call on line n, line m left L2, or the call stores to it. */
  ghost predicate Gone(s': State, n: nat, stored: bool, m: nat) {
    (m / 64 != n / 64 && Proj(s', m).l2.NotInL2?) || (stored && m == n)
  }

  ghost predicate EmptiedIn(s: State, s': State, n: nat, stored: bool, c: nat, instr: bool, i: nat)
    requires c < |s.cores| == |s'.cores| && i < L1_SETS
  {
    Emptied(s', n, stored, i, SlotsIn(s, c, instr, i), SlotsIn(s', c, instr, i))
  }

  ghost predicate Emptied(s': State, n: nat, stored: bool, i: nat, a: Slots, b: Slots) {
    forall w: nat :: w < |a.valid| && w < |b.valid| && w < |a.tag| && a.valid[w] && !b.valid[w] ==>
      Gone(s', n, stored, LineAt(a, i, w))
  }

  /** Nothing outside n's page enters L2. */
  ghost predicate NoEntry(s: State, s': State, n: nat) {
    forall m: nat :: m / 64 != n / 64 && Proj(s', m).l2.InL2? ==> Proj(s, m).l2.InL2?
  }

  /** Ways are emptied for those reasons only. */
  ghost predicate Sheds(s: State, s': State, n: nat, stored: bool) {
    && Thins(s, s') && NoEntry(s, s', n)
    && forall c: nat, instr, i: nat :: c < |s.cores| && i < L1_SETS ==> EmptiedIn(s, s', n, stored, c, instr, i)
  }

  lemma GoneStays(s: State, s': State, n: nat, stored: bool, m: nat)
    requires Gone(s, n, stored, m) && NoEntry(s, s', n)
    ensures Gone(s', n, stored, m)
  {
    hide Proj;
  }

  lemma ShedsTwice(s: State, s1: State, s2: State, n: nat, stored: bool)
    requires Sheds(s, s1, n, stored) && Sheds(s1, s2, n, stored)
    ensures Sheds(s, s2, n, stored)
  {
    hide Proj, Gone, SlotsIn;
    ThinsTwice(s, s1, s2);
    forall c: nat, instr, i: nat | c < |s.cores| && i < L1_SETS ensures EmptiedIn(s, s2, n, stored, c, instr, i) {
      assert EmptiedIn(s, s1, n, stored, c, instr, i) && EmptiedIn(s1, s2, n, stored, c, instr, i);
      assert ThinsIn(s, s1, c, instr, i);
      var a, a1, b := SlotsIn(s, c, instr, i), SlotsIn(s1, c, instr, i), SlotsIn(s2, c, instr, i);
      forall w: nat | w < NUM_L1_WAYS && a.valid[w] && !b.valid[w] ensures Gone(s2, n, stored, LineAt(a, i, w)) {
        if !a1.valid[w] { GoneStays(s1, s2, n, stored, LineAt(a, i, w)); }
      }
    }
  }

  /** A way that was emptied held a copy that is no more. */
  lemma EmptiedIsDropped(s: State, s': State, c: nat, instr: bool, i: nat, w: nat)
    requires Placed(s) && ThinsIn(s, s', c, instr, i) && w < NUM_L1_WAYS
    requires SlotsIn(s, c, instr, i).valid[w] && !SlotsIn(s', c, instr, i).valid[w]
    ensures var m := LineAt(SlotsIn(s, c, instr, i), i, w);
            && m % 64 == i
            && Holds(if instr then Proj(s, m).i else Proj(s, m).d, c)
            && !Holds(if instr then Proj(s', m).i else Proj(s', m).d, c)
  {
    hide Proj, L2Ok;
    var a, b := SlotsIn(s, c, instr, i), SlotsIn(s', c, instr, i);
    var m := LineAt(a, i, w);
    assert Valid(GetL1(s, c, instr, i).state, w);
    FullL1Way(s, c, instr, i, w);
    L1WayProj(s, c, instr, m);
    L1WayProj(s', c, instr, m);
    assert L1Ok(GetL1(s, c, instr, i));
    forall u: nat | u < NUM_L1_WAYS ensures a.valid[u] == Valid(GetL1(s, c, instr, i).state, u) {}
    forall u: nat | u < NUM_L1_WAYS && a.tag[u] == a.tag[w] ensures !b.valid[u] {}
  }

  /** Prefetches and L2 evictions. */
  lemma BringsSheds(s: State, s': State, n: nat, lines: seq<nat>)
    requires Inv(s) && Thins(s, s') && Brings(s, s', n, lines)
    ensures Sheds(s, s', n, false)
  {
    hide Proj, Placed, Coherent, SlotsIn, Thins;
    ThinsCores(s, s');
    forall c: nat, instr, i: nat | c < |s.cores| && i < L1_SETS ensures EmptiedIn(s, s', n, false, c, instr, i) {
      assert ThinsIn(s, s', c, instr, i) by { ThinsAt(s, s', c, instr, i); }
      var a, b := SlotsIn(s, c, instr, i), SlotsIn(s', c, instr, i);
      forall w: nat | w < NUM_L1_WAYS && a.valid[w] && !b.valid[w] ensures Gone(s', n, false, LineAt(a, i, w)) {
        EmptiedIsDropped(s, s', c, instr, i, w);
        assert Coherent(Proj(s, LineAt(a, i, w)));
        HolderInL2(Proj(s, LineAt(a, i, w)), c);
      }
    }
  }

  lemma ThinsCores(s: State, s': State)
    requires Thins(s, s')
    ensures |s'.cores| == |s.cores|
  {
  }

  lemma ThinsAt(s: State, s': State, c: nat, instr: bool, i: nat)
    requires Thins(s, s') && c < |s.cores| && i < L1_SETS
    ensures ThinsIn(s, s', c, instr, i)
  {
  }

  lemma HolderInL2(x: LineState, c: nat)
    requires Coherent(x) && (Holds(x.d, c) || Holds(x.i, c))
    ensures x.l2.InL2?
  {
  }

  /** Snoops on line n. */
  lemma MovedSheds(s: State, s': State, n: nat, x: LineState, stored: bool)
    requires Placed(s) && Thins(s, s') && Moved(s, s', n, x)
    requires stored || (forall c: nat :: (Holds(Proj(s, n).d, c) ==> Holds(x.d, c))
                                         && (Holds(Proj(s, n).i, c) ==> Holds(x.i, c)))
    ensures Sheds(s, s', n, stored)
  {
    hide Proj, Placed, Coherent, SlotsIn, Thins;
    ThinsCores(s, s');
    forall c: nat, instr, i: nat | c < |s.cores| && i < L1_SETS ensures EmptiedIn(s, s', n, stored, c, instr, i) {
      assert ThinsIn(s, s', c, instr, i) by { ThinsAt(s, s', c, instr, i); }
      var a, b := SlotsIn(s, c, instr, i), SlotsIn(s', c, instr, i);
      forall w: nat | w < NUM_L1_WAYS && a.valid[w] && !b.valid[w] ensures Gone(s', n, stored, LineAt(a, i, w)) {
        EmptiedIsDropped(s, s', c, instr, i, w);
      }
    }
  }

  /** Bookkeeping. */
  lemma SameSheds(s: State, s': State, n: nat, stored: bool)
    requires |s'.cores| == |s.cores| && s'.l2 == s.l2 && s'.mem == s.mem
    requires forall c: nat :: c < |s.cores| ==> s'.cores[c].l1d == s.cores[c].l1d && s'.cores[c].l1i == s.cores[c].l1i
    ensures Sheds(s, s', n, stored)
  {
    hide Proj;
    SameThins(s, s');
    SameCaches(s, s');
    forall c: nat, instr, i: nat | c < |s.cores| && i < L1_SETS ensures EmptiedIn(s, s', n, stored, c, instr, i) {
      assert SlotsIn(s', c, instr, i) == SlotsIn(s, c, instr, i);
    }
  }

  // ---------------------------------------------------------------------------
  // The set that a call goes to
  // ---------------------------------------------------------------------------

  /** In every set but core c's set for line n. */
  ghost predicate ShedsBut(s: State, s': State, n: nat, stored: bool, c: nat, instr: bool) {
    && |s'.cores| == |s.cores| && NoEntry(s, s', n)
    && forall b: nat, code, i: nat :: b < |s.cores| && i < L1_SETS && !(b == c && code == instr && i == n % 64) ==>
         ThinsIn(s, s', b, code, i) && EmptiedIn(s, s', n, stored, b, code, i)
  }

  /** In that set, ways are emptied of lines that left L2. */
  ghost predicate OwnThins(s: State, s': State, n: nat, c: nat, instr: bool) {
    && ThinsIn(s, s', c, instr, n % 64)
    && EmptiedIn(s, s', n, false, c, instr, n % 64)
  }

  /** In between, that set serves line n: it is found there, or it takes an unused way, or
      that of the victim. */
  ghost predicate OwnServed(s: State, s': State, c: nat, instr: bool, n: nat, a: Slots, b: Slots, w: nat) {
    && c < |s.cores| == |s'.cores| && w < NUM_L1_WAYS && Shaped(a, 3)
    && Thinned(SlotsIn(s, c, instr, n % 64), a) && Emptied(s', n, false, n % 64, SlotsIn(s, c, instr, n % 64), a)
    && Served(a, b, n / 64, w)
    && Thinned(b, SlotsIn(s', c, instr, n % 64)) && Emptied(s', n, false, n % 64, b, SlotsIn(s', c, instr, n % 64))
  }

  lemma ShedsIsBoth(s: State, s': State, n: nat, c: nat, instr: bool)
    requires Sheds(s, s', n, false) && c < |s.cores|
    ensures ShedsBut(s, s', n, false, c, instr) && OwnThins(s, s', n, c, instr)
  {
    hide Proj, SlotsIn, Gone;
    assert ThinsIn(s, s', c, instr, n % 64) && EmptiedIn(s, s', n, false, c, instr, n % 64);
  }

  lemma ShedsMore(s: State, s': State, n: nat, c: nat, instr: bool)
    requires ShedsBut(s, s', n, false, c, instr)
    ensures ShedsBut(s, s', n, true, c, instr)
  {
    hide Proj, SlotsIn;
    forall b: nat, code, i: nat | b < |s.cores| && i < L1_SETS && !(b == c && code == instr && i == n % 64)
      ensures EmptiedIn(s, s', n, true, b, code, i)
    {
      assert EmptiedIn(s, s', n, false, b, code, i);
    }
  }

  lemma ShedsButTwice(s: State, s1: State, s2: State, n: nat, stored: bool, c: nat, instr: bool)
    requires ShedsBut(s, s1, n, stored, c, instr) && ShedsBut(s1, s2, n, stored, c, instr)
    ensures ShedsBut(s, s2, n, stored, c, instr)
  {
    hide Proj, Gone, SlotsIn;
    forall b: nat, code, i: nat | b < |s.cores| && i < L1_SETS && !(b == c && code == instr && i == n % 64)
      ensures ThinsIn(s, s2, b, code, i) && EmptiedIn(s, s2, n, stored, b, code, i)
    {
      assert ThinsIn(s, s1, b, code, i) && EmptiedIn(s, s1, n, stored, b, code, i);
      assert ThinsIn(s1, s2, b, code, i) && EmptiedIn(s1, s2, n, stored, b, code, i);
      EmptiedTwice(s1, s2, n, stored, i, SlotsIn(s, b, code, i), SlotsIn(s1, b, code, i), SlotsIn(s2, b, code, i));
    }
  }

  lemma EmptiedTwice(s1: State, s2: State, n: nat, stored: bool, i: nat, a: Slots, a1: Slots, b: Slots)
    requires Emptied(s1, n, stored, i, a, a1) && Emptied(s2, n, stored, i, a1, b) && NoEntry(s1, s2, n)
    requires Thinned(a, a1) && Thinned(a1, b)
    ensures Emptied(s2, n, stored, i, a, b)
  {
    hide Proj, Gone, NoEntry;
    forall w: nat | w < |a.valid| && w < |b.valid| && w < |a.tag| && a.valid[w] && !b.valid[w]
      ensures Gone(s2, n, stored, LineAt(a, i, w))
    {
      if !a1.valid[w] { GoneStays(s1, s2, n, stored, LineAt(a, i, w)); }
    }
  }

  lemma NothingSheds(s: State, n: nat, stored: bool, c: nat, instr: bool)
    requires c < |s.cores|
    ensures ShedsBut(s, s, n, stored, c, instr) && OwnThins(s, s, n, c, instr)
  {
    hide Proj, SlotsIn;
  }

  /** Emptying before and after, and the service in between. */
  lemma Staged(s: State, s1: State, s2: State, s3: State, n: nat, stored: bool, c: nat, instr: bool, w: nat)
    requires ShedsBut(s, s1, n, stored, c, instr) && OwnThins(s, s1, n, c, instr)
    requires ShedsBut(s1, s2, n, stored, c, instr) && c < |s.cores| && w < NUM_L1_WAYS
    requires Served(SlotsIn(s1, c, instr, n % 64), SlotsIn(s2, c, instr, n % 64), n / 64, w)
    requires ShedsBut(s2, s3, n, stored, c, instr) && OwnThins(s2, s3, n, c, instr)
    ensures ShedsBut(s, s3, n, stored, c, instr)
    ensures OwnServed(s, s3, c, instr, n, SlotsIn(s1, c, instr, n % 64), SlotsIn(s2, c, instr, n % 64), w)
  {
    hide Proj, Gone, SlotsIn, Served;
    ShedsButTwice(s, s1, s2, n, stored, c, instr);
    ShedsButTwice(s, s2, s3, n, stored, c, instr);
    var i := n % 64;
    var a, a1 := SlotsIn(s, c, instr, i), SlotsIn(s1, c, instr, i);
    InShaped(s1, c, instr, i);
    EmptiedLater(s1, s2, n, i, a, a1);
    EmptiedLater(s2, s3, n, i, a, a1);
  }

  lemma EmptiedLater(s1: State, s2: State, n: nat, i: nat, a: Slots, b: Slots)
    requires Emptied(s1, n, false, i, a, b) && NoEntry(s1, s2, n)
    ensures Emptied(s2, n, false, i, a, b)
  {
    hide Proj, Gone, NoEntry;
    forall w: nat | w < |a.valid| && w < |b.valid| && w < |a.tag| && a.valid[w] && !b.valid[w]
      ensures Gone(s2, n, false, LineAt(a, i, w))
    {
      GoneStays(s1, s2, n, false, LineAt(a, i, w));
    }
  }

  // ---------------------------------------------------------------------------
  // Hits and fills
  // ---------------------------------------------------------------------------

  /** The other sets are as they were. */
  ghost predicate OthersSame(s: State, s': State, c: nat, instr: bool, n: nat) {
    && |s'.cores| == |s.cores|
    && forall b: nat, code, i: nat :: b < |s.cores| && i < L1_SETS && !(b == c && code == instr && i == n % 64) ==>
         SlotsIn(s', b, code, i) == SlotsIn(s, b, code, i)
  }

  lemma OthersShed(s: State, s': State, n: nat, stored: bool, c: nat, instr: bool)
    requires OthersSame(s, s', c, instr, n) && NoEntry(s, s', n)
    ensures ShedsBut(s, s', n, stored, c, instr)
  {
    hide Proj, SlotsIn, NoEntry, Gone;
    forall b: nat, code, i: nat | b < |s.cores| && i < L1_SETS && !(b == c && code == instr && i == n % 64)
      ensures ThinsIn(s, s', b, code, i) && EmptiedIn(s, s', n, stored, b, code, i)
    {
      assert SlotsIn(s', b, code, i) == SlotsIn(s, b, code, i);
    }
  }

  lemma PutIsOwn(s: State, s': State, c: nat, instr: bool, n: nat, l1: L1Set)
    requires c < |s.cores| == |s'.cores|
    requires var t := PutL1(s, c, instr, n % 64, l1);
             forall b: nat :: b < |s.cores| ==>
               s'.cores[b].l1d == t.cores[b].l1d && s'.cores[b].l1i == t.cores[b].l1i
    ensures OthersSame(s, s', c, instr, n) && SlotsIn(s', c, instr, n % 64) == Slots1(l1)
  {
    var t := PutL1(s, c, instr, n % 64, l1);
    forall b: nat, code, i: nat | b < |s.cores| && i < L1_SETS && !(b == c && code == instr && i == n % 64)
      ensures SlotsIn(s', b, code, i) == SlotsIn(s, b, code, i)
    {
      assert GetL1(t, b, code, i) == GetL1(s, b, code, i);
    }
    assert GetL1(t, c, instr, n % 64) == l1;
  }

  lemma MovedEnters(s: State, s': State, n: nat, x: LineState)
    requires Moved(s, s', n, x)
    ensures NoEntry(s, s', n)
  {
    hide Proj, Placed;
  }

  lemma CallEnters(s: State, s': State, n: nat, x: LineState)
    requires Stretch(s, s', n, x) || Call(s, s', n, x)
    ensures NoEntry(s, s', n)
  {
    hide Proj, Inv;
  }

  lemma EntersTwice(s: State, s1: State, s2: State, n: nat)
    requires NoEntry(s, s1, n) && NoEntry(s1, s2, n)
    ensures NoEntry(s, s2, n)
  {
    hide Proj;
  }

  /** A hit touches its way; its state may change, but it stays valid. */
  lemma HitServes(l1: L1Set, l1': L1Set, tag: nat)
    requires var w := Find(l1.tag, l1.state, tag);
             && w < NUM_L1_WAYS && l1'.tag == l1.tag && l1'.plru == Plru.Update(l1.plru, w)
             && forall v: nat :: v < NUM_L1_WAYS ==> Valid(l1'.state, v) == Valid(l1.state, v)
    ensures Served(Slots1(l1), Slots1(l1'), tag, Find(l1.tag, l1.state, tag))
  {
    hide Plru.UpdateFrom;
    var w := Find(l1.tag, l1.state, tag);
    assert HasAt(Slots1(l1), tag, w);
    forall v: nat | v < NUM_L1_WAYS ensures Slots1(l1').valid[v] == Slots1(l1).valid[v] {
      assert Valid(l1'.state, v) == Valid(l1.state, v);
    }
  }

  /** evict_l1 and the fill of the way that it frees. */
  lemma FillServes(s: State, c: nat, instr: bool, n: nat, line: Line, state: Mesi)
    requires c < |s.cores| && state != Invalid && L1WayOf(s, c, instr, n) == NUM_L1_WAYS
    requires EvictL1(s, c, instr, n % 64).Done?
    ensures var (s1, w1) := EvictL1(s, c, instr, n % 64).value;
            && OthersSame(s, s1, c, instr, n)
            && Served(SlotsIn(s, c, instr, n % 64),
                      Slots1(L1Fill(GetL1(s1, c, instr, n % 64), n / 64, w1, line, state)), n / 64, w1)
  {
    hide L2WriteBack, L2Release, Plru.UpdateFrom, Plru.VictimFrom;
    var l1 := GetL1(s, c, instr, n % 64);
    var (s1, w1) := EvictL1(s, c, instr, n % 64).value;
    var a := Slots1(l1);
    assert !Has(a, n / 64) by {
      forall v: nat ensures !HasAt(a, n / 64, v) {
        if v < NUM_L1_WAYS { assert !Match(l1.tag, l1.state, n / 64, v); }
      }
    }
    if FreeFrom(l1.state, 0) < NUM_L1_WAYS {
      assert !a.valid[w1];
    } else {
      assert AllUsed(a);
      PutIsOwn(s, s1, c, instr, n, L1Drop(l1, w1));
      assert GetL1(s1, c, instr, n % 64) == L1Drop(l1, w1);
    }
  }

  // ---------------------------------------------------------------------------
  // Each kind of call
  // ---------------------------------------------------------------------------

  /** A call on line n that leaves core c's set as `a`, then `b`, served; s' is its end. */
  ghost predicate Effect(s: State, s': State, n: nat, stored: bool, c: nat, instr: bool, a: Slots, b: Slots, w: nat) {
    OwnServed(s, s', c, instr, n, a, b, w) && ShedsBut(s, s', n, stored, c, instr)
  }

  /** The set of the first state serves the line and nothing is emptied around that. */
  lemma ServedAtOnce(s: State, s': State, n: nat, stored: bool, c: nat, instr: bool, w: nat)
    requires ShedsBut(s, s', n, stored, c, instr) && c < |s.cores| && w < NUM_L1_WAYS
    requires Served(SlotsIn(s, c, instr, n % 64), SlotsIn(s', c, instr, n % 64), n / 64, w)
    ensures Effect(s, s', n, stored, c, instr, SlotsIn(s, c, instr, n % 64), SlotsIn(s', c, instr, n % 64), w)
  {
    hide ShedsBut, OwnThins, OwnServed, SlotsIn, Served;
    NothingSheds(s, n, stored, c, instr);
    SameCount(s, s', n, stored, c, instr);
    NothingSheds(s', n, stored, c, instr);
    Staged(s, s, s', s', n, stored, c, instr, w);
  }

  lemma SameCount(s: State, s': State, n: nat, stored: bool, c: nat, instr: bool)
    requires ShedsBut(s, s', n, stored, c, instr)
    ensures |s'.cores| == |s.cores|
  {
  }

  /** A hit that touches a way, with whatever bookkeeping. */
  lemma TouchServes(s: State, s': State, c: nat, instr: bool, n: nat, l1: L1Set) returns (w: nat)
    requires Inv(s) && c < |s.cores| == |s'.cores| && L1WayOf(s, c, instr, n) < NUM_L1_WAYS
    requires var t := PutL1(s, c, instr, n % 64, l1);
             forall b: nat :: b < |s.cores| ==>
               s'.cores[b].l1d == t.cores[b].l1d && s'.cores[b].l1i == t.cores[b].l1i
    requires l1 == L1Touch(GetL1(s, c, instr, n % 64), L1WayOf(s, c, instr, n)) && s'.l2 == s.l2
    ensures Effect(s, s', n, false, c, instr, SlotsIn(s, c, instr, n % 64), SlotsIn(s', c, instr, n % 64), w)
  {
    hide Inv, ShedsBut, Effect, Served, OthersSame, Proj;
    w := L1WayOf(s, c, instr, n);
    HitServes(GetL1(s, c, instr, n % 64), l1, n / 64);
    PutIsOwn(s, s', c, instr, n, l1);
    assert NoEntry(s, s', n) by { SameL2Enters(s, s', n); }
    OthersShed(s, s', n, false, c, instr);
    ServedAtOnce(s, s', n, false, c, instr, w);
  }

  lemma SameL2Enters(s: State, s': State, n: nat)
    requires s'.l2 == s.l2
    ensures NoEntry(s, s', n)
  {
  }

  lemma ReadKeepsHolders(x: LineState, c: nat, instr: bool)
    requires x.l2.InL2?
    ensures forall b: nat :: (Holds(C.Read1(x, c, instr).d, b) <==> Holds(x.d, b))
                             && (Holds(C.Read1(x, c, instr).i, b) <==> Holds(x.i, b))
  {
  }

  lemma ReadL2WayThins(s: State, c: nat, instr: bool, n: nat, w2: nat)
    requires c < |s.cores| && w2 < NUM_L2_WAYS
    ensures Thins(s, ReadL2Way(s, c, instr, n, w2).0)
  {
    hide Thins, DowngradePeers, L2Read;
    var line := s.l2[n % 4096].data[w2];
    var l2 := L2Read(s.l2[n % 4096], c, w2, instr);
    var s1 := PutL2(s, n % 4096, l2);
    var s2 := SetL2State(s1, n % 4096, w2, Shared);
    SameThins(s, s1);
    SameThins(s, s2);
    DowngradePeersThins(s2, l2.dm[w2] - {c}, n, w2, line);
    ThinsTwice(s, s2, DowngradePeers(s2, l2.dm[w2] - {c}, n, w2, line).0);
  }

  /** From an L2 hit to the filled L1: the victim's way, if any, and no other is emptied. */
  lemma ReadFillServes(s: State, c: nat, instr: bool, n: nat, w2: nat)
    requires Inv(s) && c < |s.cores| && w2 < NUM_L2_WAYS && w2 == L2WayOf(s, n)
    requires L1WayOf(s, c, instr, n) == NUM_L1_WAYS
    ensures var r1 := EvictL1(s, c, instr, n % 64);
            && r1.Done?
            && var (s1, w1) := r1.value;
               var (s2, line, shared) := ReadL2Way(s1, c, instr, n, w2);
               var fill := if shared || instr then Shared else Exclusive;
               var s3 := PutL1(s2, c, instr, n % 64, L1Fill(GetL1(s2, c, instr, n % 64), n / 64, w1, line, fill));
               && ShedsBut(s, s3, n, false, c, instr) && c < |s3.cores|
               && Served(SlotsIn(s, c, instr, n % 64), SlotsIn(s3, c, instr, n % 64), n / 64, w1)
  {
    hide Placed, Proj, Coherent, EvictL1, ReadL2Way, L1Fill, Stretch, L1WayOf, ShedsBut, Served, SlotsIn, OthersSame,
         Sheds, C.Read1, Thins;
    EvictL1Stretch(s, c, instr, n);
    var (s1, w1) := EvictL1(s, c, instr, n % 64).value;
    StretchKeeps(s, s1, n);
    SameL2WaysFinds(s, s1, n);
    C.ReadL2WayMoves(s1, c, instr, n, w2);
    var (s2, line, shared) := ReadL2Way(s1, c, instr, n, w2);
    var fill := if shared || instr then Shared else Exclusive;
    FillServes(s, c, instr, n, line, fill);
    CallEnters(s, s1, n, Proj(s, n));
    OthersShed(s, s1, n, false, c, instr);
    ReadL2WayThins(s1, c, instr, n, w2);
    ReadKeepsHolders(Proj(s1, n), c, instr);
    MovedSheds(s1, s2, n, C.Read1(Proj(s1, n), c, instr), false);
    ShedsIsBoth(s1, s2, n, c, instr);
    ShedsButTwice(s, s1, s2, n, false, c, instr);
    var l1 := L1Fill(GetL1(s2, c, instr, n % 64), n / 64, w1, line, fill);
    var s3 := PutL1(s2, c, instr, n % 64, l1);
    PutIsOwn(s2, s3, c, instr, n, l1);
    SameL2Enters(s2, s3, n);
    OthersShed(s2, s3, n, false, c, instr);
    ShedsButTwice(s, s2, s3, n, false, c, instr);
  }

  lemma SameSlots(s: State, s': State, n: nat, stored: bool, c: nat, instr: bool)
    requires c < |s.cores| == |s'.cores| && s'.l2 == s.l2 && s'.mem == s.mem
    requires forall b: nat :: b < |s.cores| ==> s'.cores[b].l1d == s.cores[b].l1d && s'.cores[b].l1i == s.cores[b].l1i
    ensures ShedsBut(s, s', n, stored, c, instr) && OwnThins(s, s', n, c, instr)
  {
    hide Sheds, ShedsBut, OwnThins;
    SameSheds(s, s', n, false);
    ShedsIsBoth(s, s', n, c, instr);
    if stored { ShedsMore(s, s', n, c, instr); }
  }

  /** Service of the line in the middle of bookkeeping. */
  lemma ServedWithin(s: State, s1: State, s2: State, s3: State, n: nat, stored: bool, c: nat, instr: bool, w: nat)
    requires c < |s.cores| == |s1.cores| && s1.l2 == s.l2 && s1.mem == s.mem
    requires forall b: nat :: b < |s.cores| ==> s1.cores[b].l1d == s.cores[b].l1d && s1.cores[b].l1i == s.cores[b].l1i
    requires ShedsBut(s1, s2, n, stored, c, instr) && w < NUM_L1_WAYS && |s2.cores| == |s.cores|
    requires Served(SlotsIn(s1, c, instr, n % 64), SlotsIn(s2, c, instr, n % 64), n / 64, w)
    requires |s3.cores| == |s2.cores| && s3.l2 == s2.l2 && s3.mem == s2.mem
    requires forall b: nat :: b < |s.cores| ==> s3.cores[b].l1d == s2.cores[b].l1d && s3.cores[b].l1i == s2.cores[b].l1i
    ensures Effect(s, s3, n, stored, c, instr, SlotsIn(s1, c, instr, n % 64), SlotsIn(s2, c, instr, n % 64), w)
  {
    hide ShedsBut, OwnThins, OwnServed, SlotsIn, Served;
    SameSlots(s, s1, n, stored, c, instr);
    SameSlots(s2, s3, n, stored, c, instr);
    Staged(s, s1, s2, s3, n, stored, c, instr, w);
  }

  lemma ReadFromL2Serves(s: State, c: nat, pa: nat, w2: nat) returns (a: Slots, b: Slots, w: nat)
    requires Inv(s) && c < |s.cores| && w2 < NUM_L2_WAYS && w2 == L2WayOf(s, pa / 64)
    requires L1WayOf(s, c, false, pa / 64) == NUM_L1_WAYS
    ensures var r := ReadFromL2(s, c, pa, w2); r.Done? && Effect(s, r.value.0, pa / 64, false, c, false, a, b, w)
  {
    hide Placed, Proj, Coherent, EvictL1, ReadL2Way, L1Fill, Stretch, ShedsBut, Served, SlotsIn, Effect;
    var n := pa / 64;
    var state := s.l2[n % 4096].state[w2];
    var s0 := Emit(s, L2Hit, c, 2, n % 4096, w2, pa, state, state, None);
    SameStretch(s, s0, n);
    StretchKeeps(s, s0, n);
    ReadFillServes(s0, c, false, n, w2);
    var (s1, w1) := EvictL1(s0, c, false, n % 64).value;
    var (s2, line, shared) := ReadL2Way(s1, c, false, n, w2);
    var s3 := PutL1(s2, c, false, n % 64,
                    L1Fill(GetL1(s2, c, false, n % 64), n / 64, w1, line, if shared then Shared else Exclusive));
    a, b, w := SlotsIn(s0, c, false, n % 64), SlotsIn(s3, c, false, n % 64), w1;
    ServedWithin(s, s0, s3, ReadFromL2(s, c, pa, w2).value.0, n, false, c, false, w1);
  }

  lemma FetchFromL2Serves(s: State, c: nat, n: nat, w2: nat) returns (a: Slots, b: Slots, w: nat)
    requires Inv(s) && c < |s.cores| && w2 < NUM_L2_WAYS && w2 == L2WayOf(s, n)
    requires L1WayOf(s, c, true, n) == NUM_L1_WAYS && FetchFromL2(s, c, n, w2).Done?
    ensures Effect(s, FetchFromL2(s, c, n, w2).value.0, n, false, c, true, a, b, w)
  {
    hide Placed, Proj, Coherent, EvictL1, ReadL2Way, L1Fill, ShedsBut, Served, SlotsIn, Effect;
    ReadFillServes(s, c, true, n, w2);
    var (s1, w1) := EvictL1(s, c, true, n % 64).value;
    var (s2, line, _) := ReadL2Way(s1, c, true, n, w2);
    var s3 := PutL1(s2, c, true, n % 64, L1Fill(GetL1(s2, c, true, n % 64), n / 64, w1, line, Shared));
    a, b, w := SlotsIn(s, c, true, n % 64), SlotsIn(s3, c, true, n % 64), w1;
    ServedWithin(s, s, s3, FetchFromL2(s, c, n, w2).value.0, n, false, c, true, w1);
  }

  // ---------------------------------------------------------------------------
  // Misses
  // ---------------------------------------------------------------------------

  /** Making room in L1 and filling both levels. */
  lemma InstallServes(s: State, c: nat, instr: bool, n: nat, w2: nat, line: Line, state: Mesi)
    requires Inv(s) && c < |s.cores| && w2 < NUM_L2_WAYS && state != Invalid
    requires Proj(s, n).l2.NotInL2? && InMemory(s.mem, n) && s.l2[n % 4096].state[w2] == Invalid
    requires state == Exclusive || (state == Modified && !instr)
    requires instr ==> line == MemLine(s.mem, n)
    ensures var r1 := EvictL1(s, c, instr, n % 64);
            && r1.Done?
            && var (s1, w1) := r1.value;
               var r2 := InstallBoth(s1, c, instr, n, w2, w1, line, state);
               && r2.Done? && ShedsBut(s, r2.value, n, false, c, instr) && c < |r2.value.cores|
               && Served(SlotsIn(s, c, instr, n % 64), SlotsIn(r2.value, c, instr, n % 64), n / 64, w1)
  {
    hide Placed, Proj, Coherent, EvictL1, InstallBoth, L1Fill, Stretch, ShedsBut, Served, SlotsIn, L1WayOf, OthersSame;
    C.NotInL1(s, c, instr, n);
    EvictL1Stretch(s, c, instr, n);
    var (s1, w1) := EvictL1(s, c, instr, n % 64).value;
    C.StretchRest(s, s1, n, Proj(s, n));
    assert s1.l2[n % 4096].state[w2] == Invalid by { EmptyStays(s, s1, n, w2); }
    C.NotInL1(s1, c, instr, n);
    FillServes(s, c, instr, n, line, if instr then Shared else state);
    CallEnters(s, s1, n, Proj(s, n));
    OthersShed(s, s1, n, false, c, instr);
    C.InstallBothMoves(s1, c, instr, n, w2, w1, line, state);
    var s2 := InstallBoth(s1, c, instr, n, w2, w1, line, state).value;
    MovedEnters(s1, s2, n, C.Installed(Proj(s1, n), c, instr, line, state));
    InstalledSets(s1, c, instr, n, w2, w1, line, state);
    OthersShed(s1, s2, n, false, c, instr);
    ShedsButTwice(s, s1, s2, n, false, c, instr);
  }

  lemma EmptyStays(s: State, s': State, n: nat, w: nat)
    requires SameL2Ways(s, s') && w < NUM_L2_WAYS && s.l2[n % 4096].state[w] == Invalid
    ensures s'.l2[n % 4096].state[w] == Invalid
  {
    assert WaysKept(s.l2[n % 4096], s'.l2[n % 4096]);
    assert !Valid(s.l2[n % 4096].state, w);
  }

  lemma InstalledSets(s: State, c: nat, instr: bool, n: nat, w2: nat, w1: nat, line: Line, state: Mesi)
    requires c < |s.cores| && w2 < NUM_L2_WAYS && w1 < NUM_L1_WAYS
    requires InstallBoth(s, c, instr, n, w2, w1, line, state).Done?
    ensures var s' := InstallBoth(s, c, instr, n, w2, w1, line, state).value;
            && OthersSame(s, s', c, instr, n)
            && SlotsIn(s', c, instr, n % 64)
            == Slots1(L1Fill(GetL1(s, c, instr, n % 64), n / 64, w1, line, if instr then Shared else state))
  {
    hide L2Install, L1Fill, OthersSame, SlotsIn;
    var l1 := L1Fill(GetL1(s, c, instr, n % 64), n / 64, w1, line, if instr then Shared else state);
    PutIsOwn(s, InstallBoth(s, c, instr, n, w2, w1, line, state).value, c, instr, n, l1);
  }

  /** A miss in L2, up to the prefetches. */
  lemma FillBothServes(s: State, c: nat, instr: bool, n: nat, line: Line, state: Mesi)
    requires Inv(s) && c < |s.cores| && Proj(s, n).l2.NotInL2? && InMemory(s.mem, n)
    requires state == Exclusive || (state == Modified && !instr)
    requires instr ==> line == MemLine(s.mem, n)
    ensures var r0, r1 := EvictL2(s, n % 4096), MakeRoom(s, c, instr, n);
            && r0.Done? && r1.Done?
            && var (t, _) := r0.value;
               var (s1, w2, w1) := r1.value;
               var r2 := InstallBoth(s1, c, instr, n, w2, w1, line, state);
               && r2.Done? && ShedsBut(s, t, n, false, c, instr) && OwnThins(s, t, n, c, instr)
               && ShedsBut(t, r2.value, n, false, c, instr) && c < |t.cores| == |r2.value.cores|
               && Served(SlotsIn(t, c, instr, n % 64), SlotsIn(r2.value, c, instr, n % 64), n / 64, w1)
  {
    hide Placed, Proj, Coherent, EvictL1, EvictL2, InstallBoth, ShedsBut, OwnThins, Served, SlotsIn, Sheds, Brings,
         Thins;
    EvictL2Brings(s, n);
    EvictL2Thins(s, n % 4096);
    var (t, w2) := EvictL2(s, n % 4096).value;
    BringsSheds(s, t, n, []);
    ShedsIsBoth(s, t, n, c, instr);
    MissingStays(s, t, n);
    C.MakeRoomStretch(s, c, instr, n);
    SameLineAfter(s, t, n);
    InstallServes(t, c, instr, n, w2, line, state);
  }

  lemma SameLineAfter(s: State, t: State, n: nat)
    requires Brings(s, t, n, []) && SameRest(s, t)
    ensures MemLine(t.mem, n) == MemLine(s.mem, n) && |t.mem| == |s.mem|
  {
    L2WayProj(s, n);
    L2WayProj(t, n);
    assert Proj(t, n) == Proj(s, n);
  }

  lemma MissServes(s: State, c: nat, n: nat, line: Line, state: Mesi) returns (a: Slots, b: Slots, w: nat)
    requires Inv(s) && Windowed(s) && c < |s.cores| && Proj(s, n).l2.NotInL2? && InMemory(s.mem, n)
    requires state == Exclusive || state == Modified
    ensures var r1 := MakeRoom(s, c, false, n);
            && r1.Done?
            && var (s1, w2, w1) := r1.value;
               var r2 := InstallBoth(s1, c, false, n, w2, w1, line, state);
               && r2.Done?
               && var r3 := StreamOnMiss(r2.value, c, 64 * n);
                  && r3.Done?
                  && Effect(s, CountMem(r3.value, c), n, false, c, false, a, b, w)
  {
    hide Inv, Proj, MakeRoom, InstallBoth, StreamOnMiss, Brings, MatesArrive, ShedsBut, OwnThins, Served, SlotsIn,
         Sheds, EvictL2, Thins, OwnServed;
    FillMates(s, c, false, n, line, state);
    FillBothServes(s, c, false, n, line, state);
    var (t, _) := EvictL2(s, n % 4096).value;
    var (s1, w2, w1) := MakeRoom(s, c, false, n).value;
    var s2 := InstallBoth(s1, c, false, n, w2, w1, line, state).value;
    WindowedRest(s, s2);
    StreamBrings(s2, c, n);
    StreamOnMissThins(s2, c, 64 * n);
    var s3 := StreamOnMiss(s2, c, 64 * n).value;
    PrefetchesShed(s2, s3, CountMem(s3, c), n, StreamLines(s2, c, n), c, false);
    a, b, w := SlotsIn(t, c, false, n % 64), SlotsIn(s2, c, false, n % 64), w1;
    Staged(s, t, s2, CountMem(s3, c), n, false, c, false, w1);
  }

  lemma PrefetchesShed(s: State, s1: State, s2: State, n: nat, lines: seq<nat>, c: nat, instr: bool)
    requires Inv(s) && Thins(s, s1) && Brings(s, s1, n, lines) && c < |s.cores|
    requires |s2.cores| == |s1.cores| && s2.l2 == s1.l2 && s2.mem == s1.mem
    requires forall b: nat :: b < |s1.cores| ==>
               s2.cores[b].l1d == s1.cores[b].l1d && s2.cores[b].l1i == s1.cores[b].l1i
    ensures ShedsBut(s, s2, n, false, c, instr) && OwnThins(s, s2, n, c, instr)
  {
    hide Inv, Proj, Brings, Thins, Sheds, ShedsBut, OwnThins;
    SameThins(s1, s2);
    ThinsTwice(s, s1, s2);
    BringsNext(s, s1, s2, n, lines);
    BringsSheds(s, s2, n, lines);
    ShedsIsBoth(s, s2, n, c, instr);
  }

  lemma FetchMissServes(s: State, c: nat, n: nat) returns (a: Slots, b: Slots, w: nat)
    requires Inv(s) && c < |s.cores| && Proj(s, n).l2.NotInL2? && InMemory(s.mem, n)
    ensures var r := FetchFromMemory(s, c, n); r.Done? && Effect(s, r.value.0, n, false, c, true, a, b, w)
  {
    hide Inv, Proj, MakeRoom, InstallBoth, PfFill, Brings, MatesArrive, ShedsBut, OwnThins, Served, SlotsIn, Sheds,
         EvictL2, Thins, OwnServed;
    FillMates(s, c, true, n, MemLine(s.mem, n), Exclusive);
    FillBothServes(s, c, true, n, MemLine(s.mem, n), Exclusive);
    C.MakeRoomStretch(s, c, true, n);
    var (t, _) := EvictL2(s, n % 4096).value;
    var (s1, w2, w1) := MakeRoom(s, c, true, n).value;
    SameMemLine(s, s1, n);
    var s2 := InstallBoth(s1, c, true, n, w2, w1, MemLine(s1.mem, n), Exclusive).value;
    PageOfLine(n);
    PfFillBrings(s2, 64 * n, 64 * n + 64);
    PfFillThins(s2, 64 * n, 64 * n + 64);
    var (s3, ok) := PfFill(s2, 64 * n, 64 * n + 64).value;
    if ok { SamePage(s2, s3, n + 1, n, [n + 1]); } else { BringsNothing(s2, s3, n); }
    PrefetchesShed(s2, s3, CountMem(s3, c), n, if ok then [n + 1] else [], c, true);
    a, b, w := SlotsIn(t, c, true, n % 64), SlotsIn(s2, c, true, n % 64), w1;
    Staged(s, t, s2, CountMem(s3, c), n, false, c, true, w1);
  }

  // ---------------------------------------------------------------------------
  // Stores
  // ---------------------------------------------------------------------------

  /** Snoops that leave core c's own set as it is. */
  lemma SnoopsShed(s: State, s': State, n: nat, c: nat, instr: bool)
    requires Sheds(s, s', n, true) && c < |s.cores| == |s'.cores|
    requires GetL1(s', c, instr, n % 64) == GetL1(s, c, instr, n % 64)
    ensures ShedsBut(s, s', n, true, c, instr) && OwnThins(s, s', n, c, instr)
  {
    hide Proj, Gone;
    assert SlotsIn(s', c, instr, n % 64) == SlotsIn(s, c, instr, n % 64);
  }

  lemma InvalidatesShed(s: State, c: nat, n: nat, w2: nat, line: Line)
    requires Inv(s) && c < |s.cores| && w2 < NUM_L2_WAYS && w2 == L2WayOf(s, n)
    ensures var s' := InvalidatePeers(s, s.l2[n % 4096].dm[w2] - {c}, n, w2, line).0;
            Sheds(s, s', n, true) && c < |s'.cores| && s'.cores[c] == s.cores[c]
  {
    hide Placed, Proj, InvalidatePeers, Coherent, Killed, Sheds, Thins;
    L2WayProj(s, n);
    var x := Proj(s, n);
    var o := OwnerFrom(x.d, 0);
    assert Coherent(x);
    C.OwnerAt(x, o);
    InvalidatePeersMoves(s, x.l2.dm - {c}, n, w2, line, o);
    InvalidatePeersThins(s, x.l2.dm - {c}, n, w2, line);
    var s' := InvalidatePeers(s, x.l2.dm - {c}, n, w2, line).0;
    MovedSheds(s, s', n, Proj(s', n), true);
  }

  lemma UpgradeSheds(s: State, c: nat, n: nat, w2: nat)
    requires Inv(s) && c < |s.cores| && w2 < NUM_L2_WAYS && w2 == L2WayOf(s, n)
    ensures var s' := Upgrade(s, c, n, w2);
            Sheds(s, s', n, true) && c < |s'.cores| && s'.cores[c] == s.cores[c]
  {
    hide Placed, Proj, Coherent, InvalidatePeers, Sheds, Thins, Stretch;
    InvalidatesShed(s, c, n, w2, ZeroLine());
    C.InvalidateStretch(s, c, n, w2, ZeroLine());
    var s1 := InvalidatePeers(s, s.l2[n % 4096].dm[w2] - {c}, n, w2, ZeroLine()).0;
    C.StretchKeepsInv(s, s1, n);
    var s2 := Upgrade(s, c, n, w2);
    SameThins(s1, s2);
    L2WayProj(s1, n);
    L2KeepMoves(s1, n, w2, L2Touch(s1.l2[n % 4096], w2));
    assert Placed(s1) by { PlacedOf(s1); }
    MovedSheds(s1, s2, n, Proj(s2, n), true);
    ShedsTwice(s, s1, s2, n, true);
  }

  lemma PlacedOf(s: State)
    requires Inv(s)
    ensures Placed(s)
  {
  }

  lemma TakeOverSheds(s: State, c: nat, n: nat, w2: nat, touch: bool)
    requires Placed(s) && w2 < NUM_L2_WAYS && w2 == L2WayOf(s, n)
    requires forall b: nat :: Holds(Proj(s, n).i, b) ==> b in s.l2[n % 4096].im[w2]
    ensures var s' := C.TakeOver(s, c, n, w2, touch);
            && Sheds(s, s', n, true)
            && forall b: nat :: b < |s.cores| ==> s'.cores[b].l1d == s.cores[b].l1d
  {
    hide Placed, Proj, Sheds, Thins, InvalidatePeersI, L2Own;
    C.TakeOverMoves(s, c, n, w2, touch);
    var s' := C.TakeOver(s, c, n, w2, touch);
    var s1 := InvalidatePeersI(s, s.l2[n % 4096].im[w2], n);
    InvalidatePeersIThins(s, s.l2[n % 4096].im[w2], n);
    SameThins(s1, s');
    ThinsTwice(s, s1, s');
    MovedSheds(s, s', n, Proj(s', n), true);
  }

  lemma WriteHitServes(s: State, c: nat, pa: nat, w: nat, bytes: seq<byte>)
    requires Inv(s) && c < |s.cores| && w < NUM_L1_WAYS && pa % 64 + |bytes| <= LINE_SIZE
    requires w == L1WayOf(s, c, false, pa / 64) && WriteHit(s, c, pa, w, bytes).Done?
    ensures var n, s' := pa / 64, WriteHit(s, c, pa, w, bytes).value;
            Effect(s, s', n, true, c, false, SlotsIn(s, c, false, n % 64), SlotsIn(s', c, false, n % 64), w)
  {
    hide Placed, Proj, Coherent, Upgrade, Patch, InvalidatePeersI, Sheds, ShedsBut, OwnThins, OwnServed, Served,
         SlotsIn, L2Own, Stretch, Killed;
    var n := pa / 64;
    L2WayProj(s, n);
    var w2 := L2WayOf(s, n);
    var was := s.cores[c].l1d[n % 64].state[w];
    var s1 := if was == Shared then Upgrade(s, c, n, w2) else s;
    SameSheds(s, s, n, true);
    if was == Shared {
      UpgradeSheds(s, c, n, w2);
      C.UpgradeStretch(s, c, n, w2);
      C.StretchKeepsInv(s, s1, n);
    }
    L2WayProj(s1, n);
    assert Coherent(Proj(s1, n));
    InMasks(Proj(s1, n));
    PlacedOf(s1);
    TakeOverSheds(s1, c, n, w2, false);
    var s3 := C.TakeOver(s1, c, n, w2, false);
    ShedsTwice(s, s1, s3, n, true);
    SnoopsShed(s, s3, n, c, false);
    var s4 := WriteHit(s, c, pa, w, bytes).value;
    StoreServes(s3, s4, c, n, w, pa, bytes);
    SameSlots(s4, s4, n, true, c, false);
    Staged(s, s3, s4, s4, n, true, c, false, w);
    assert SlotsIn(s3, c, false, n % 64) == SlotsIn(s, c, false, n % 64) by { SameSet(s, s3, c, n); }
  }

  lemma SameSet(s: State, s': State, c: nat, n: nat)
    requires c < |s.cores| == |s'.cores| && s'.cores[c].l1d == s.cores[c].l1d
    ensures SlotsIn(s', c, false, n % 64) == SlotsIn(s, c, false, n % 64)
  {
  }

  /** The way that a store hits is touched. */
  lemma StoreServes(s: State, s': State, c: nat, n: nat, w: nat, pa: nat, bytes: seq<byte>)
    requires c < |s.cores| == |s'.cores| && w < NUM_L1_WAYS && pa % 64 + |bytes| <= LINE_SIZE
    requires w == L1WayOf(s, c, false, n) && s'.l2 == s.l2
    requires var t := PutL1(s, c, false, n % 64, L1Write(s.cores[c].l1d[n % 64], w, pa % 64, bytes));
             forall b: nat :: b < |s.cores| ==>
               s'.cores[b].l1d == t.cores[b].l1d && s'.cores[b].l1i == t.cores[b].l1i
    ensures ShedsBut(s, s', n, true, c, false)
    ensures Served(SlotsIn(s, c, false, n % 64), SlotsIn(s', c, false, n % 64), n / 64, w)
  {
    hide Patch, ShedsBut, Served, OthersSame, Plru.UpdateFrom;
    var l1 := L1Write(s.cores[c].l1d[n % 64], w, pa % 64, bytes);
    HitServes(s.cores[c].l1d[n % 64], l1, n / 64);
    PutIsOwn(s, s', c, false, n, l1);
    SameL2Enters(s, s', n);
    OthersShed(s, s', n, true, c, false);
  }

  lemma WriteFromL2Serves(s: State, c: nat, pa: nat, w2: nat, bytes: seq<byte>) returns (a: Slots, b: Slots, w: nat)
    requires Inv(s) && c < |s.cores| && pa % 64 + |bytes| <= LINE_SIZE
    requires var n := pa / 64; w2 < NUM_L2_WAYS && w2 == L2WayOf(s, n) && L1WayOf(s, c, false, n) == NUM_L1_WAYS
    requires WriteFromL2(s, c, pa, w2, bytes).Done?
    ensures Effect(s, WriteFromL2(s, c, pa, w2, bytes).value, pa / 64, true, c, false, a, b, w)
  {
    hide Inv, Proj, Coherent, Stretch, InvalidatePeers, InvalidatePeersI, EvictL1, Patch, L1Fill, L1WayOf, L2WayOf,
         Sheds, ShedsBut, OwnThins, OwnServed, Served, SlotsIn, L2Own;
    var n := pa / 64;
    var l2 := s.l2[n % 4096];
    var s0 := Emit(s, L2Hit, c, 2, n % 4096, w2, pa, l2.state[w2], l2.state[w2], None);
    SameStretch(s, s0, n);
    StretchKeeps(s, s0, n);
    C.SameL2Array(s, s0, n);
    SameSheds(s, s0, n, true);
    InvalidatesShed(s0, c, n, w2, l2.data[w2]);
    C.InvalidateStretch(s0, c, n, w2, l2.data[w2]);
    var (s1, newest) := InvalidatePeers(s0, l2.dm[w2] - {c}, n, w2, l2.data[w2]);
    C.StretchKeepsInv(s0, s1, n);
    ShedsTwice(s, s0, s1, n, true);
    SnoopsShed(s, s1, n, c, false);
    C.SameL1Way(s, s1, c, false, n);
    var line := Patch(newest, pa % 64, bytes);
    OwnFillServes(s1, c, pa, w2, line);
    var (s2, w1) := EvictL1(s1, c, false, n % 64).value;
    var s3 := PutL1(s2, c, false, n % 64, L1Fill(s2.cores[c].l1d[n % 64], n / 64, w1, line, Modified));
    var s4 := Emit(s3, L1dFill, c, 1, n % 64, w1, pa, Invalid, Modified, Some(line));
    var s5 := C.TakeOver(s4, c, n, w2, true);
    var s6 := WriteFromL2(s, c, pa, w2, bytes).value;
    SnoopsShed(s4, s5, n, c, false);
    SameSlots(s5, s6, n, true, c, false);
    assert OwnThins(s4, s6, n, c, false) by { OwnSame(s4, s6, n, c); }
    ShedsButTwice(s4, s5, s6, n, true, c, false);
    a, b, w := SlotsIn(s1, c, false, n % 64), SlotsIn(s4, c, false, n % 64), w1;
    Staged(s, s1, s4, s6, n, true, c, false, w1);
  }

  lemma OwnSame(s: State, s': State, n: nat, c: nat)
    requires c < |s.cores| == |s'.cores| && s'.cores[c].l1d == s.cores[c].l1d
    ensures OwnThins(s, s', n, c, false)
  {
    hide Gone;
    assert SlotsIn(s', c, false, n % 64) == SlotsIn(s, c, false, n % 64);
  }

  lemma OwnFillServes(s: State, c: nat, pa: nat, w2: nat, line: Line)
    requires Inv(s) && c < |s.cores| && w2 < NUM_L2_WAYS && w2 == L2WayOf(s, pa / 64)
    requires L1WayOf(s, c, false, pa / 64) == NUM_L1_WAYS
    ensures var n := pa / 64;
            var r := EvictL1(s, c, false, n % 64);
            && r.Done?
            && var (s2, w1) := r.value;
               var s3 := PutL1(s2, c, false, n % 64, L1Fill(s2.cores[c].l1d[n % 64], n / 64, w1, line, Modified));
               var s4 := Emit(s3, L1dFill, c, 1, n % 64, w1, pa, Invalid, Modified, Some(line));
               var s5 := C.TakeOver(s4, c, n, w2, true);
               && ShedsBut(s, s4, n, true, c, false) && c < |s4.cores|
               && Served(SlotsIn(s, c, false, n % 64), SlotsIn(s4, c, false, n % 64), n / 64, w1)
               && Sheds(s4, s5, n, true) && |s5.cores| == |s4.cores|
               && forall b: nat :: b < |s4.cores| ==> s5.cores[b].l1d == s4.cores[b].l1d
  {
    hide Placed, Proj, Coherent, EvictL1, L1Fill, C.TakeOver, L1WayOf, L2WayOf, Stretch, ShedsBut, Served, SlotsIn,
         Sheds, OthersSame;
    var n := pa / 64;
    EvictL1Stretch(s, c, false, n);
    var (s2, w1) := EvictL1(s, c, false, n % 64).value;
    StretchKeeps(s, s2, n);
    SameL2WaysFinds(s, s2, n);
    L1WayProj(s, c, false, n);
    L1WayProj(s2, c, false, n);
    FillServes(s, c, false, n, line, Modified);
    CallEnters(s, s2, n, Proj(s, n));
    OthersShed(s, s2, n, true, c, false);
    var l1 := L1Fill(s2.cores[c].l1d[n % 64], n / 64, w1, line, Modified);
    L1FillMoves(s2, c, false, n, w1, line, Modified);
    var s3 := PutL1(s2, c, false, n % 64, l1);
    var s4 := Emit(s3, L1dFill, c, 1, n % 64, w1, pa, Invalid, Modified, Some(line));
    PutIsOwn(s2, s4, c, false, n, l1);
    SameL2Enters(s2, s4, n);
    OthersShed(s2, s4, n, true, c, false);
    ShedsButTwice(s, s2, s4, n, true, c, false);
    C.SameMoved(s3, s4, n);
    L2WayProj(s2, n);
    assert Coherent(Proj(s2, n));
    InMasks(Proj(s2, n));
    C.SameL2Array(s2, s4, n);
    C.TakeOverMoves(s4, c, n, w2, true);
    TakeOverSheds(s4, c, n, w2, true);
  }

  // ---------------------------------------------------------------------------
  // Any call
  // ---------------------------------------------------------------------------

  lemma ReadServes(s: State, c: nat, pa: nat, size: nat) returns (a: Slots, b: Slots, w: nat)
    requires Good(s) && c < |s.cores| && pa % 64 + size <= LINE_SIZE && Read(s, c, pa, size).Done?
    ensures Effect(s, Read(s, c, pa, size).value.0, pa / 64, false, c, false, a, b, w)
  {
    hide Inv, Windowed, Proj, ReadFromL2, MakeRoom, InstallBoth, StreamOnMiss, Effect, CountMem, L1Touch;
    var n := pa / 64;
    var v, w2 := L1WayOf(s, c, false, n), L2WayOf(s, n);
    L2WayProj(s, n);
    if v < NUM_L1_WAYS {
      a, b := SlotsIn(s, c, false, n % 64), SlotsIn(ReadHit(s, c, pa, v), c, false, n % 64);
      w := TouchServes(s, ReadHit(s, c, pa, v), c, false, n, L1Touch(s.cores[c].l1d[n % 64], v));
    } else if w2 < NUM_L2_WAYS {
      a, b, w := ReadFromL2Serves(s, c, pa, w2);
    } else {
      C.MakeRoomStretch(s, c, false, n);
      SameMemLine(s, MakeRoom(s, c, false, n).value.0, n);
      a, b, w := MissServes(s, c, n, MemLine(s.mem, n), Exclusive);
    }
  }

  lemma WriteServes(s: State, c: nat, pa: nat, bytes: seq<byte>) returns (a: Slots, b: Slots, w: nat)
    requires Good(s) && c < |s.cores| && pa % 64 + |bytes| <= LINE_SIZE && Write(s, c, pa, bytes).Done?
    ensures Effect(s, Write(s, c, pa, bytes).value, pa / 64, true, c, false, a, b, w)
  {
    hide Inv, Windowed, Proj, WriteHit, WriteFromL2, MakeRoom, InstallBoth, StreamOnMiss, OwnServed, ShedsBut, CountMem,
         Patch;
    var n := pa / 64;
    var v, w2 := L1WayOf(s, c, false, n), L2WayOf(s, n);
    L2WayProj(s, n);
    if v < NUM_L1_WAYS {
      WriteHitServes(s, c, pa, v, bytes);
      a, b, w := SlotsIn(s, c, false, n % 64), SlotsIn(WriteHit(s, c, pa, v, bytes).value, c, false, n % 64), v;
    } else if w2 < NUM_L2_WAYS {
      a, b, w := WriteFromL2Serves(s, c, pa, w2, bytes);
    } else {
      a, b, w := MissServes(s, c, n, Patch(MemLine(s.mem, n), pa % 64, bytes), Modified);
      ShedsMore(s, Write(s, c, pa, bytes).value, n, c, false);
    }
  }

  lemma FetchServes(s: State, c: nat, pa: nat, size: nat) returns (a: Slots, b: Slots, w: nat)
    requires Good(s) && c < |s.cores| && pa % 64 + size <= LINE_SIZE && Fetch(s, c, pa, size).Done?
    ensures Effect(s, Fetch(s, c, pa, size).value.0, pa / 64, false, c, true, a, b, w)
  {
    hide Inv, Windowed, Proj, FetchFromL2, FetchFromMemory, Effect, L1Touch;
    var n := pa / 64;
    var v, w2 := L1WayOf(s, c, true, n), L2WayOf(s, n);
    L2WayProj(s, n);
    if v < NUM_L1_WAYS {
      var s' := Fetch(s, c, pa, size).value.0;
      a, b := SlotsIn(s, c, true, n % 64), SlotsIn(s', c, true, n % 64);
      w := TouchServes(s, s', c, true, n, L1Touch(s.cores[c].l1i[n % 64], v));
    } else if w2 < NUM_L2_WAYS {
      a, b, w := FetchFromL2Serves(s, c, n, w2);
    } else if InMemory(s.mem, n) {
      a, b, w := FetchMissServes(s, c, n);
    } else {
      NoFetch(s, c, n);
    }
  }

  /** What a completed call does to the L1 ways of the machine: core c's set for its line
      serves the line, and elsewhere ways are at most emptied, of lines that left L2 or that
      the call stores to. */
  lemma StepServes(s: State, op: Op) returns (a: Slots, b: Slots, w: nat)
    requires Good(s) && op.Fits(|s.cores|) && Step(s, op).Done?
    ensures Effect(s, Step(s, op).value.0, op.pa / 64, op.kind.Store?, op.core, op.kind.Fetching?, a, b, w)
  {
    hide Inv, Windowed, Read, Write, Fetch, ShedsBut, OwnServed;
    var n, s0, s' := op.pa / 64, s.(stamp := op.stamp), Step(s, op).value.0;
    Restamped(s, op.stamp);
    match op.kind {
      case Load(size) => a, b, w := ReadServes(s0, op.core, op.pa, size);
      case Store(bytes) => a, b, w := WriteServes(s0, op.core, op.pa, bytes);
      case Fetching(size) => a, b, w := FetchServes(s0, op.core, op.pa, size);
    }
    Unstamped(s, s0, s', n, op.kind.Store?, op.core, op.kind.Fetching?, a, b, w);
  }

  lemma Unstamped(s: State, s0: State, s': State, n: nat, stored: bool, c: nat, instr: bool, a: Slots, b: Slots, w: nat)
    requires Effect(s0, s', n, stored, c, instr, a, b, w) && s0.cores == s.cores
    requires forall m: nat :: Proj(s0, m) == Proj(s, m)
    ensures Effect(s, s', n, stored, c, instr, a, b, w)
  {
    hide Proj, Served, Gone;
    forall c: nat, instr, i: nat | c < |s.cores| && i < L1_SETS
      ensures SlotsIn(s0, c, instr, i) == SlotsIn(s, c, instr, i)
    {
    }
    forall b: nat, code, i: nat | b < |s.cores| && i < L1_SETS && !(b == c && code == instr && i == n % 64)
      ensures ThinsIn(s, s', b, code, i) && EmptiedIn(s, s', n, stored, b, code, i)
    {
      assert ThinsIn(s0, s', b, code, i) && EmptiedIn(s0, s', n, stored, b, code, i);
    }
  }
}
