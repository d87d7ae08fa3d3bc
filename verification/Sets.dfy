/** Which ways of the L2 sets are valid, under which tags, and what evictions leave of that. */
module Sets {
  import opened Types
  import opened Coherence
  import opened Caches
  import opened Projection
  import Plru

  /** Every set keeps its ways and its replacement bits. */
  ghost predicate SetsKept(s: State, s': State) {
    SameL2Ways(s, s') && forall k: nat :: k < L2_SETS ==> s'.l2[k].plru == s.l2[k].plru
  }

  lemma BackInvalidateCoreSets(s: State, c: nat, dm: set<nat>, im: set<nat>, n: nat, v: nat)
    requires v < NUM_L2_WAYS && Valid(s.l2[n % 4096].state, v) && BackInvalidateCore(s, c, dm, im, n, v).Done?
    ensures SetsKept(s, BackInvalidateCore(s, c, dm, im, n, v).value)
  {
  }

  lemma {:induction false} BackInvalidateSets(s: State, all: set<nat>, dm: set<nat>, im: set<nat>, n: nat, v: nat)
    requires v < NUM_L2_WAYS && Valid(s.l2[n % 4096].state, v) && BackInvalidate(s, all, dm, im, n, v).Done?
    ensures SetsKept(s, BackInvalidate(s, all, dm, im, n, v).value)
    decreases all
  {
    hide BackInvalidateCore;
    if all == {} {
    } else {
      var c := LowestBit(all);
      BackInvalidateCoreSets(s, c, dm, im, n, v);
      var s1 := BackInvalidateCore(s, c, dm, im, n, v).value;
      BackInvalidateSets(s1, all - {c}, dm, im, n, v);
    }
  }

  /** The way that evict_l2 frees. */
  function Freed(l2: L2Set): (w: nat)
    ensures w < NUM_L2_WAYS
  {
    if FreeFrom(l2.state, 0) < NUM_L2_WAYS then FreeFrom(l2.state, 0) else Plru.Victim(l2.plru)
  }

  lemma EvictL2Set(s: State, k: nat)
    requires k < L2_SETS && EvictL2(s, k).Done?
    ensures var (s', w) := EvictL2(s, k).value;
            && w == Freed(s.l2[k])
            && s'.l2[k].tag == s.l2[k].tag && s'.l2[k].plru == s.l2[k].plru
            && (forall v: nat :: v < NUM_L2_WAYS ==> Valid(s'.l2[k].state, v) == (Valid(s.l2[k].state, v) && v != w))
            && forall j: nat :: j < L2_SETS && j != k ==>
                 WaysKept(s.l2[j], s'.l2[j]) && s'.l2[j].plru == s.l2[j].plru
  {
    hide BackInvalidate;
    var l2 := s.l2[k];
    if FreeFrom(l2.state, 0) == NUM_L2_WAYS {
      var v := Plru.Victim(l2.plru);
      var n := l2.tag[v] * 4096 + k;
      assert n % 4096 == k;
      BackInvalidateSets(s, l2.dm[v] + l2.im[v], l2.dm[v], l2.im[v], n, v);
    }
  }

  lemma EvictL1Sets(s: State, c: nat, instr: bool, i: nat)
    requires c < |s.cores| && i < L1_SETS && EvictL1(s, c, instr, i).Done?
    ensures SetsKept(s, EvictL1(s, c, instr, i).value.0)
  {
    hide L2WriteBack, L2Release, Plru.VictimFrom, L1Drop;
    var l1 := GetL1(s, c, instr, i);
    if FreeFrom(l1.state, 0) == NUM_L1_WAYS {
      var v := Plru.Victim(l1.plru);
      var n := l1.tag[v] * 64 + i;
      var l2 := s.l2[n % 4096];
      var w2 := Find(l2.tag, l2.state, n / 4096);
      ReleaseKeepsWays(l2, c, w2, instr, l1.data[v]);
    }
  }

  lemma ReleaseKeepsWays(l2: L2Set, c: nat, w: nat, instr: bool, line: Line)
    requires w < NUM_L2_WAYS && Valid(l2.state, w)
    ensures WaysKept(l2, L2WriteBack(l2, c, w, line)) && L2WriteBack(l2, c, w, line).plru == l2.plru
    ensures WaysKept(l2, L2Release(l2, c, w, instr)) && L2Release(l2, c, w, instr).plru == l2.plru
  {
  }

  // ---------------------------------------------------------------------------
  // Snoops
  // ---------------------------------------------------------------------------

  lemma {:induction false} DowngradePeersSets(s: State, sharers: set<nat>, n: nat, w2: nat, line: Line)
    requires w2 < NUM_L2_WAYS
    ensures SetsKept(s, DowngradePeers(s, sharers, n, w2, line).0)
    ensures forall c: nat :: c < |s.cores| ==> DowngradePeers(s, sharers, n, w2, line).0.cores[c].pf == s.cores[c].pf
    decreases sharers
  {
    if sharers == {} {
    } else {
      var c := LowestBit(sharers);
      var (s1, line1) := DowngradePeer(s, c, n, w2, line);
      DowngradePeerSets(s, c, n, w2, line);
      hide DowngradePeer;
      DowngradePeersSets(s1, sharers - {c}, n, w2, line1);
    }
  }

  lemma DowngradePeerSets(s: State, c: nat, n: nat, w2: nat, line: Line)
    requires w2 < NUM_L2_WAYS
    ensures SetsKept(s, DowngradePeer(s, c, n, w2, line).0)
    ensures forall b: nat :: b < |s.cores| ==> DowngradePeer(s, c, n, w2, line).0.cores[b].pf == s.cores[b].pf
  {
  }

  lemma {:induction false} InvalidatePeersSets(s: State, sharers: set<nat>, n: nat, w2: nat, line: Line)
    requires w2 < NUM_L2_WAYS
    ensures SetsKept(s, InvalidatePeers(s, sharers, n, w2, line).0)
    decreases sharers
  {
    if sharers == {} {
    } else {
      var c := LowestBit(sharers);
      var (s1, line1) := InvalidatePeer(s, c, n, w2, line);
      InvalidatePeerSets(s, c, n, w2, line);
      hide InvalidatePeer;
      InvalidatePeersSets(s1, sharers - {c}, n, w2, line1);
    }
  }

  lemma InvalidatePeerSets(s: State, c: nat, n: nat, w2: nat, line: Line)
    requires w2 < NUM_L2_WAYS
    ensures SetsKept(s, InvalidatePeer(s, c, n, w2, line).0)
  {
  }

  lemma {:induction false} InvalidatePeersISets(s: State, sharers: set<nat>, n: nat)
    ensures InvalidatePeersI(s, sharers, n).l2 == s.l2
    decreases sharers
  {
    if sharers == {} {
    } else {
      InvalidatePeersISets(InvalidatePeerI(s, LowestBit(sharers), n), sharers - {LowestBit(sharers)}, n);
    }
  }
}
