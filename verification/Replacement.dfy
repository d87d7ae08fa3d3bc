/** One set under tree-PLRU, of whatever its ways hold: what accesses leave in it, and which
    entry a full one gives up. */
module Replacement {
  import opened Plru

  /** The tag and the validity of each way, and the replacement bits. */
  datatype Slots = Slots(tag: seq<nat>, valid: seq<bool>, plru: seq<bool>)

  /** A set of 2^k ways. */
  predicate Shaped(a: Slots, k: nat) { |a.tag| == |a.valid| == Pow2(k) && Full(a.plru, k) }

  predicate HasAt(a: Slots, tag: nat, w: nat) { w < |a.tag| && w < |a.valid| && a.valid[w] && a.tag[w] == tag }

  ghost predicate Has(a: Slots, tag: nat) { exists w: nat :: HasAt(a, tag, w) }

  predicate AllUsed(a: Slots) { forall w :: 0 <= w < |a.valid| ==> a.valid[w] }

  /** Some ways may have been emptied. */
  ghost predicate Thinned(a: Slots, b: Slots) {
    && b.tag == a.tag && b.plru == a.plru && |b.valid| == |a.valid|
    && forall w :: 0 <= w < |a.valid| && b.valid[w] ==> a.valid[w]
  }

  /** The way that replacement takes: the first unused one, else the victim of the bits. */
  predicate Takes(a: Slots, w: nat) {
    && w < |a.valid|
    && if AllUsed(a) then w == Victim(a.plru) else !a.valid[w] && forall v :: 0 <= v < w ==> a.valid[v]
  }

  /** An entry found in way w, or filled into it; either way the way is touched. */
  ghost predicate Served(a: Slots, b: Slots, tag: nat, w: nat) {
    && w <= |a.plru| && b.plru == Update(a.plru, w)
    && if Has(a, tag) then HasAt(a, tag, w) && b.tag == a.tag && b.valid == a.valid
       else Takes(a, w) && w < |a.tag| && b.tag == a.tag[w := tag] && b.valid == a.valid[w := true]
  }

  // ---------------------------------------------------------------------------
  // Recently used entries stay
  // ---------------------------------------------------------------------------

  /** At most j nodes on way w's path point at it. */
  predicate Shielded(a: Slots, w: nat, j: nat) { w <= |a.plru| && Pointing(a.plru, |a.plru| + w) <= j }

  lemma TouchShields(bits: seq<bool>, v: nat, w: nat, k: nat)
    requires Full(bits, k) && v <= |bits| && w <= |bits|
    ensures Pointing(Update(bits, v), |bits| + w) <= if v == w then 0 else Pointing(bits, |bits| + w) + 1
  {
    hide Pointing, UpdateFrom;
    Levels(k, k);
    PointingStep(bits, |bits| + w, |bits| + v, k, k);
  }

  /** With fewer than k nodes pointing at it, way w is not the victim. */
  lemma ShieldedIsKept(bits: seq<bool>, w: nat, k: nat)
    requires Full(bits, k) && w <= |bits| && Pointing(bits, |bits| + w) < k
    ensures Victim(bits) != w
  {
    hide Pointing, PathNode;
    PointingIsDepth(bits, |bits| + w, k, k);
    VictimEndsPath(bits, k);
  }

  /** While fewer than k accesses to others have followed, an entry keeps its way. */
  lemma ServedShields(a: Slots, b: Slots, tag: nat, v: nat, x: nat, w: nat, j: nat, k: nat)
    requires Shaped(a, k) && Served(a, b, tag, v) && HasAt(a, x, w) && x != tag && Shielded(a, w, j) && j < k
    ensures v != w && Shaped(b, k) && HasAt(b, x, w) && Shielded(b, w, j + 1)
  {
    hide Pointing, UpdateFrom, VictimFrom;
    TouchShields(a.plru, v, w, k);
    ShieldedIsKept(a.plru, w, k);
  }

  /** The entry just served has nothing pointing at it. */
  lemma ServedIsShielded(a: Slots, b: Slots, tag: nat, v: nat, k: nat)
    requires Shaped(a, k) && Served(a, b, tag, v)
    ensures Shaped(b, k) && HasAt(b, tag, v) && Shielded(b, v, 0)
  {
    hide Pointing, UpdateFrom, VictimFrom;
    TouchShields(a.plru, v, v, k);
  }

  // ---------------------------------------------------------------------------
  // Misses in a full set
  // ---------------------------------------------------------------------------

  /** A miss in a full set replaces the victim, and is one round of the bits. */
  lemma MissIsRound(a: Slots, b: Slots, tag: nat, v: nat, k: nat)
    requires Shaped(a, k) && Served(a, b, tag, v) && AllUsed(a) && !Has(a, tag)
    ensures Shaped(b, k) && AllUsed(b) && v == Victim(a.plru) && b.plru == Round(a.plru)
    ensures b.tag == a.tag[v := tag]
  {
    hide UpdateFrom, VictimFrom;
  }

  /** No entry is in two ways. */
  ghost predicate Distinct(a: Slots) {
    forall tag, v: nat, w: nat :: HasAt(a, tag, v) && HasAt(a, tag, w) ==> v == w
  }

  ghost predicate Missed(a: Slots, b: Slots, tag: nat) { !Has(a, tag) && exists v: nat :: Served(a, b, tag, v) }

  /** Access i of the chain, from chain[i] to chain[i + 1], is a miss. */
  ghost predicate Misses(chain: seq<Slots>, tags: seq<nat>, i: nat) {
    i < |tags| && i + 1 < |chain| && Missed(chain[i], chain[i + 1], tags[i])
  }

  /** One miss after another, from a full set of 2^k ways. */
  ghost predicate MissChain(chain: seq<Slots>, tags: seq<nat>, k: nat) {
    && |chain| == |tags| + 1 && Shaped(chain[0], k) && AllUsed(chain[0]) && Distinct(chain[0])
    && forall i: nat :: i < |tags| ==> Misses(chain, tags, i)
  }

  lemma MissKeepsDistinct(a: Slots, b: Slots, tag: nat, v: nat, k: nat)
    requires Shaped(a, k) && Served(a, b, tag, v) && AllUsed(a) && !Has(a, tag) && Distinct(a)
    ensures Distinct(b)
    ensures forall x :: x != tag && HasAt(a, x, v) ==> !Has(b, x)
    ensures forall x, w: nat :: w != v ==> HasAt(b, x, w) == HasAt(a, x, w)
  {
    hide UpdateFrom, VictimFrom;
    forall x, w: nat | w != v ensures HasAt(b, x, w) == HasAt(a, x, w) {}
  }

  /** The set before access i: full, and i rounds further. */
  lemma {:induction false} ChainRounds(chain: seq<Slots>, tags: seq<nat>, k: nat, i: nat)
    requires MissChain(chain, tags, k) && i <= |tags|
    ensures Shaped(chain[i], k) && AllUsed(chain[i]) && Distinct(chain[i])
    ensures chain[i].plru == Rounds(chain[0].plru, i)
    decreases i
  {
    hide UpdateFrom, VictimFrom, Has, Served, Distinct;
    if i == 0 {
    } else {
      ChainRounds(chain, tags, k, i - 1);
      assert Misses(chain, tags, i - 1);
      var v: nat :| Served(chain[i - 1], chain[i], tags[i - 1], v);
      MissIsRound(chain[i - 1], chain[i], tags[i - 1], v, k);
      MissKeepsDistinct(chain[i - 1], chain[i], tags[i - 1], v, k);
    }
  }

  /** Access i takes the way whose wait was i. */
  lemma ChainStep(chain: seq<Slots>, tags: seq<nat>, k: nat, i: nat) returns (v: nat)
    requires MissChain(chain, tags, k) && i < |tags| == Pow2(k)
    ensures v < Pow2(k) && AtLevel(|chain[0].plru| + v, k)
    ensures Wait(chain[0].plru, |chain[0].plru| + v, k) == i
    ensures Served(chain[i], chain[i + 1], tags[i], v) && !Has(chain[i], tags[i])
    ensures |chain[i].tag| == Pow2(k) && chain[i + 1].tag == chain[i].tag[v := tags[i]]
  {
    hide UpdateFrom, VictimFrom, Has, Served, Wait;
    ChainRounds(chain, tags, k, i);
    assert Misses(chain, tags, i);
    v :| Served(chain[i], chain[i + 1], tags[i], v);
    MissIsRound(chain[i], chain[i + 1], tags[i], v, k);
    RoundEvicts(chain[0].plru, v, i, k);
  }

  /** A way keeps its entry until its turn comes. */
  lemma {:induction false} BeforeItsTurn(chain: seq<Slots>, tags: seq<nat>, k: nat, i: nat, w: nat)
    requires MissChain(chain, tags, k) && i <= |tags| == Pow2(k) && w < Pow2(k)
    requires AtLevel(|chain[0].plru| + w, k) && Wait(chain[0].plru, |chain[0].plru| + w, k) >= i
    ensures |chain[i].tag| == Pow2(k) && chain[i].tag[w] == chain[0].tag[w]
    decreases i
  {
    hide UpdateFrom, VictimFrom, Has, Served, Wait, AtLevel, Distinct;
    if i == 0 {
    } else {
      BeforeItsTurn(chain, tags, k, i - 1, w);
      ChainRounds(chain, tags, k, i);
      var v := ChainStep(chain, tags, k, i - 1);
    }
  }

  /** The access at which entry x leaves the set. */
  ghost predicate Leaves(chain: seq<Slots>, i: nat, x: nat)
    requires i + 1 < |chain|
  {
    Has(chain[i], x) && !Has(chain[i + 1], x)
  }

  /** 2^k misses in a full set: each entry that it held leaves at exactly one of them. */
  lemma EachLeavesOnce(chain: seq<Slots>, tags: seq<nat>, k: nat, w: nat)
    requires MissChain(chain, tags, k) && |tags| == Pow2(k) && w < Pow2(k)
    ensures exists i: nat :: i < Pow2(k) && Leaves(chain, i, chain[0].tag[w])
                             && forall j: nat :: j < Pow2(k) && Leaves(chain, j, chain[0].tag[w]) ==> j == i
  {
    hide UpdateFrom, VictimFrom, Served, Wait, Distinct, Has;
    var x, n := chain[0].tag[w], |chain[0].plru|;
    ChainRounds(chain, tags, k, 0);
    assert AtLevel(n + w, k);
    var i := Wait(chain[0].plru, n + w, k);
    WaitIsZeroOnPath(chain[0].plru, n + w, k, k);
    LeavesAt(chain, tags, k, i, w);
    forall j: nat | j < Pow2(k) && Leaves(chain, j, x) ensures j == i {
      LeftByItsWay(chain, tags, k, j, w);
    }
  }

  lemma LeavesAt(chain: seq<Slots>, tags: seq<nat>, k: nat, i: nat, w: nat)
    requires MissChain(chain, tags, k) && i < |tags| == Pow2(k) && w < Pow2(k)
    requires AtLevel(|chain[0].plru| + w, k) && Wait(chain[0].plru, |chain[0].plru| + w, k) == i
    ensures Leaves(chain, i, chain[0].tag[w])
  {
    hide UpdateFrom, VictimFrom, Served, Wait, Distinct, AtLevel;
    var x := chain[0].tag[w];
    var v := ChainStep(chain, tags, k, i);
    ChainRounds(chain, tags, k, i);
    BeforeItsTurn(chain, tags, k, i, w);
    SameWait(chain[0].plru, v, w, k);
    assert HasAt(chain[i], x, w);
    assert x != tags[i];
    MissKeepsDistinct(chain[i], chain[i + 1], tags[i], v, k);
  }

  /** No two ways wait equally long. */
  lemma SameWait(bits: seq<bool>, v: nat, w: nat, k: nat)
    requires Full(bits, k) && v <= |bits| && w <= |bits| && AtLevel(|bits| + v, k) && AtLevel(|bits| + w, k)
    requires Wait(bits, |bits| + v, k) == Wait(bits, |bits| + w, k)
    ensures v == w
  {
    hide VictimFrom, UpdateFrom, Wait, Rounds;
    var n := Wait(bits, |bits| + v, k);
    WaitIsZeroOnPath(bits, |bits| + v, k, k);
    RoundEvicts(bits, v, n, k);
    RoundEvicts(bits, w, n, k);
  }

  lemma LeftByItsWay(chain: seq<Slots>, tags: seq<nat>, k: nat, j: nat, w: nat)
    requires MissChain(chain, tags, k) && j < |tags| == Pow2(k) && w < Pow2(k)
    requires AtLevel(|chain[0].plru| + w, k) && Leaves(chain, j, chain[0].tag[w])
    ensures Wait(chain[0].plru, |chain[0].plru| + w, k) == j
  {
    hide UpdateFrom, VictimFrom, Served, Wait, AtLevel;
    var x := chain[0].tag[w];
    var v := ChainStep(chain, tags, k, j);
    ChainRounds(chain, tags, k, j);
    ChainRounds(chain, tags, k, 0);
    MissKeepsDistinct(chain[j], chain[j + 1], tags[j], v, k);
    var u: nat :| HasAt(chain[j], x, u);
    assert u == v;
    BeforeItsTurn(chain, tags, k, j, v);
    assert HasAt(chain[0], x, v) && HasAt(chain[0], x, w);
  }
}
