/** Tree-PLRU replacement (plru.h) for any number of ways that is a power of two.

    The bits of the source's integer are a sequence of WAYS - 1 booleans, bit i
    being tree node i; leaves are nodes WAYS - 1 and up. */
module Plru {
  function Pow2(k: nat): (p: nat)
    ensures p >= 1
  {
    if k == 0 then 1 else 2 * Pow2(k - 1)
  }

  /** A leaf-to-root walk that makes every node on the way point at the other child. */
  function UpdateFrom(bits: seq<bool>, node: nat): (r: seq<bool>)
    requires node <= 2 * |bits|
    ensures |r| == |bits|
    decreases node
  {
    if node == 0 then bits
    else
      var parent := (node - 1) / 2;
      UpdateFrom(bits[parent := node % 2 == 1], parent)
  }

  function Update(bits: seq<bool>, way: nat): (r: seq<bool>)
    requires way <= |bits|
    ensures |r| == |bits|
  {
    UpdateFrom(bits, |bits| + way)
  }

  /** A root-to-leaf walk that follows the bits; the result counts from WAYS - 1. */
  function VictimFrom(bits: seq<bool>, node: nat): (leaf: nat)
    requires node <= 2 * |bits|
    ensures |bits| <= leaf <= 2 * |bits|
    decreases 2 * |bits| - node
  {
    if node >= |bits| then node
    else VictimFrom(bits, 2 * node + 1 + if bits[node] then 1 else 0)
  }

  function Victim(bits: seq<bool>): (way: nat)
    ensures way <= |bits|
  {
    VictimFrom(bits, 0) - |bits|
  }

  method PlruUpdate(bits: seq<bool>, way: nat) returns (r: seq<bool>)
    requires way <= |bits|
    ensures r == Update(bits, way)
  {
    r := bits;
    var node: nat := |bits| + way;
    while node > 0
      invariant |r| == |bits| && node <= 2 * |bits|
      invariant UpdateFrom(r, node) == Update(bits, way)
    {
      var parent := (node - 1) / 2;
      r := r[parent := node % 2 == 1];
      node := parent;
    }
  }

  method PlruVictim(bits: seq<bool>) returns (way: nat)
    ensures way == Victim(bits)
  {
    var node: nat := 0;
    while node < |bits|
      invariant node <= 2 * |bits|
      invariant VictimFrom(bits, node) == VictimFrom(bits, 0)
      decreases 2 * |bits| - node
    {
      node := 2 * node + 1 + if bits[node] then 1 else 0;
    }
    way := node - |bits|;
  }

  // ---------------------------------------------------------------------------
  // Levels of the tree
  // ---------------------------------------------------------------------------

  /** Level d holds the nodes from 2^d - 1 up to 2^(d+1) - 2. */
  predicate AtLevel(node: nat, d: nat) {
    Pow2(d) - 1 <= node < 2 * Pow2(d) - 1
  }

  predicate Full(bits: seq<bool>, k: nat) {
    |bits| == Pow2(k) - 1
  }

  function Parent(node: nat): nat
    requires node > 0
  {
    (node - 1) / 2
  }

  /** Node p's bit points at its child `node`. */
  predicate Toward(bits: seq<bool>, node: nat)
    requires 0 < node <= 2 * |bits|
  {
    bits[Parent(node)] == (node % 2 == 0)
  }

  lemma Levels(k: nat, d: nat)
    requires d <= k
    ensures Pow2(d) <= Pow2(k)
    decreases k - d
  {
    if d < k { Levels(k, d + 1); }
  }

  /** An update from level d changes only nodes above level d, and leaves every
      node of the touched path pointing away from it. */
  lemma {:induction false} UpdateAt(bits: seq<bool>, a: nat, b: nat, d: nat, k: nat)
    requires Full(bits, k) && d <= k && AtLevel(a, d) && AtLevel(b, d)
    ensures a <= 2 * |bits| && b <= 2 * |bits|
    ensures forall n :: Pow2(d) - 1 <= n < |bits| ==> UpdateFrom(bits, b)[n] == bits[n]
    ensures d > 0 && Parent(a) == Parent(b) ==> Toward(UpdateFrom(bits, b), a) == (a != b)
    ensures d > 0 && Parent(a) != Parent(b) ==> Toward(UpdateFrom(bits, b), a) == Toward(bits, a)
    decreases d
  {
    Levels(k, d);
    if d == 0 {
    } else {
      var bits' := bits[Parent(b) := b % 2 == 1];
      UpdateAt(bits', Parent(a), Parent(b), d - 1, k);
    }
  }

  /** Node n is on the path from the root down to `node`. */
  predicate Above(n: nat, node: nat) { node > 0 && (Parent(node) == n || Above(n, Parent(node))) }

  /** The child of n that is on that path. */
  function ChildToward(n: nat, node: nat): nat
    requires Above(n, node)
  {
    if Parent(node) == n then node else ChildToward(n, Parent(node))
  }

  lemma {:induction false} AboveIsLess(n: nat, node: nat)
    requires Above(n, node)
    ensures n < node
  {
    if Parent(node) == n {
    } else {
      AboveIsLess(n, Parent(node));
    }
  }

  /** A touch rewrites the whole path of its way, and nothing else: each node on the path
      comes to point at its other child. */
  lemma {:induction false} UpdatePath(bits: seq<bool>, node: nat, n: nat)
    requires node <= 2 * |bits| && n < |bits|
    ensures UpdateFrom(bits, node)[n] == if Above(n, node) then ChildToward(n, node) % 2 == 1 else bits[n]
    decreases node
  {
    if node == 0 {
    } else {
      var parent := Parent(node);
      UpdatePath(bits[parent := node % 2 == 1], parent, n);
      if Above(parent, parent) { AboveIsLess(parent, parent); }
    }
  }

  // ---------------------------------------------------------------------------
  // A touched way is safe for k touches
  // ---------------------------------------------------------------------------

  /** How many nodes on the path to `node` point at it. */
  function Pointing(bits: seq<bool>, node: nat): nat
    requires node <= 2 * |bits|
  {
    if node == 0 then 0
    else (if Toward(bits, node) then 1 else 0) + Pointing(bits, Parent(node))
  }

  lemma {:induction false} PointingStep(bits: seq<bool>, a: nat, b: nat, d: nat, k: nat)
    requires Full(bits, k) && d <= k && AtLevel(a, d) && AtLevel(b, d)
    ensures a <= 2 * |bits| && b <= 2 * |bits|
    ensures a == b ==> Pointing(UpdateFrom(bits, b), a) == 0
    ensures a != b ==> Pointing(UpdateFrom(bits, b), a) <= Pointing(bits, a) + 1
    decreases d
  {
    UpdateAt(bits, a, b, d, k);
    if d == 0 {
    } else {
      var bits' := bits[Parent(b) := b % 2 == 1];
      PointingStep(bits', Parent(a), Parent(b), d - 1, k);
      PointingAbove(bits, bits', Parent(a), d - 1, k);
    }
  }

  /** Pointing reads only nodes above its level. */
  lemma {:induction false} PointingAbove(bits: seq<bool>, bits': seq<bool>, a: nat, d: nat, k: nat)
    requires Full(bits, k) && Full(bits', k) && d <= k && AtLevel(a, d)
    requires forall n :: 0 <= n < |bits| && n < Pow2(d) - 1 ==> bits[n] == bits'[n]
    ensures a <= 2 * |bits|
    ensures Pointing(bits, a) == Pointing(bits', a)
    decreases d
  {
    Levels(k, d);
    if d == 0 {
    } else {
      PointingAbove(bits, bits', Parent(a), d - 1, k);
    }
  }

  /** The node of level d that the bits lead to. */
  function PathNode(bits: seq<bool>, d: nat, k: nat): (n: nat)
    requires Full(bits, k) && d <= k
    ensures AtLevel(n, d) && n <= 2 * |bits|
  {
    Levels(k, d);
    if d == 0 then 0
    else
      Levels(k, d - 1);
      var p := PathNode(bits, d - 1, k);
      2 * p + 1 + if bits[p] then 1 else 0
  }

  lemma {:induction false} PathIsVictim(bits: seq<bool>, d: nat, k: nat)
    requires Full(bits, k) && d <= k
    ensures VictimFrom(bits, PathNode(bits, d, k)) == VictimFrom(bits, 0)
  {
    if d == 0 {
    } else {
      PathIsVictim(bits, d - 1, k);
      Levels(k, d);
    }
  }

  lemma {:induction false} PointingIsDepth(bits: seq<bool>, a: nat, d: nat, k: nat)
    requires Full(bits, k) && d <= k && AtLevel(a, d)
    ensures a <= 2 * |bits|
    ensures Pointing(bits, a) <= d
    ensures Pointing(bits, a) == d <==> a == PathNode(bits, d, k)
    decreases d
  {
    Levels(k, d);
    if d == 0 {
    } else {
      hide Pow2;
      PointingIsDepth(bits, Parent(a), d - 1, k);
      PathStep(bits, d, k);
      Siblings(a, PathNode(bits, d, k));
    }
  }

  function TouchAll(bits: seq<bool>, touched: seq<nat>): (r: seq<bool>)
    requires forall i :: 0 <= i < |touched| ==> touched[i] <= |bits|
    ensures |r| == |bits|
    decreases |touched|
  {
    if touched == [] then bits
    else Update(TouchAll(bits, touched[..|touched| - 1]), touched[|touched| - 1])
  }

  lemma {:induction false} TouchesRaiseByOne(bits: seq<bool>, way: nat, touched: seq<nat>, k: nat)
    requires Full(bits, k) && way <= |bits|
    requires forall i :: 0 <= i < |touched| ==> touched[i] <= |bits| && touched[i] != way
    ensures Pointing(TouchAll(Update(bits, way), touched), |bits| + way) <= |touched|
    decreases |touched|
  {
    Levels(k, k);
    PointingStep(bits, |bits| + way, |bits| + way, k, k);
    if touched == [] {
    } else {
      var front := touched[..|touched| - 1];
      TouchesRaiseByOne(bits, way, front, k);
      PointingStep(TouchAll(Update(bits, way), front), |bits| + way, |bits| + touched[|touched| - 1], k, k);
    }
  }

  /** With 2^k ways, a touched way cannot be the victim until at least k touches of
      other ways have followed. */
  lemma TouchedWayIsSafe(bits: seq<bool>, way: nat, touched: seq<nat>, k: nat)
    requires Full(bits, k) && way <= |bits|
    requires |touched| < k
    requires forall i :: 0 <= i < |touched| ==> touched[i] <= |bits| && touched[i] != way
    ensures Victim(TouchAll(Update(bits, way), touched)) != way
  {
    hide UpdateFrom, Victim, TouchAll, Pointing, PathNode;
    var after := TouchAll(Update(bits, way), touched);
    TouchesRaiseByOne(bits, way, touched, k);
    PointingIsDepth(after, |bits| + way, k, k);
    VictimEndsPath(after, k);
  }

  lemma VictimEndsPath(bits: seq<bool>, k: nat)
    requires Full(bits, k)
    ensures Victim(bits) == PathNode(bits, k, k) - |bits|
  {
    PathIsVictim(bits, k, k);
  }

  // ---------------------------------------------------------------------------
  // Successive victims
  // ---------------------------------------------------------------------------

  /** Read as a binary number with the root as the lowest digit, the nodes that
      point away from `node` say how many rounds go by before it is the victim. */
  function Wait(bits: seq<bool>, node: nat, d: nat): nat
    requires node <= 2 * |bits|
    requires AtLevel(node, d)
    decreases d
  {
    if d == 0 then 0
    else Wait(bits, Parent(node), d - 1) + if Toward(bits, node) then 0 else Pow2(d - 1)
  }

  /** One victim-then-update round. */
  function Round(bits: seq<bool>): (r: seq<bool>)
    ensures |r| == |bits|
  {
    Update(bits, Victim(bits))
  }

  function Rounds(bits: seq<bool>, n: nat): (r: seq<bool>)
    ensures |r| == |bits|
  {
    if n == 0 then bits else Round(Rounds(bits, n - 1))
  }

  /** Wait reads only nodes above its level. */
  lemma {:induction false} WaitAbove(bits: seq<bool>, bits': seq<bool>, a: nat, d: nat, k: nat)
    requires Full(bits, k) && Full(bits', k) && d <= k && AtLevel(a, d)
    requires forall n :: 0 <= n < |bits| && n < Pow2(d) - 1 ==> bits[n] == bits'[n]
    ensures a <= 2 * |bits|
    ensures Wait(bits, a, d) == Wait(bits', a, d)
    decreases d
  {
    Levels(k, d);
    if d == 0 {
    } else {
      WaitAbove(bits, bits', Parent(a), d - 1, k);
    }
  }

  function CountedDown(wait: nat, n: nat, size: nat): nat
    requires n <= size
  {
    if wait >= n then wait - n else wait - n + size
  }

  lemma {:induction false} WaitIsZeroOnPath(bits: seq<bool>, a: nat, d: nat, k: nat)
    requires Full(bits, k) && d <= k && AtLevel(a, d)
    ensures a <= 2 * |bits|
    ensures Wait(bits, a, d) < Pow2(d)
    ensures Wait(bits, a, d) == 0 <==> a == PathNode(bits, d, k)
    decreases d
  {
    Levels(k, d);
    if d == 0 {
    } else {
      WaitIsZeroOnPath(bits, Parent(a), d - 1, k);
    }
  }

  /** One round counts every node's wait down by one; the victim's starts again. */
  lemma {:induction false} RoundCountsDown(bits: seq<bool>, a: nat, d: nat, k: nat)
    requires Full(bits, k) && d <= k && AtLevel(a, d)
    ensures a <= 2 * |bits|
    ensures Wait(UpdateFrom(bits, PathNode(bits, d, k)), a, d) == CountedDown(Wait(bits, a, d), 1, Pow2(d))
    decreases d
  {
    Levels(k, d);
    if d == 0 {
    } else {
      var v := PathNode(bits, d, k);
      RoundCountsDown(bits, Parent(a), d - 1, k);
      RoundCountsDownBelow(bits, a, v, UpdateFrom(bits, v), d, k);
    }
  }

  lemma RoundCountsDownBelow(bits: seq<bool>, a: nat, v: nat, after: seq<bool>, d: nat, k: nat)
    requires Full(bits, k) && 0 < d <= k && AtLevel(a, d) && a <= 2 * |bits|
    requires v == PathNode(bits, d, k) && after == UpdateFrom(bits, v)
    requires Wait(UpdateFrom(bits, PathNode(bits, d - 1, k)), Parent(a), d - 1)
          == CountedDown(Wait(bits, Parent(a), d - 1), 1, Pow2(d - 1))
    ensures Wait(after, a, d) == CountedDown(Wait(bits, a, d), 1, Pow2(d))
  {
    hide UpdateFrom, PathNode, Wait;
    var p := Parent(a);
    WaitIsZeroOnPath(bits, p, d - 1, k);
    PathStep(bits, d, k);
    UpdateAt(bits, a, v, d, k);
    UpdateKeepsWait(bits, v, p, d, k);
    WaitStep(bits, a, d);
    WaitStep(after, a, d);
    hide Pow2;
    Siblings(a, v);
  }

  lemma WaitStep(bits: seq<bool>, a: nat, d: nat)
    requires a <= 2 * |bits| && d > 0 && AtLevel(a, d)
    ensures AtLevel(Parent(a), d - 1) && Pow2(d) == 2 * Pow2(d - 1)
    ensures Wait(bits, a, d) == Wait(bits, Parent(a), d - 1) + if Toward(bits, a) then 0 else Pow2(d - 1)
  {
  }

  lemma Siblings(a: nat, v: nat)
    requires a > 0 && v > 0
    ensures Parent(a) == Parent(v) && a != v ==> a % 2 != v % 2
  {
  }

  lemma PathStep(bits: seq<bool>, d: nat, k: nat)
    requires Full(bits, k) && 0 < d <= k
    ensures PathNode(bits, d, k) > 0
    ensures Parent(PathNode(bits, d, k)) == PathNode(bits, d - 1, k)
    ensures Toward(bits, PathNode(bits, d, k))
  {
  }

  /** Whichever child the update starts from, the waits above it come out the same. */
  lemma UpdateKeepsWait(bits: seq<bool>, v: nat, p: nat, d: nat, k: nat)
    requires Full(bits, k) && 0 < d <= k && AtLevel(v, d) && AtLevel(p, d - 1)
    ensures v <= 2 * |bits| && p <= 2 * |bits|
    ensures Wait(UpdateFrom(bits, v), p, d - 1) == Wait(UpdateFrom(bits, Parent(v)), p, d - 1)
  {
    Levels(k, d);
    var bits' := bits[Parent(v) := v % 2 == 1];
    UpdateAgrees(bits, bits', Parent(v), d - 1, k);
    WaitAbove(UpdateFrom(bits, Parent(v)), UpdateFrom(bits', Parent(v)), p, d - 1, k);
  }

  /** What an update from level d does above level d does not depend on the rest. */
  lemma {:induction false} UpdateAgrees(bits: seq<bool>, bits': seq<bool>, b: nat, d: nat, k: nat)
    requires Full(bits, k) && Full(bits', k) && d <= k && AtLevel(b, d)
    requires forall n :: 0 <= n < |bits| && n < Pow2(d) - 1 ==> bits[n] == bits'[n]
    ensures b <= 2 * |bits|
    ensures forall n :: 0 <= n < |bits| && n < Pow2(d) - 1 ==> UpdateFrom(bits, b)[n] == UpdateFrom(bits', b)[n]
    decreases d
  {
    Levels(k, d);
    if d == 0 {
    } else {
      var p := Parent(b);
      var c, c' := bits[p := b % 2 == 1], bits'[p := b % 2 == 1];
      UpdateAgrees(c, c', p, d - 1, k);
      UpdateAt(c, p, p, d - 1, k);
      UpdateAt(c', p, p, d - 1, k);
    }
  }

  lemma RoundIsUpdate(bits: seq<bool>, leaf: nat, k: nat)
    requires Full(bits, k) && |bits| <= leaf <= 2 * |bits|
    ensures Wait(Round(bits), leaf, k) == CountedDown(Wait(bits, leaf, k), 1, Pow2(k))
    ensures Wait(bits, leaf, k) < Pow2(k)
  {
    hide UpdateFrom;
    RoundCountsDown(bits, leaf, k, k);
    WaitIsZeroOnPath(bits, leaf, k, k);
    PathIsVictim(bits, k, k);
  }

  lemma {:induction false} WaitAfter(bits: seq<bool>, way: nat, n: nat, k: nat)
    requires Full(bits, k) && way <= |bits| && n <= Pow2(k)
    ensures Wait(bits, |bits| + way, k) < Pow2(k)
    ensures Wait(Rounds(bits, n), |bits| + way, k) == CountedDown(Wait(bits, |bits| + way, k), n, Pow2(k))
  {
    hide UpdateFrom, VictimFrom, Wait, Pow2;
    var leaf := |bits| + way;
    WaitIsZeroOnPath(bits, leaf, k, k);
    if n == 0 {
    } else {
      WaitAfter(bits, way, n - 1, k);
      RoundIsUpdate(Rounds(bits, n - 1), leaf, k);
    }
  }

  /** From any bits, round n of 2^k rounds evicts exactly the way whose wait is n. */
  lemma RoundEvicts(bits: seq<bool>, way: nat, n: nat, k: nat)
    requires Full(bits, k) && way <= |bits| && n < Pow2(k)
    ensures Victim(Rounds(bits, n)) == way <==> Wait(bits, |bits| + way, k) == n
  {
    WaitAfter(bits, way, n, k);
    WaitIsZeroOnPath(Rounds(bits, n), |bits| + way, k, k);
    PathIsVictim(Rounds(bits, n), k, k);
  }

  /** 2^k successive rounds visit every way, and none twice. */
  lemma RoundsVisitEveryWayOnce(bits: seq<bool>, way: nat, k: nat)
    requires Full(bits, k) && way <= |bits|
    ensures exists n :: 0 <= n < Pow2(k) && Victim(Rounds(bits, n)) == way
    ensures forall m, n :: 0 <= m < n < Pow2(k) ==> Victim(Rounds(bits, m)) != Victim(Rounds(bits, n))
  {
    var n := Wait(bits, |bits| + way, k);
    WaitIsZeroOnPath(bits, |bits| + way, k, k);
    RoundEvicts(bits, way, n, k);
    forall m, n | 0 <= m < n < Pow2(k)
      ensures Victim(Rounds(bits, m)) != Victim(Rounds(bits, n))
    {
      var w := Victim(Rounds(bits, m));
      RoundEvicts(bits, w, m, k);
      RoundEvicts(bits, w, n, k);
    }
  }
}
