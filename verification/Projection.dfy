/** From sets and ways to lines: what the caches hold of each line, and how writing one
    set changes it. */
module Projection {
  import opened Types
  import opened Coherence
  import opened Caches

  // ---------------------------------------------------------------------------
  // Placement
  // ---------------------------------------------------------------------------

  predicate Valid(states: seq<Mesi>, w: nat) { w < |states| && states[w] != Invalid }

  /** No two valid ways of a set hold the same tag. */
  ghost predicate UniqueTags(tags: seq<nat>, states: seq<Mesi>)
    requires |tags| == |states|
  {
    forall v: nat, w: nat :: Valid(states, v) && Valid(states, w) && tags[v] == tags[w] ==> v == w
  }

  ghost predicate L1Ok(l1: L1Set) { UniqueTags(l1.tag, l1.state) }

  /** Unique tags, empty masks on INVALID ways, and valid lines inside memory. */
  ghost predicate L2Ok(l2: L2Set, k: nat, size: nat) {
    && UniqueTags(l2.tag, l2.state)
    && (forall w: nat :: w < NUM_L2_WAYS && !Valid(l2.state, w) ==> l2.dm[w] == {} && l2.im[w] == {})
    && (forall w: nat :: Valid(l2.state, w) ==> 64 * (l2.tag[w] * 4096 + k) + 64 <= size)
  }

  ghost predicate Placed(s: State) {
    && (forall c: nat, i: nat :: c < |s.cores| && i < L1_SETS ==> L1Ok(s.cores[c].l1d[i]))
    && (forall c: nat, i: nat :: c < |s.cores| && i < L1_SETS ==> L1Ok(s.cores[c].l1i[i]))
    && (forall k: nat :: k < L2_SETS ==> L2Ok(s.l2[k], k, |s.mem|))
  }

  // ---------------------------------------------------------------------------
  // What the state holds of a line
  // ---------------------------------------------------------------------------

  function CopyIn(l1: L1Set, tag: nat): Copy {
    var w := Find(l1.tag, l1.state, tag);
    if w < NUM_L1_WAYS then Copy(l1.state[w], l1.data[w]) else Absent
  }

  function L2In(l2: L2Set, tag: nat): L2Copy {
    var w := Find(l2.tag, l2.state, tag);
    if w < NUM_L2_WAYS then InL2(l2.state[w], l2.dm[w], l2.im[w], l2.data[w]) else NotInL2
  }

  function D(s: State, c: nat, n: nat): Copy
    requires c < |s.cores|
  {
    CopyIn(s.cores[c].l1d[n % 64], n / 64)
  }

  function I(s: State, c: nat, n: nat): Copy
    requires c < |s.cores|
  {
    CopyIn(s.cores[c].l1i[n % 64], n / 64)
  }

  function Proj(s: State, n: nat): LineState {
    LineState(seq(|s.cores|, c requires 0 <= c < |s.cores| => D(s, c, n)),
              seq(|s.cores|, c requires 0 <= c < |s.cores| => I(s, c, n)),
              L2In(s.l2[n % 4096], n / 4096),
              MemLine(s.mem, n))
  }

  /** Two states hold the same of line n. */
  lemma ProjEquals(s: State, x: LineState, n: nat)
    requires |x.d| == |x.i| == |s.cores|
    requires forall c: nat :: c < |s.cores| ==> D(s, c, n) == x.d[c] && I(s, c, n) == x.i[c]
    requires x.l2 == L2In(s.l2[n % 4096], n / 4096) && x.mem == MemLine(s.mem, n)
    ensures Proj(s, n) == x
  {
    assert Proj(s, n).d == x.d;
    assert Proj(s, n).i == x.i;
  }

  // ---------------------------------------------------------------------------
  // One set
  // ---------------------------------------------------------------------------

  lemma FindIs(tags: seq<nat>, states: seq<Mesi>, w: nat)
    requires |tags| == |states| && UniqueTags(tags, states) && Valid(states, w)
    ensures Find(tags, states, tags[w]) == w
  {
    assert Match(tags, states, tags[w], w);
    assert Valid(states, Find(tags, states, tags[w]));
  }

  lemma L1DropLooks(l1: L1Set, w: nat)
    requires L1Ok(l1) && Valid(l1.state, w)
    ensures L1Ok(L1Drop(l1, w))
    ensures forall t: nat :: CopyIn(L1Drop(l1, w), t) == if t == l1.tag[w] then Absent else CopyIn(l1, t)
  {
    var l1' := L1Drop(l1, w);
    forall t: nat
      ensures CopyIn(l1', t) == if t == l1.tag[w] then Absent else CopyIn(l1, t)
    {
      LooksAlike(l1, l1', w, t);
    }
  }

  /** l1' differs from l1 at most in the state and data of way w; elsewhere a lookup
      gives the same. */
  lemma LooksAlike(l1: L1Set, l1': L1Set, w: nat, t: nat)
    requires w < NUM_L1_WAYS && UniqueTags(l1.tag, l1.state) && l1.tag == l1'.tag
    requires forall v: nat :: v < NUM_L1_WAYS && v != w ==> l1.state[v] == l1'.state[v] && l1.data[v] == l1'.data[v]
    requires Valid(l1.state, w)
    ensures t != l1.tag[w] ==> CopyIn(l1', t) == CopyIn(l1, t)
    ensures t == l1.tag[w] ==> CopyIn(l1', t) == if Valid(l1'.state, w) then Copy(l1'.state[w], l1'.data[w]) else Absent
  {
    var a, b := Find(l1.tag, l1.state, t), Find(l1'.tag, l1'.state, t);
    if t == l1.tag[w] {
      FindIs(l1.tag, l1.state, w);
      if Valid(l1'.state, w) { assert Match(l1'.tag, l1'.state, t, w); }
    } else {
      if a < NUM_L1_WAYS { assert Match(l1'.tag, l1'.state, t, a); }
      if b < NUM_L1_WAYS { assert Match(l1.tag, l1.state, t, b); }
    }
  }

  /** A way that stays valid under its tag. */
  lemma L1KeepLooks(l1: L1Set, l1': L1Set, w: nat)
    requires L1Ok(l1) && Valid(l1.state, w) && l1'.state[w] != Invalid && l1.tag == l1'.tag
    requires forall v: nat :: v < NUM_L1_WAYS && v != w ==> l1.state[v] == l1'.state[v] && l1.data[v] == l1'.data[v]
    ensures L1Ok(l1')
    ensures forall t: nat :: CopyIn(l1', t) == if t == l1.tag[w] then Copy(l1'.state[w], l1'.data[w]) else CopyIn(l1, t)
  {
    forall t: nat
      ensures CopyIn(l1', t) == if t == l1.tag[w] then Copy(l1'.state[w], l1'.data[w]) else CopyIn(l1, t)
    {
      LooksAlike(l1, l1', w, t);
    }
    forall u: nat, v: nat | Valid(l1'.state, u) && Valid(l1'.state, v) && l1'.tag[u] == l1'.tag[v] ensures u == v {
      assert Valid(l1.state, u) && Valid(l1.state, v);
    }
  }

  lemma L1FillLooks(l1: L1Set, tag: nat, w: nat, line: Line, state: Mesi)
    requires L1Ok(l1) && w < NUM_L1_WAYS && l1.state[w] == Invalid && state != Invalid
    requires CopyIn(l1, tag) == Absent
    ensures L1Ok(L1Fill(l1, tag, w, line, state))
    ensures forall t: nat ::
              CopyIn(L1Fill(l1, tag, w, line, state), t) == if t == tag then Copy(state, line) else CopyIn(l1, t)
  {
    var l1' := L1Fill(l1, tag, w, line, state);
    forall v: nat | Valid(l1'.state, v) && v != w ensures Valid(l1.state, v) && l1'.tag[v] == l1.tag[v] != tag {
      assert !Match(l1.tag, l1.state, tag, v);
    }
    forall t: nat
      ensures CopyIn(l1', t) == if t == tag then Copy(state, line) else CopyIn(l1, t)
    {
      var a, b := Find(l1.tag, l1.state, t), Find(l1'.tag, l1'.state, t);
      if t == tag {
        assert Match(l1'.tag, l1'.state, t, w);
        if b != w { assert Valid(l1'.state, b); }
      } else {
        if a < NUM_L1_WAYS { assert Match(l1'.tag, l1'.state, t, a); }
        if b < NUM_L1_WAYS { assert Match(l1.tag, l1.state, t, b); }
      }
    }
  }

  /** A way that stays valid under its tag. */
  lemma L2KeepLooks(l2: L2Set, l2': L2Set, w: nat, k: nat, size: nat)
    requires L2Ok(l2, k, size) && Valid(l2.state, w) && l2'.state[w] != Invalid && l2.tag == l2'.tag
    requires forall v: nat :: v < NUM_L2_WAYS && v != w ==>
               && l2.state[v] == l2'.state[v] && l2.data[v] == l2'.data[v]
               && l2.dm[v] == l2'.dm[v] && l2.im[v] == l2'.im[v]
    ensures L2Ok(l2', k, size)
    ensures forall t: nat ::
              L2In(l2', t) == if t == l2.tag[w] then InL2(l2'.state[w], l2'.dm[w], l2'.im[w], l2'.data[w])
                                             else L2In(l2, t)
  {
    forall v: nat ensures Valid(l2'.state, v) == Valid(l2.state, v) {}
    forall t: nat
      ensures L2In(l2', t) == if t == l2.tag[w] then InL2(l2'.state[w], l2'.dm[w], l2'.im[w], l2'.data[w])
                              else L2In(l2, t)
    {
      var a, b := Find(l2.tag, l2.state, t), Find(l2'.tag, l2'.state, t);
      if a < NUM_L2_WAYS { assert Match(l2'.tag, l2'.state, t, a); }
      if b < NUM_L2_WAYS { assert Match(l2.tag, l2.state, t, b); }
      assert a == b;
      if t == l2.tag[w] { FindIs(l2.tag, l2.state, w); }
    }
  }

  /** Clearing a way. */
  lemma L2ClearLooks(l2: L2Set, w: nat, k: nat, size: nat)
    requires L2Ok(l2, k, size) && Valid(l2.state, w)
    ensures var l2': L2Set := l2.(dm := l2.dm[w := {}], im := l2.im[w := {}], state := l2.state[w := Invalid]);
            && L2Ok(l2', k, size)
            && forall t: nat :: L2In(l2', t) == if t == l2.tag[w] then NotInL2 else L2In(l2, t)
  {
    var l2': L2Set := l2.(dm := l2.dm[w := {}], im := l2.im[w := {}], state := l2.state[w := Invalid]);
    forall v: nat ensures Valid(l2'.state, v) == (Valid(l2.state, v) && v != w) {}
    forall t: nat
      ensures L2In(l2', t) == if t == l2.tag[w] then NotInL2 else L2In(l2, t)
    {
      var a, b := Find(l2.tag, l2.state, t), Find(l2'.tag, l2'.state, t);
      if b < NUM_L2_WAYS { assert Match(l2.tag, l2.state, t, b) && Valid(l2'.state, b); }
      if t == l2.tag[w] {
        FindIs(l2.tag, l2.state, w);
      } else if a < NUM_L2_WAYS {
        assert Match(l2'.tag, l2'.state, t, a);
      }
    }
  }

  lemma L2InstallLooks(l2: L2Set, tag: nat, w: nat, line: Line, state: Mesi, dm: set<nat>, im: set<nat>, k: nat,
                       size: nat)
    requires L2Ok(l2, k, size) && w < NUM_L2_WAYS && l2.state[w] == Invalid && state != Invalid
    requires L2In(l2, tag) == NotInL2 && 64 * (tag * 4096 + k) + 64 <= size
    ensures var r := L2Install(l2, tag, w, line, state, dm, im);
            && r.Done? && L2Ok(r.value, k, size)
            && forall t: nat :: L2In(r.value, t) == if t == tag then InL2(state, dm, im, line) else L2In(l2, t)
  {
    assert !Valid(l2.state, w);
    var l2' := L2Install(l2, tag, w, line, state, dm, im).value;
    forall v: nat | Valid(l2'.state, v) && v != w ensures Valid(l2.state, v) && l2'.tag[v] == l2.tag[v] != tag {
      assert !Match(l2.tag, l2.state, tag, v);
    }
    forall v: nat | v < NUM_L2_WAYS && !Valid(l2'.state, v) ensures l2'.dm[v] == {} && l2'.im[v] == {} {
      assert !Valid(l2.state, v);
    }
    forall t: nat
      ensures L2In(l2', t) == if t == tag then InL2(state, dm, im, line) else L2In(l2, t)
    {
      var a, b := Find(l2.tag, l2.state, t), Find(l2'.tag, l2'.state, t);
      if t == tag {
        assert Match(l2'.tag, l2'.state, t, w);
        if b != w { assert Valid(l2'.state, b); }
      } else {
        if a < NUM_L2_WAYS { assert Match(l2'.tag, l2'.state, t, a); }
        if b < NUM_L2_WAYS { assert Match(l2.tag, l2.state, t, b); }
      }
    }
  }

  // ---------------------------------------------------------------------------
  // The state
  // ---------------------------------------------------------------------------

  /** Same tags in the same valid ways. */
  ghost predicate WaysKept(l2: L2Set, l2': L2Set) {
    l2'.tag == l2.tag && forall w: nat :: w < NUM_L2_WAYS ==> Valid(l2'.state, w) == Valid(l2.state, w)
  }

  lemma WaysKeptFind(l2: L2Set, l2': L2Set, tag: nat)
    requires WaysKept(l2, l2')
    ensures Find(l2'.tag, l2'.state, tag) == Find(l2.tag, l2.state, tag)
  {
    var a, b := Find(l2.tag, l2.state, tag), Find(l2'.tag, l2'.state, tag);
    if a < NUM_L2_WAYS { assert Valid(l2.state, a); assert Match(l2'.tag, l2'.state, tag, a); }
    if b < NUM_L2_WAYS { assert Valid(l2'.state, b); assert Match(l2.tag, l2.state, tag, b); }
  }

  /** Every line keeps its L2 way. */
  ghost predicate SameL2Ways(s: State, s': State) {
    forall k: nat :: k < L2_SETS ==> WaysKept(s.l2[k], s'.l2[k])
  }

  lemma SameL2WaysFinds(s: State, s': State, n: nat)
    requires SameL2Ways(s, s')
    ensures L2WayOf(s', n) == L2WayOf(s, n)
  {
    WaysKeptFind(s.l2[n % 4096], s'.l2[n % 4096], n / 4096);
  }

  /** What writing an L1 set does to every line, given what it does to that set's tags. */
  lemma PutL1Proj(s: State, c: nat, instr: bool, i: nat, l1: L1Set, m: nat)
    requires c < |s.cores| && i < L1_SETS
    ensures var x := Proj(s, m);
            Proj(PutL1(s, c, instr, i, l1), m) ==
            if m % 64 != i then x
            else if instr then x.(i := x.i[c := CopyIn(l1, m / 64)])
            else x.(d := x.d[c := CopyIn(l1, m / 64)])
  {
    var x := Proj(s, m);
    var y := if m % 64 != i then x
             else if instr then x.(i := x.i[c := CopyIn(l1, m / 64)])
             else x.(d := x.d[c := CopyIn(l1, m / 64)]);
    ProjEquals(PutL1(s, c, instr, i, l1), y, m);
  }

  lemma PutL1Placed(s: State, c: nat, instr: bool, i: nat, l1: L1Set)
    requires Placed(s) && c < |s.cores| && i < L1_SETS && L1Ok(l1)
    ensures Placed(PutL1(s, c, instr, i, l1))
  {
  }

  lemma PutL2Proj(s: State, k: nat, l2: L2Set, m: nat)
    requires k < L2_SETS
    ensures Proj(PutL2(s, k, l2), m) == if m % 4096 == k then Proj(s, m).(l2 := L2In(l2, m / 4096)) else Proj(s, m)
  {
    ProjEquals(PutL2(s, k, l2), if m % 4096 == k then Proj(s, m).(l2 := L2In(l2, m / 4096)) else Proj(s, m), m);
  }

  lemma PutL2Placed(s: State, k: nat, l2: L2Set)
    requires Placed(s) && k < L2_SETS && L2Ok(l2, k, |s.mem|)
    ensures Placed(PutL2(s, k, l2))
  {
  }

  /** The parts of the state that say nothing about lines. */
  lemma SameCaches(s: State, s': State)
    requires |s'.cores| == |s.cores| && s'.l2 == s.l2 && s'.mem == s.mem
    requires forall c: nat :: c < |s.cores| ==> s'.cores[c].l1d == s.cores[c].l1d && s'.cores[c].l1i == s.cores[c].l1i
    ensures forall m: nat :: Proj(s', m) == Proj(s, m)
    ensures Placed(s) ==> Placed(s')
    ensures SameL2Ways(s, s')
  {
    forall m: nat ensures Proj(s', m) == Proj(s, m) { ProjEquals(s', Proj(s, m), m); }
  }

  lemma MemLines(mem: seq<byte>, n: nat, line: Line)
    requires InMemory(mem, n)
    ensures forall m: nat :: MemLine(SetMemLine(mem, n, line), m) == if m == n then line else MemLine(mem, m)
  {
    var mem' := SetMemLine(mem, n, line);
    forall m: nat ensures MemLine(mem', m) == if m == n then line else MemLine(mem, m) {
      if m == n {
        assert mem'[64 * n..64 * n + 64] == line;
      } else if InMemory(mem, m) {
        assert mem'[64 * m..64 * m + 64] == mem[64 * m..64 * m + 64];
      }
    }
  }

  lemma SetMemProj(s: State, n: nat, line: Line)
    requires InMemory(s.mem, n)
    ensures var s' := s.(mem := SetMemLine(s.mem, n, line));
            && (Placed(s) ==> Placed(s'))
            && forall m: nat :: Proj(s', m) == if m == n then Proj(s, m).(mem := line) else Proj(s, m)
  {
    var s' := s.(mem := SetMemLine(s.mem, n, line));
    MemLines(s.mem, n, line);
    forall m: nat ensures Proj(s', m) == if m == n then Proj(s, m).(mem := line) else Proj(s, m) {
      ProjEquals(s', if m == n then Proj(s, m).(mem := line) else Proj(s, m), m);
    }
  }
}
