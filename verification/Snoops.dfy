/** The snoop loops and the evictions, line by line. */
module Snoops {
  import opened Types
  import opened Coherence
  import opened Caches
  import opened Projection
  import Plru

  /** Only the line n changed, and what s' holds of it is x. */
  ghost predicate Moved(s: State, s': State, n: nat, x: LineState) {
    && Placed(s')
    && |s'.cores| == |s.cores|
    && forall m: nat :: Proj(s', m) == if m == n then x else Proj(s, m)
  }

  /** The bytes after the last whole line, which no cache ever holds. */
  function Tail(mem: seq<byte>): seq<byte> { mem[64 * (|mem| / 64)..] }

  /** Nothing but cache contents, replacement bits and the log changed. */
  ghost predicate SameRest(s: State, s': State) {
    && SameShape(s, s')
    && forall c: nat :: c < |s.cores| ==> s'.cores[c].pf == s.cores[c].pf && s'.cores[c].pmc == s.cores[c].pmc
  }

  ghost predicate SameShape(s: State, s': State) {
    && |s'.cores| == |s.cores| && s'.stamp == s.stamp
    && |s'.mem| == |s.mem| && Tail(s'.mem) == Tail(s.mem)
  }

  ghost predicate SameMemory(s: State, s': State) { s'.mem == s.mem && s'.lossless == s.lossless }

  /** The way of line n, through its projection. */
  lemma L2WayProj(s: State, n: nat)
    ensures |Proj(s, n).d| == |Proj(s, n).i| == |s.cores|
    ensures Proj(s, n).mem == MemLine(s.mem, n)
    ensures var w := L2WayOf(s, n);
            && (w < NUM_L2_WAYS <==> Proj(s, n).l2.InL2?)
            && (w < NUM_L2_WAYS ==> var l2 := s.l2[n % 4096];
                                    && Valid(l2.state, w) && l2.tag[w] == n / 4096
                                    && Proj(s, n).l2 == InL2(l2.state[w], l2.dm[w], l2.im[w], l2.data[w]))
  {
  }

  lemma L1WayProj(s: State, c: nat, instr: bool, n: nat)
    requires c < |s.cores|
    ensures var w, l1 := L1WayOf(s, c, instr, n), GetL1(s, c, instr, n % 64);
            var copies := if instr then Proj(s, n).i else Proj(s, n).d;
            && (w < NUM_L1_WAYS <==> Holds(copies, c))
            && (w < NUM_L1_WAYS ==>
                  Valid(l1.state, w) && l1.tag[w] == n / 64 && copies[c] == Copy(l1.state[w], l1.data[w]))
  {
  }

  lemma SameLine(m: nat, n: nat)
    ensures m % 64 == n % 64 && m / 64 == n / 64 ==> m == n
    ensures m % 4096 == n % 4096 && m / 4096 == n / 4096 ==> m == n
  {
  }

  // ---------------------------------------------------------------------------
  // Updating the ways of one line
  // ---------------------------------------------------------------------------

  /** Rewriting the way that holds line n in core c's L1. */
  lemma L1KeepMoves(s: State, c: nat, instr: bool, n: nat, w: nat, l1: L1Set)
    requires Placed(s) && c < |s.cores| && w < NUM_L1_WAYS && w == L1WayOf(s, c, instr, n)
    requires l1.state[w] != Invalid && l1.tag == GetL1(s, c, instr, n % 64).tag
    requires forall v: nat :: v < NUM_L1_WAYS && v != w ==>
               l1.state[v] == GetL1(s, c, instr, n % 64).state[v] && l1.data[v] == GetL1(s, c, instr, n % 64).data[v]
    ensures var x, y := Proj(s, n), Copy(l1.state[w], l1.data[w]);
            Moved(s, PutL1(s, c, instr, n % 64, l1), n,
                  if instr then x.(i := x.i[c := y]) else x.(d := x.d[c := y]))
  {
    var x, y := Proj(s, n), Copy(l1.state[w], l1.data[w]);
    L1KeepLooks(GetL1(s, c, instr, n % 64), l1, w);
    PutL1Placed(s, c, instr, n % 64, l1);
    forall m: nat
      ensures Proj(PutL1(s, c, instr, n % 64, l1), m) ==
              if m == n then (if instr then x.(i := x.i[c := y]) else x.(d := x.d[c := y])) else Proj(s, m)
    {
      SameLine(m, n);
      PutL1Proj(s, c, instr, n % 64, l1, m);
      SameLook(s, c, instr, m);
    }
  }

  lemma SameLook(s: State, c: nat, instr: bool, m: nat)
    requires c < |s.cores|
    ensures var x := Proj(s, m);
            if instr then x.(i := x.i[c := CopyIn(GetL1(s, c, instr, m % 64), m / 64)]) == x
            else x.(d := x.d[c := CopyIn(GetL1(s, c, instr, m % 64), m / 64)]) == x
  {
    var x := Proj(s, m);
    if instr { assert x.i[c := x.i[c]] == x.i; } else { assert x.d[c := x.d[c]] == x.d; }
  }

  lemma L1DropMoves(s: State, c: nat, instr: bool, n: nat, w: nat)
    requires Placed(s) && c < |s.cores| && w < NUM_L1_WAYS && w == L1WayOf(s, c, instr, n)
    ensures var x := Proj(s, n);
            Moved(s, PutL1(s, c, instr, n % 64, L1Drop(GetL1(s, c, instr, n % 64), w)), n,
                  if instr then x.(i := x.i[c := Absent]) else x.(d := x.d[c := Absent]))
  {
    var x := Proj(s, n);
    var l1 := L1Drop(GetL1(s, c, instr, n % 64), w);
    L1DropLooks(GetL1(s, c, instr, n % 64), w);
    PutL1Placed(s, c, instr, n % 64, l1);
    forall m: nat
      ensures Proj(PutL1(s, c, instr, n % 64, l1), m) ==
              if m == n then (if instr then x.(i := x.i[c := Absent]) else x.(d := x.d[c := Absent])) else Proj(s, m)
    {
      SameLine(m, n);
      PutL1Proj(s, c, instr, n % 64, l1, m);
      SameLook(s, c, instr, m);
    }
  }

  lemma L1FillMoves(s: State, c: nat, instr: bool, n: nat, w: nat, line: Line, state: Mesi)
    requires Placed(s) && c < |s.cores| && w < NUM_L1_WAYS && state != Invalid
    requires GetL1(s, c, instr, n % 64).state[w] == Invalid && L1WayOf(s, c, instr, n) == NUM_L1_WAYS
    ensures var x, y := Proj(s, n), Copy(state, line);
            Moved(s, PutL1(s, c, instr, n % 64, L1Fill(GetL1(s, c, instr, n % 64), n / 64, w, line, state)), n,
                  if instr then x.(i := x.i[c := y]) else x.(d := x.d[c := y]))
  {
    var x, y := Proj(s, n), Copy(state, line);
    var l1 := L1Fill(GetL1(s, c, instr, n % 64), n / 64, w, line, state);
    L1FillLooks(GetL1(s, c, instr, n % 64), n / 64, w, line, state);
    PutL1Placed(s, c, instr, n % 64, l1);
    forall m: nat
      ensures Proj(PutL1(s, c, instr, n % 64, l1), m) ==
              if m == n then (if instr then x.(i := x.i[c := y]) else x.(d := x.d[c := y])) else Proj(s, m)
    {
      SameLine(m, n);
      PutL1Proj(s, c, instr, n % 64, l1, m);
      SameLook(s, c, instr, m);
    }
  }

  /** Rewriting the L2 way of line n, which stays valid. */
  lemma L2KeepMoves(s: State, n: nat, w: nat, l2: L2Set)
    requires Placed(s) && w < NUM_L2_WAYS && w == L2WayOf(s, n)
    requires l2.state[w] != Invalid && l2.tag == s.l2[n % 4096].tag
    requires forall v: nat :: v < NUM_L2_WAYS && v != w ==>
               && l2.state[v] == s.l2[n % 4096].state[v] && l2.data[v] == s.l2[n % 4096].data[v]
               && l2.dm[v] == s.l2[n % 4096].dm[v] && l2.im[v] == s.l2[n % 4096].im[v]
    ensures Moved(s, PutL2(s, n % 4096, l2), n, Proj(s, n).(l2 := InL2(l2.state[w], l2.dm[w], l2.im[w], l2.data[w])))
    ensures SameL2Ways(s, PutL2(s, n % 4096, l2))
    ensures L2WayOf(PutL2(s, n % 4096, l2), n) == w
  {
    L2WayProj(s, n);
    L2KeepLooks(s.l2[n % 4096], l2, w, n % 4096, |s.mem|);
    PutL2Placed(s, n % 4096, l2);
    var s' := PutL2(s, n % 4096, l2);
    forall m: nat
      ensures Proj(s', m) ==
              if m == n then Proj(s, n).(l2 := InL2(l2.state[w], l2.dm[w], l2.im[w], l2.data[w])) else Proj(s, m)
    {
      SameLine(m, n);
      PutL2Proj(s, n % 4096, l2, m);
    }
    forall v: nat | v < NUM_L2_WAYS ensures Valid(l2.state, v) == Valid(s.l2[n % 4096].state, v) {}
    SameL2WaysFinds(s, s', n);
  }

  // ---------------------------------------------------------------------------
  // Downgrading peers
  // ---------------------------------------------------------------------------

  function DownOne(x: LineState, c: nat): LineState {
    if Holds(x.d, c) && x.l2.InL2? then
      x.(d := x.d[c := Copy(Shared, x.d[c].data)],
         l2 := if x.d[c].state == Modified then x.l2.(data := x.d[c].data) else x.l2)
    else x
  }

  function DownSome(x: LineState, sharers: set<nat>): LineState
    decreases sharers
  {
    if sharers == {} then x else
    var c := LowestBit(sharers);
    DownSome(DownOne(x, c), sharers - {c})
  }

  /** What each snoop keeps besides the line itself. */
  ghost predicate SnoopKeeps(s: State, s': State, sharers: set<nat>) {
    && SameRest(s, s') && SameMemory(s, s') && SameL2Ways(s, s')
    && forall b: nat :: b < |s.cores| && b !in sharers ==> s'.cores[b] == s.cores[b]
  }

  lemma SnoopKeepsNothing(s: State)
    ensures SnoopKeeps(s, s, {})
  {
  }

  lemma SnoopKeepsTwice(s: State, s1: State, s2: State, a: set<nat>, b: set<nat>)
    requires SnoopKeeps(s, s1, a) && SnoopKeeps(s1, s2, b)
    ensures SnoopKeeps(s, s2, a + b)
  {
  }

  lemma DowngradePeerMoves(s: State, c: nat, n: nat, w2: nat, line: Line)
    requires Placed(s) && w2 < NUM_L2_WAYS && w2 == L2WayOf(s, n)
    requires line == Proj(s, n).l2.data
    ensures var (s', line') := DowngradePeer(s, c, n, w2, line);
            && Moved(s, s', n, DownOne(Proj(s, n), c))
            && SnoopKeeps(s, s', {c})
            && L2WayOf(s', n) == w2
            && line' == DownOne(Proj(s, n), c).l2.data
  {
    hide Placed, L1Ok, L2Ok, Proj;
    L2WayProj(s, n);
    if c < |s.cores| {
      L1WayProj(s, c, false, n);
      if L1WayOf(s, c, false, n) < NUM_L1_WAYS { DowngradeHolderMoves(s, c, n, w2, line); }
    }
  }

  lemma DowngradeHolderMoves(s: State, c: nat, n: nat, w2: nat, line: Line)
    requires Placed(s) && w2 < NUM_L2_WAYS && w2 == L2WayOf(s, n)
    requires c < |s.cores| && L1WayOf(s, c, false, n) < NUM_L1_WAYS
    ensures var (s', line') := DowngradePeer(s, c, n, w2, line);
            && Moved(s, s', n, DownOne(Proj(s, n), c))
            && SnoopKeeps(s, s', {c})
            && L2WayOf(s', n) == w2
  {
    hide Placed, L1Ok, L2Ok, Proj;
    L2WayProj(s, n);
    L1WayProj(s, c, false, n);
    var l1 := s.cores[c].l1d[n % 64];
    var w := L1WayOf(s, c, false, n);
    var l2 := s.l2[n % 4096];
    var dirty := l1.state[w] == Modified;
    if dirty { L2KeepMoves(s, n, w2, l2.(data := l2.data[w2 := l1.data[w]])); }
    var s1 := if dirty then PutL2(s, n % 4096, l2.(data := l2.data[w2 := l1.data[w]])) else s;
    var s2 := Emit(s1, SnoopDowngrade, c, 1, n % 64, w, 0, l1.state[w], Shared, Some(l1.data[w]));
    SameCaches(s1, s2);
    L1KeepMoves(s2, c, false, n, w, l1.(state := l1.state[w := Shared]));
    SameL2WaysFinds(s, DowngradePeer(s, c, n, w2, line).0, n);
  }

  lemma {:induction false} DowngradePeersMoves(s: State, sharers: set<nat>, n: nat, w2: nat, line: Line)
    requires Placed(s) && w2 < NUM_L2_WAYS && w2 == L2WayOf(s, n)
    requires line == Proj(s, n).l2.data
    ensures var (s', line') := DowngradePeers(s, sharers, n, w2, line);
            && Moved(s, s', n, DownSome(Proj(s, n), sharers))
            && SnoopKeeps(s, s', sharers)
            && L2WayOf(s', n) == w2
            && DownSome(Proj(s, n), sharers).l2.InL2? && line' == DownSome(Proj(s, n), sharers).l2.data
    decreases sharers
  {
    hide Placed, Proj, DownOne, SnoopKeeps, DowngradePeer;
    L2WayProj(s, n);
    SnoopKeepsNothing(s);
    if sharers == {} {
    } else {
      var c := LowestBit(sharers);
      DowngradePeerMoves(s, c, n, w2, line);
      var (s1, line1) := DowngradePeer(s, c, n, w2, line);
      DowngradePeersMoves(s1, sharers - {c}, n, w2, line1);
      SnoopKeepsTwice(s, s1, DowngradePeers(s1, sharers - {c}, n, w2, line1).0, {c}, sharers - {c});
      assert {c} + (sharers - {c}) == sharers;
    }
  }

  /** Only one copy can be MODIFIED, so the order of the loop does not matter. */
  lemma {:induction false} DownSomeIs(x: LineState, sharers: set<nat>, o: nat)
    requires x.l2.InL2? && forall b: nat :: HoldsIn(x.d, b, Modified) ==> b == o
    ensures var y := DownSome(x, sharers);
            && |y.d| == |x.d| && y.i == x.i && y.mem == x.mem
            && (forall b: nat :: b < |x.d| ==>
                  y.d[b] == if b in sharers && x.d[b].Copy? then Copy(Shared, x.d[b].data) else x.d[b])
            && y.l2 == x.l2.(data := if o in sharers && HoldsIn(x.d, o, Modified) then x.d[o].data else x.l2.data)
    decreases sharers
  {
    if sharers == {} {
    } else {
      var c := LowestBit(sharers);
      var x1 := DownOne(x, c);
      assert HoldsIn(x.d, c, Modified) ==> c == o;
      assert c != o ==> HoldsIn(x1.d, o, Modified) == HoldsIn(x.d, o, Modified);
      forall b: nat | HoldsIn(x1.d, b, Modified) ensures b == o { assert HoldsIn(x.d, b, Modified); }
      DownSomeIs(x1, sharers - {c}, o);
    }
  }

  /** The masks do not matter to the loop, so it may run after the reader is recorded. */
  lemma DownSomeIsDowngrade(x: LineState, c: nat, dm: set<nat>, im: set<nat>)
    requires Coherent(x) && x.l2.InL2? && OthersShare(x, c)
    ensures DownSome(x.(l2 := InL2(Shared, dm, im, x.l2.data)), x.l2.dm - {c})
         == Downgrade(x, c).(l2 := Downgrade(x, c).l2.(dm := dm, im := im))
  {
    OwnerCases(x);
    var o := OwnerFrom(x.d, 0);
    var x1 := x.(l2 := InL2(Shared, dm, im, x.l2.data));
    forall b: nat | HoldsIn(x1.d, b, Modified) ensures b == o { assert Holds(x.d, b); }
    DownSomeIs(x1, x.l2.dm - {c}, o);
    var y := DownSome(x1, x.l2.dm - {c});
    forall b: nat | b < |x.d| ensures y.d[b] == Downgrade(x, c).d[b] {
      assert Holds(x.d, b) <==> b in x.l2.dm;
    }
    assert y.d == Downgrade(x, c).d;
  }

  // ---------------------------------------------------------------------------
  // Invalidating peers
  // ---------------------------------------------------------------------------

  function KillOne(x: LineState, c: nat): LineState {
    x.(d := if Holds(x.d, c) then x.d[c := Absent] else x.d,
       l2 := if x.l2.InL2? then x.l2.(dm := x.l2.dm - {c}) else x.l2)
  }

  /** Core c's MODIFIED bytes, if it has any, else those collected so far. */
  function Captured(x: LineState, c: nat, line: Line): Line {
    if HoldsIn(x.d, c, Modified) then x.d[c].data else line
  }

  lemma InvalidatePeerMoves(s: State, c: nat, n: nat, w2: nat, line: Line)
    requires Placed(s) && w2 < NUM_L2_WAYS && w2 == L2WayOf(s, n)
    ensures var (s', line') := InvalidatePeer(s, c, n, w2, line);
            && Moved(s, s', n, KillOne(Proj(s, n), c))
            && SnoopKeeps(s, s', {c})
            && L2WayOf(s', n) == w2
            && line' == Captured(Proj(s, n), c, line)
  {
    hide Placed, L1Ok, L2Ok, Proj;
    L2WayProj(s, n);
    var l2 := s.l2[n % 4096];
    var l2': L2Set := l2.(dm := l2.dm[w2 := l2.dm[w2] - {c}]);
    L2KeepMoves(s, n, w2, l2');
    var s0 := PutL2(s, n % 4096, l2');
    if c < |s.cores| {
      L1WayProj(s, c, false, n);
      var w := L1WayOf(s, c, false, n);
      if w < NUM_L1_WAYS {
        var l1 := s.cores[c].l1d[n % 64];
        var s1 := Emit(s0, SnoopInvalidate, c, 1, n % 64, w, 0, l1.state[w], Invalid, Some(l1.data[w]));
        SameCaches(s0, s1);
        L1DropMoves(s1, c, false, n, w);
      }
    }
    SameL2WaysFinds(s, InvalidatePeer(s, c, n, w2, line).0, n);
  }

  /** The loop empties the sharers' L1D, clears their bits and collects the owner's bytes. */
  ghost predicate Killed(x: LineState, y: LineState, sharers: set<nat>) {
    && |y.d| == |x.d| && y.i == x.i && y.mem == x.mem && x.l2.InL2?
    && (forall b: nat :: b < |x.d| ==> y.d[b] == if b in sharers then Absent else x.d[b])
    && y.l2 == x.l2.(dm := x.l2.dm - sharers)
  }

  lemma KilledOnce(x: LineState, c: nat)
    requires x.l2.InL2?
    ensures Killed(x, KillOne(x, c), {c})
  {
  }

  lemma KilledTwice(x: LineState, y: LineState, z: LineState, a: set<nat>, b: set<nat>)
    requires Killed(x, y, a) && Killed(y, z, b)
    ensures Killed(x, z, a + b)
  {
    assert x.l2.dm - a - b == x.l2.dm - (a + b);
  }

  lemma {:induction false} InvalidatePeersMoves(s: State, sharers: set<nat>, n: nat, w2: nat, line: Line, o: nat)
    requires Placed(s) && w2 < NUM_L2_WAYS && w2 == L2WayOf(s, n)
    requires forall b: nat :: HoldsIn(Proj(s, n).d, b, Modified) ==> b == o
    ensures var (s', line') := InvalidatePeers(s, sharers, n, w2, line);
            && Moved(s, s', n, Proj(s', n))
            && Killed(Proj(s, n), Proj(s', n), sharers)
            && SnoopKeeps(s, s', sharers)
            && L2WayOf(s', n) == w2
            && line' == if o in sharers then Captured(Proj(s, n), o, line) else line
    decreases sharers
  {
    hide Placed, L1Ok, L2Ok, Proj, KillOne, SnoopKeeps;
    L2WayProj(s, n);
    if sharers == {} {
      SnoopKeepsNothing(s);
    } else {
      var c := LowestBit(sharers);
      InvalidatePeerMoves(s, c, n, w2, line);
      var (s1, line1) := InvalidatePeer(s, c, n, w2, line);
      KilledOnce(Proj(s, n), c);
      assert Killed(Proj(s, n), Proj(s1, n), {c});
      assert HoldsIn(Proj(s, n).d, c, Modified) ==> c == o;
      assert c != o ==> HoldsIn(Proj(s1, n).d, o, Modified) == HoldsIn(Proj(s, n).d, o, Modified);
      forall b: nat | HoldsIn(Proj(s1, n).d, b, Modified) ensures b == o {
        assert HoldsIn(Proj(s, n).d, b, Modified);
      }
      InvalidatePeersMoves(s1, sharers - {c}, n, w2, line1, o);
      KilledTwice(Proj(s, n), Proj(s1, n), Proj(InvalidatePeers(s1, sharers - {c}, n, w2, line1).0, n), {c},
          sharers - {c});
      SnoopKeepsTwice(s, s1, InvalidatePeers(s1, sharers - {c}, n, w2, line1).0, {c}, sharers - {c});
      assert {c} + (sharers - {c}) == sharers;
    }
  }

  // ---------------------------------------------------------------------------
  // Invalidating instruction copies
  // ---------------------------------------------------------------------------

  ghost predicate KilledI(x: LineState, y: LineState, sharers: set<nat>) {
    && y.d == x.d && y.l2 == x.l2 && y.mem == x.mem && |y.i| == |x.i|
    && forall b: nat :: b < |x.i| ==> y.i[b] == if b in sharers then Absent else x.i[b]
  }

  /** Data caches and everything else outside L1I stay as they are. */
  ghost predicate SnoopKeepsI(s: State, s': State) {
    && SameRest(s, s') && SameMemory(s, s') && s'.l2 == s.l2
    && forall b: nat :: b < |s.cores| ==> s'.cores[b].l1d == s.cores[b].l1d
  }

  lemma InvalidatePeerIMoves(s: State, c: nat, n: nat)
    requires Placed(s)
    ensures var s' := InvalidatePeerI(s, c, n);
            Moved(s, s', n, Proj(s', n)) && KilledI(Proj(s, n), Proj(s', n), {c}) && SnoopKeepsI(s, s')
  {
    hide Placed, L1Ok, L2Ok, Proj;
    L2WayProj(s, n);
    if c < |s.cores| {
      L1WayProj(s, c, true, n);
      var w := L1WayOf(s, c, true, n);
      if w < NUM_L1_WAYS {
        var l1 := s.cores[c].l1i[n % 64];
        var s1 := Emit(s, L1iSnoopInvalidate, c, 1, n % 64, w, 0, l1.state[w], Invalid, None);
        SameCaches(s, s1);
        L1DropMoves(s1, c, true, n, w);
      }
    }
  }

  lemma {:induction false} InvalidatePeersIMoves(s: State, sharers: set<nat>, n: nat)
    requires Placed(s)
    ensures var s' := InvalidatePeersI(s, sharers, n);
            Moved(s, s', n, Proj(s', n)) && KilledI(Proj(s, n), Proj(s', n), sharers) && SnoopKeepsI(s, s')
    decreases sharers
  {
    hide Placed, L1Ok, L2Ok, Proj;
    if sharers == {} {
    } else {
      var c := LowestBit(sharers);
      InvalidatePeerIMoves(s, c, n);
      InvalidatePeersIMoves(InvalidatePeerI(s, c, n), sharers - {c}, n);
    }
  }

  // ---------------------------------------------------------------------------
  // Back-invalidation
  // ---------------------------------------------------------------------------

  /** What evict_l2's loop has done to line n once the cores in `done` are through. */
  ghost predicate Backed(x: LineState, y: LineState, done: set<nat>) {
    && |y.d| == |x.d| && |y.i| == |x.i| && y.mem == x.mem && x.l2.InL2?
    && (forall b: nat :: b < |x.d| ==> y.d[b] == if b in done then Absent else x.d[b])
    && (forall b: nat :: b < |x.i| ==> y.i[b] == if b in done then Absent else x.i[b])
    && var o := OwnerFrom(x.d, 0);
       y.l2 == if o < |x.d| && o in done then x.l2.(state := Modified, data := x.d[o].data) else x.l2
  }

  function BackOneD(x: LineState, c: nat): LineState
    requires Holds(x.d, c) && x.l2.InL2?
  {
    x.(d := x.d[c := Absent],
       l2 := if x.d[c].state == Modified then x.l2.(state := Modified, data := x.d[c].data) else x.l2)
  }

  lemma BackInvalidateDMoves(s: State, c: nat, n: nat, v: nat)
    requires Placed(s) && v < NUM_L2_WAYS && v == L2WayOf(s, n)
    requires Holds(Proj(s, n).d, c)
    ensures Proj(s, n).l2.InL2?
    ensures var r := BackInvalidateD(s, c, n, v);
            && r.Done? && Moved(s, r.value, n, BackOneD(Proj(s, n), c))
            && SameRest(s, r.value) && SameMemory(s, r.value) && SameL2Ways(s, r.value)
            && L2WayOf(r.value, n) == v
  {
    hide Placed, L1Ok, L2Ok, Proj;
    L2WayProj(s, n);
    L1WayProj(s, c, false, n);
    var l1 := s.cores[c].l1d[n % 64];
    var w := L1WayOf(s, c, false, n);
    var l2 := s.l2[n % 4096];
    var l2': L2Set := if l1.state[w] == Modified
                      then l2.(data := l2.data[v := l1.data[w]], state := l2.state[v := Modified]) else l2;
    var s1 := if l1.state[w] == Modified then PutL2(s, n % 4096, l2') else s;
    if l1.state[w] == Modified { L2KeepMoves(s, n, v, l2'); }
    var s2 := Emit(s1, SnoopInvalidate, c, 1, n % 64, w, 64 * n, l1.state[w], Invalid, Some(l1.data[w]));
    SameCaches(s1, s2);
    L1DropMoves(s2, c, false, n, w);
    SameL2WaysFinds(s, BackInvalidateD(s, c, n, v).value, n);
  }

  lemma BackInvalidateIMoves(s: State, c: nat, n: nat)
    requires Placed(s) && Holds(Proj(s, n).i, c)
    ensures var r := BackInvalidateI(s, c, n);
            && r.Done? && Moved(s, r.value, n, Proj(s, n).(i := Proj(s, n).i[c := Absent]))
            && SnoopKeepsI(s, r.value)
  {
    hide Placed, L1Ok, L2Ok, Proj;
    L2WayProj(s, n);
    L1WayProj(s, c, true, n);
    var l1 := s.cores[c].l1i[n % 64];
    var w := L1WayOf(s, c, true, n);
    var s1 := Emit(s, L1iSnoopInvalidate, c, 1, n % 64, w, 64 * n, l1.state[w], Invalid, None);
    SameCaches(s, s1);
    L1DropMoves(s1, c, true, n, w);
  }

  lemma BackOneBacked(x: LineState, y: LineState, done: set<nat>, c: nat)
    requires Coherent(x) && Backed(x, y, done) && c !in done && c in x.l2.dm + x.l2.im
    ensures c in x.l2.dm ==> Holds(y.d, c) && y.l2.InL2?
    ensures c in x.l2.im ==> Holds(y.i, c)
    ensures var y1 := if c in x.l2.dm then BackOneD(y, c) else y;
            var y2 := if c in x.l2.im then y1.(i := y1.i[c := Absent]) else y1;
            (c in x.l2.im ==> Holds(y1.i, c)) && Backed(x, y2, done + {c})
  {
    OwnerCases(x);
    assert Holds(x.d, c) <==> c in x.l2.dm;
    assert Holds(x.i, c) <==> c in x.l2.im;
    var y1 := if c in x.l2.dm then BackOneD(y, c) else y;
    var y2 := if c in x.l2.im then y1.(i := y1.i[c := Absent]) else y1;
    assert forall b: nat :: b < |x.d| ==> y2.d[b] == if b in done + {c} then Absent else x.d[b];
    assert forall b: nat :: b < |x.i| ==> y2.i[b] == if b in done + {c} then Absent else x.i[b];
    var o := OwnerFrom(x.d, 0);
    if c in x.l2.dm {
      assert y.d[c] == x.d[c];
      if x.d[c].state == Modified { assert c == o; } else { assert c != o; }
    }
  }

  /** What the turns of that loop keep besides the line itself. */
  ghost predicate BackKeeps(s: State, s': State) {
    SameRest(s, s') && SameMemory(s, s') && SameL2Ways(s, s')
  }

  lemma BackInvalidateCoreMoves(s: State, c: nat, n: nat, v: nat, x: LineState, done: set<nat>)
    requires Placed(s) && v < NUM_L2_WAYS && v == L2WayOf(s, n)
    requires Coherent(x) && Backed(x, Proj(s, n), done) && x.l2.InL2? && c in x.l2.dm + x.l2.im - done
    ensures var r := BackInvalidateCore(s, c, x.l2.dm, x.l2.im, n, v);
            && r.Done? && Moved(s, r.value, n, Proj(r.value, n))
            && Backed(x, Proj(r.value, n), done + {c})
            && BackKeeps(s, r.value) && L2WayOf(r.value, n) == v
  {
    hide Placed, L1Ok, L2Ok, Proj, Coherent, BackOneD, Backed, BackInvalidateI, BackInvalidateD;
    BackOneBacked(x, Proj(s, n), done, c);
    if c in x.l2.dm { BackInvalidateDMoves(s, c, n, v); }
    var s1 := if c in x.l2.dm then BackInvalidateD(s, c, n, v).value else s;
    if c in x.l2.im { BackInvalidateIMoves(s1, c, n); }
  }

  lemma {:induction false} BackInvalidateMoves(s: State, all: set<nat>, n: nat, v: nat, x: LineState, done: set<nat>)
    requires Placed(s) && v < NUM_L2_WAYS && v == L2WayOf(s, n)
    requires Coherent(x) && Backed(x, Proj(s, n), done)
    requires x.l2.InL2? && all == x.l2.dm + x.l2.im - done
    ensures var r := BackInvalidate(s, all, x.l2.dm, x.l2.im, n, v);
            && r.Done? && Moved(s, r.value, n, Proj(r.value, n))
            && Backed(x, Proj(r.value, n), done + all)
            && BackKeeps(s, r.value) && L2WayOf(r.value, n) == v
    decreases all
  {
    hide Placed, L1Ok, L2Ok, Proj, Coherent, Backed, BackInvalidateCore;
    if all == {} {
      assert done + all == done;
    } else {
      var c := LowestBit(all);
      BackInvalidateCoreMoves(s, c, n, v, x, done);
      var s1 := BackInvalidateCore(s, c, x.l2.dm, x.l2.im, n, v).value;
      assert all - {c} == x.l2.dm + x.l2.im - (done + {c});
      BackInvalidateMoves(s1, all - {c}, n, v, x, done + {c});
      assert done + all == (done + {c}) + (all - {c});
    }
  }

  // ---------------------------------------------------------------------------
  // Evicting from L2
  // ---------------------------------------------------------------------------

  lemma RetireMoves(s: State, n: nat, v: nat)
    requires Placed(s) && v < NUM_L2_WAYS && v == L2WayOf(s, n)
    ensures Proj(s, n).l2.InL2?
    ensures var x, r := Proj(s, n), RetireL2(s, n, v);
            && r.Done?
            && Moved(s, r.value, n, x.(l2 := NotInL2, mem := if x.l2.state == Modified then x.l2.data else x.mem))
            && SameRest(s, r.value)
            && (r.value.lossless <==> s.lossless && (x.l2.state == Modified || x.l2.data == x.mem))
            && r.value.l2[n % 4096].state[v] == Invalid
  {
    hide Placed, L1Ok, Proj;
    L2WayProj(s, n);
    var x := Proj(s, n);
    var l2 := s.l2[n % 4096];
    assert L2Ok(l2, n % 4096, |s.mem|) by { PlacedL2(s, n % 4096); }
    assert InMemory(s.mem, n);
    var dirty := l2.state[v] == Modified;
    if dirty { SetMemProj(s, n, l2.data[v]); }
    var s0 := s.(mem := if dirty then SetMemLine(s.mem, n, l2.data[v]) else s.mem);
    var s1 := s0.(lossless := s.lossless && (dirty || l2.data[v] == MemLine(s.mem, n)));
    var s2 := Emit(s1, L2Evict, 0, 2, n % 4096, v, 64 * n, l2.state[v], Invalid, Some(l2.data[v]));
    SameCaches(s0, s2);
    ClearMoves(s2, n, v);
  }

  lemma PlacedL2(s: State, k: nat)
    requires Placed(s) && k < L2_SETS
    ensures L2Ok(s.l2[k], k, |s.mem|)
  {
  }

  lemma ClearMoves(s: State, n: nat, v: nat)
    requires Placed(s) && v < NUM_L2_WAYS && v == L2WayOf(s, n)
    ensures var l2 := s.l2[n % 4096];
            var l2': L2Set := l2.(dm := l2.dm[v := {}], im := l2.im[v := {}], state := l2.state[v := Invalid]);
            Moved(s, PutL2(s, n % 4096, l2'), n, Proj(s, n).(l2 := NotInL2))
  {
    hide L1Ok;
    var l2 := s.l2[n % 4096];
    var l2': L2Set := l2.(dm := l2.dm[v := {}], im := l2.im[v := {}], state := l2.state[v := Invalid]);
    L2ClearLooks(l2, v, n % 4096, |s.mem|);
    PutL2Placed(s, n % 4096, l2');
    forall m: nat
      ensures Proj(PutL2(s, n % 4096, l2'), m) == if m == n then Proj(s, n).(l2 := NotInL2) else Proj(s, m)
    {
      SameLine(m, n);
      PutL2Proj(s, n % 4096, l2', m);
    }
  }

  /** Every line coherent, every way placed. */
  ghost predicate Inv(s: State) {
    Placed(s) && forall m: nat :: Coherent(Proj(s, m))
  }

  /** A full set gives up the line of its PLRU victim; a set with room gives up none. */
  lemma EvictL2Moves(s: State, k: nat)
    requires Inv(s) && k < L2_SETS
    ensures var r := EvictL2(s, k);
            && r.Done? && Inv(r.value.0) && SameRest(s, r.value.0)
            && r.value.0.l2[k].state[r.value.1] == Invalid
            && (r.value.0 == s || exists n: nat :: n % 4096 == k && EvictsLine(s, r.value.0, n))
  {
    hide Placed, L1Ok, L2Ok, Proj, Coherent, BackInvalidate, RetireL2, EvictsLine, EvictShared;
    assert SameRest(s, s);
    hide SameRest;
    var l2 := s.l2[k];
    if FreeFrom(l2.state, 0) == NUM_L2_WAYS {
      var v := Plru.Victim(l2.plru);
      var n := l2.tag[v] * 4096 + k;
      FullSetWay(s, k, v);
      EvictVictim(s, n, v);
      assert EvictsLine(s, EvictL2(s, k).value.0, n);
    }
  }

  ghost predicate EvictsLine(s: State, s': State, n: nat) {
    && Proj(s, n).l2.InL2?
    && Moved(s, s', n, EvictShared(Proj(s, n)))
    && (s'.lossless <==> s.lossless && !Stale(Proj(s, n)))
  }

  lemma FullSetWay(s: State, k: nat, v: nat)
    requires Placed(s) && k < L2_SETS && Valid(s.l2[k].state, v)
    ensures var n := s.l2[k].tag[v] * 4096 + k;
            n % 4096 == k && n / 4096 == s.l2[k].tag[v] && L2WayOf(s, n) == v
  {
    hide L1Ok;
    FindIs(s.l2[k].tag, s.l2[k].state, v);
  }

  lemma EvictVictim(s: State, n: nat, v: nat)
    requires Inv(s) && v < NUM_L2_WAYS && v == L2WayOf(s, n)
    ensures var l2 := s.l2[n % 4096];
            var r1 := BackInvalidate(s, l2.dm[v] + l2.im[v], l2.dm[v], l2.im[v], n, v);
            && r1.Done?
            && var r2 := RetireL2(r1.value, n, v);
               && r2.Done? && Inv(r2.value) && EvictsLine(s, r2.value, n) && SameRest(s, r2.value)
               && r2.value.l2[n % 4096].state[v] == Invalid
  {
    hide Placed, L1Ok, L2Ok, Proj, Coherent, Backed;
    L2WayProj(s, n);
    var x := Proj(s, n);
    var all := x.l2.dm + x.l2.im;
    BackedNone(x);
    assert all == all - {};
    BackInvalidateMoves(s, all, n, v, x, {});
    assert {} + all == all;
    var s1 := BackInvalidate(s, all, x.l2.dm, x.l2.im, n, v).value;
    RetireMoves(s1, n, v);
    BackedAll(x, Proj(s1, n));
    EvictSharedKeeps(x);
  }

  lemma BackedNone(x: LineState)
    requires x.l2.InL2?
    ensures Backed(x, x, {})
  {
  }

  lemma BackedAll(x: LineState, y: LineState)
    requires Coherent(x) && x.l2.InL2? && Backed(x, y, x.l2.dm + x.l2.im)
    ensures y.l2.InL2?
    ensures y.(l2 := NotInL2, mem := if y.l2.state == Modified then y.l2.data else y.mem) == EvictShared(x)
    ensures y.l2.state == Modified || y.l2.data == y.mem <==> !Stale(x)
  {
    OwnerCases(x);
    var z := EvictShared(x);
    forall b: nat | b < |x.d| ensures y.d[b] == z.d[b] && y.i[b] == z.i[b] {
      assert Holds(x.d, b) <==> b in x.l2.dm;
      assert Holds(x.i, b) <==> b in x.l2.im;
    }
    assert y.d == z.d && y.i == z.i;
    var o := OwnerFrom(x.d, 0);
    if o < |x.d| { assert Holds(x.d, o); }
  }

  // ---------------------------------------------------------------------------
  // Evicting from L1
  // ---------------------------------------------------------------------------

  function Evicted(x: LineState, c: nat, instr: bool): LineState
    requires x.l2.InL2? && if instr then Holds(x.i, c) else Holds(x.d, c)
  {
    if instr then EvictI(x, c) else EvictD(x, c)
  }

  ghost predicate EvictsCopy(s: State, s': State, c: nat, instr: bool, n: nat) {
    var x := Proj(s, n);
    && x.l2.InL2? && (if instr then Holds(x.i, c) else Holds(x.d, c))
    && Moved(s, s', n, Evicted(x, c, instr))
  }

  /** A full L1 set gives up its PLRU victim, whose L2 way is always found. */
  lemma EvictL1Moves(s: State, c: nat, instr: bool, i: nat)
    requires Inv(s) && c < |s.cores| && i < L1_SETS
    ensures var r := EvictL1(s, c, instr, i);
            && r.Done? && Inv(r.value.0)
            && SameRest(s, r.value.0) && SameMemory(s, r.value.0) && SameL2Ways(s, r.value.0)
            && GetL1(r.value.0, c, instr, i).state[r.value.1] == Invalid
            && (r.value.0 == s || exists n: nat :: n % 64 == i && EvictsCopy(s, r.value.0, c, instr, n))
  {
    hide Placed, L1Ok, L2Ok, Proj, Coherent, EvictD, EvictI;
    var l1 := GetL1(s, c, instr, i);
    if FreeFrom(l1.state, 0) == NUM_L1_WAYS {
      var v := Plru.Victim(l1.plru);
      var n := l1.tag[v] * 64 + i;
      FullL1Way(s, c, instr, i, v);
      EvictCopy(s, c, instr, n, v);
      assert EvictsCopy(s, EvictL1(s, c, instr, i).value.0, c, instr, n);
    }
  }

  lemma FullL1Way(s: State, c: nat, instr: bool, i: nat, v: nat)
    requires Placed(s) && c < |s.cores| && i < L1_SETS && Valid(GetL1(s, c, instr, i).state, v)
    ensures var n := GetL1(s, c, instr, i).tag[v] * 64 + i;
            n % 64 == i && n / 64 == GetL1(s, c, instr, i).tag[v] && L1WayOf(s, c, instr, n) == v
  {
    hide L2Ok;
    FindIs(GetL1(s, c, instr, i).tag, GetL1(s, c, instr, i).state, v);
  }

  lemma EvictCopy(s: State, c: nat, instr: bool, n: nat, v: nat)
    requires Inv(s) && c < |s.cores| && v < NUM_L1_WAYS && v == L1WayOf(s, c, instr, n)
    ensures L2WayOf(s, n) < NUM_L2_WAYS
    ensures var l1, l2, w2 := GetL1(s, c, instr, n % 64), s.l2[n % 4096], L2WayOf(s, n);
            var l2' := if !instr && l1.state[v] == Modified then L2WriteBack(l2, c, w2, l1.data[v])
                       else L2Release(l2, c, w2, instr);
            var s1 := Emit(PutL2(s, n % 4096, l2'), L1dEvict, c, 1, n % 64, v, 64 * n, l1.state[v], Invalid,
                Some(l1.data[v]));
            var s' := PutL1(s1, c, instr, n % 64, L1Drop(l1, v));
            && Inv(s') && SameRest(s, s') && SameMemory(s, s') && SameL2Ways(s, s')
            && EvictsCopy(s, s', c, instr, n)
  {
    hide Placed, L1Ok, L2Ok, Proj, Coherent, Calm, View, Stale, L2WriteBack, L2Release, EvictD, EvictI;
    var x := Proj(s, n);
    L1WayProj(s, c, instr, n);
    L2WayProj(s, n);
    if instr { EvictIKeeps(x, c); } else { EvictDKeeps(x, c); }
    var l1, l2, w2 := GetL1(s, c, instr, n % 64), s.l2[n % 4096], L2WayOf(s, n);
    var l2' := if !instr && l1.state[v] == Modified then L2WriteBack(l2, c, w2, l1.data[v])
               else L2Release(l2, c, w2, instr);
    ReleasedWay(l2, c, w2, instr, x, l1.state[v], l1.data[v]);
    L2KeepMoves(s, n, w2, l2');
    var s0 := PutL2(s, n % 4096, l2');
    var s1 := Emit(s0, L1dEvict, c, 1, n % 64, v, 64 * n, l1.state[v], Invalid, Some(l1.data[v]));
    SameCaches(s0, s1);
    L1DropMoves(s1, c, instr, n, v);
  }

  /** The victim's L2 way, before and after. */
  lemma ReleasedWay(l2: L2Set, c: nat, w2: nat, instr: bool, x: LineState, state: Mesi, data: Line)
    requires w2 < NUM_L2_WAYS && Valid(l2.state, w2)
    requires x.l2 == InL2(l2.state[w2], l2.dm[w2], l2.im[w2], l2.data[w2])
    requires if instr then Holds(x.i, c) else Holds(x.d, c) && x.d[c] == Copy(state, data)
    ensures var l2' := if !instr && state == Modified then L2WriteBack(l2, c, w2, data)
                       else L2Release(l2, c, w2, instr);
            && l2'.tag == l2.tag && l2'.state[w2] != Invalid
            && InL2(l2'.state[w2], l2'.dm[w2], l2'.im[w2], l2'.data[w2]) == Evicted(x, c, instr).l2
            && forall v: nat :: v < NUM_L2_WAYS && v != w2 ==>
                 && l2'.state[v] == l2.state[v] && l2'.data[v] == l2.data[v]
                 && l2'.dm[v] == l2.dm[v] && l2'.im[v] == l2.im[v]
    ensures Evicted(x, c, instr) == (if instr then x.(i := x.i[c := Absent], l2 := Evicted(x, c, instr).l2)
                                     else x.(d := x.d[c := Absent], l2 := Evicted(x, c, instr).l2))
  {
  }
}
