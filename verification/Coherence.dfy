/** The coherence protocol seen from a single line.

    Every operation of cpu.cpp acts on one line at a time: the copies the cores hold
    of it in L1D and L1I, its L2 way with the two directory masks, and its bytes in
    memory. Here are those per-line actions and what each of them keeps. That the
    operations on sets and ways are such actions is shown in Snoops and Calls. */
module Coherence {
  import opened Types

  /** One core's copy of the line; Copy never holds Invalid in a placed state. */
  datatype Copy = Absent | Copy(state: Mesi, data: Line)

  /** The line's L2 way: its state, the two directory masks and the data. */
  datatype L2Copy = NotInL2 | InL2(state: Mesi, dm: set<nat>, im: set<nat>, data: Line)

  datatype LineState = LineState(d: seq<Copy>, i: seq<Copy>, l2: L2Copy, mem: Line)

  predicate Holds(x: seq<Copy>, c: nat) { c < |x| && x[c].Copy? }

  predicate HoldsIn(x: seq<Copy>, c: nat, state: Mesi) { c < |x| && x[c].Copy? && x[c].state == state }

  /** Core c has the line in L1D or in L1I, as the directory records it. */
  predicate Shares(l2: L2Copy, c: nat) { l2.InL2? && (c in l2.dm || c in l2.im) }

  /** Inclusion with an exact directory. */
  ghost predicate Directory(x: LineState) {
    && |x.i| == |x.d|
    && (x.l2.NotInL2? ==> forall c: nat :: !Holds(x.d, c) && !Holds(x.i, c))
    && (x.l2.InL2? ==> forall c: nat :: c in x.l2.dm <==> Holds(x.d, c))
    && (x.l2.InL2? ==> forall c: nat :: c in x.l2.im <==> Holds(x.i, c))
  }

  /** The L2 way that must go with an L1D copy in a given state at core c. */
  predicate Allowed(l2: L2Copy, c: nat, state: Mesi) {
    && l2.InL2?
    && match state
       case Invalid => false
       case Modified => l2.dm == {c} && l2.im == {} && l2.state == Modified
       case Exclusive => l2.dm == {c} && l2.im <= {c}
       case Shared => true
  }

  /** No copy in a forbidden combination of states. */
  ghost predicate SingleWriter(x: LineState) {
    && (forall c: nat :: Holds(x.d, c) ==> Allowed(x.l2, c, x.d[c].state))
    && (forall c: nat :: Holds(x.i, c) ==> x.i[c].state == Shared)
    && (x.l2.InL2? ==> x.l2.state != Invalid)
    && (x.l2.InL2? && x.l2.state == Modified ==> x.l2.im == {})
    && (x.l2.InL2? && x.l2.state != Shared ==>
          forall b, c :: Shares(x.l2, b) && Shares(x.l2, c) ==> b == c)
  }

  /** Every copy that is not MODIFIED has the L2 bytes. */
  ghost predicate CleanCopies(x: LineState) {
    && (forall c: nat :: Holds(x.d, c) && x.d[c].state != Modified ==> x.l2.InL2? && x.d[c].data == x.l2.data)
    && (forall c: nat :: Holds(x.i, c) ==> x.l2.InL2? && x.i[c].data == x.l2.data)
  }

  ghost predicate Coherent(x: LineState) {
    Directory(x) && SingleWriter(x) && CleanCopies(x)
  }

  /** The first core, from `c` on, with a MODIFIED copy; |x| if there is none. */
  function OwnerFrom(x: seq<Copy>, c: nat): (o: nat)
    requires c <= |x|
    ensures c <= o <= |x|
    ensures o < |x| ==> HoldsIn(x, o, Modified)
    ensures forall b: nat :: c <= b < o ==> !HoldsIn(x, b, Modified)
    decreases |x| - c
  {
    if c == |x| || HoldsIn(x, c, Modified) then c else OwnerFrom(x, c + 1)
  }

  /** What a load of the line would see: the MODIFIED copy, else L2, else memory. */
  function View(x: LineState): Line {
    var o := OwnerFrom(x.d, 0);
    if o < |x.d| then x.d[o].data
    else if x.l2.InL2? then x.l2.data
    else x.mem
  }

  /** The line's bytes live only in an L2 way that will not be written back. */
  predicate Stale(x: LineState) {
    x.l2.InL2? && x.l2.state != Modified && x.l2.data != x.mem
  }

  predicate OthersShare(x: LineState, c: nat)
    requires x.l2.InL2?
  {
    x.l2.dm - {c} != {} || x.l2.im - {c} != {}
  }

  function Patch(line: Line, offset: nat, bytes: seq<byte>): Line
    requires offset + |bytes| <= LINE_SIZE
  {
    line[..offset] + bytes + line[offset + |bytes|..]
  }

  // ---------------------------------------------------------------------------
  // Actions
  // ---------------------------------------------------------------------------

  /** Clearing a directory bit by a clean eviction: the last one out of a SHARED way
      leaves it EXCLUSIVE. */
  function Relax(l2: L2Copy): L2Copy
    requires l2.InL2?
  {
    if l2.dm == {} && l2.im == {} && l2.state == Shared then l2.(state := Exclusive) else l2
  }

  function EvictD(x: LineState, c: nat): LineState
    requires c < |x.d| && x.d[c].Copy? && x.l2.InL2?
  {
    x.(d := x.d[c := Absent],
       l2 := if x.d[c].state == Modified
             then x.l2.(data := x.d[c].data, state := Modified, dm := x.l2.dm - {c})
             else Relax(x.l2.(dm := x.l2.dm - {c})))
  }

  function EvictI(x: LineState, c: nat): LineState
    requires c < |x.i| && x.l2.InL2?
  {
    x.(i := x.i[c := Absent], l2 := Relax(x.l2.(im := x.l2.im - {c})))
  }

  function AllAbsent(n: nat): seq<Copy> { seq(n, _ => Absent) }

  /** Back-invalidation of every L1 copy, write-back if the way ends up MODIFIED. */
  function EvictShared(x: LineState): LineState
    requires x.l2.InL2?
  {
    var o := OwnerFrom(x.d, 0);
    var data := if o < |x.d| then x.d[o].data else x.l2.data;
    LineState(AllAbsent(|x.d|), AllAbsent(|x.i|), NotInL2,
              if o < |x.d| || x.l2.state == Modified then data else x.mem)
  }

  /** Bus-read snoop: every other L1D copy drops to SHARED, L2 takes the freshest
      bytes and becomes SHARED. */
  function Downgrade(x: LineState, c: nat): LineState
    requires x.l2.InL2?
  {
    x.(d := seq(|x.d|, b requires 0 <= b < |x.d| =>
                  if b != c && x.d[b].Copy? then Copy(Shared, x.d[b].data) else x.d[b]),
       l2 := x.l2.(state := Shared,
                   data := var o := OwnerFrom(x.d, 0);
                           if o < |x.d| && o != c then x.d[o].data else x.l2.data))
  }

  /** A load that misses L1D and hits L2. */
  function ReadShared(x: LineState, c: nat): LineState
    requires c < |x.d| && x.l2.InL2?
  {
    var y := if OthersShare(x, c) then Downgrade(x, c) else x;
    y.(d := y.d[c := Copy(if OthersShare(x, c) then Shared else Exclusive, y.l2.data)],
       l2 := y.l2.(dm := y.l2.dm + {c}))
  }

  /** A fetch that misses L1I and hits L2. */
  function FetchShared(x: LineState, c: nat): LineState
    requires c < |x.i| && x.l2.InL2?
  {
    var y := if OthersShare(x, c) then Downgrade(x, c) else x;
    y.(i := y.i[c := Copy(Shared, y.l2.data)], l2 := y.l2.(im := y.l2.im + {c}))
  }

  /** The line as core c's store leaves it: c alone, MODIFIED, with these L1 bytes. */
  function OwnedBy(x: LineState, c: nat, line: Line): LineState
    requires c < |x.d| && x.l2.InL2?
  {
    x.(d := AllAbsent(|x.d|)[c := Copy(Modified, line)], i := AllAbsent(|x.i|),
       l2 := x.l2.(state := Modified, dm := {c}, im := {}))
  }

  /** Fills of a line that L2 does not hold. */
  function FillD(x: LineState, c: nat, line: Line, state: Mesi): LineState
    requires c < |x.d|
  {
    x.(d := x.d[c := Copy(state, line)], l2 := InL2(state, {c}, {}, line))
  }

  function FillI(x: LineState, c: nat): LineState
    requires c < |x.i|
  {
    x.(i := x.i[c := Copy(Shared, x.mem)], l2 := InL2(Exclusive, {}, {c}, x.mem))
  }

  function Prefetch(x: LineState): LineState {
    x.(l2 := InL2(Exclusive, {}, {}, x.mem))
  }

  /** A SHARED way that no core shares. */
  predicate Idle(x: LineState) { InState(x.l2, Shared) && x.l2.dm == {} && x.l2.im == {} }

  /** Nothing here is a new store: no line becomes MODIFIED, memory changes only under
      a MODIFIED way, and no core gains a copy. Nor does a way stay SHARED when the last
      sharer leaves. */
  ghost predicate Calm(x: LineState, y: LineState) {
    && (Idle(y) ==> Idle(x))
    && (InState(y.l2, Modified) ==> InState(x.l2, Modified))
    && (y.mem == x.mem || InState(x.l2, Modified))
    && forall b: nat :: Shares(y.l2, b) ==> Shares(x.l2, b)
  }

  predicate InState(l2: L2Copy, state: Mesi) { l2.InL2? && l2.state == state }

  // ---------------------------------------------------------------------------
  // What each action keeps
  // ---------------------------------------------------------------------------

  /** A MODIFIED copy is the only copy, and it is the view; without one the view is
      L2, or memory where L2 does not hold the line. */
  lemma OwnerCases(x: LineState)
    requires Coherent(x)
    ensures var o := OwnerFrom(x.d, 0);
            && (o < |x.d| ==> View(x) == x.d[o].data && x.l2.InL2? && x.l2.state == Modified
                              && x.l2.dm == {o} && x.l2.im == {})
            && (forall c: nat :: Holds(x.d, c) && x.d[c].state == Modified ==> c == o)
            && (o == |x.d| ==> View(x) == if x.l2.InL2? then x.l2.data else x.mem)
  {
    var o := OwnerFrom(x.d, 0);
    if o < |x.d| { assert Holds(x.d, o); }
    forall c: nat | Holds(x.d, c) && x.d[c].state == Modified ensures c == o {
      assert HoldsIn(x.d, c, Modified);
    }
  }

  lemma OwnerIs(x: LineState, o: nat)
    requires o <= |x.d|
    requires o < |x.d| ==> HoldsIn(x.d, o, Modified)
    requires forall c: nat :: Holds(x.d, c) && x.d[c].state == Modified ==> c == o
    ensures OwnerFrom(x.d, 0) == o
  {
    var p := OwnerFrom(x.d, 0);
    if p < |x.d| { assert Holds(x.d, p); }
  }

  /** Whoever holds a copy sees the view, so a hit returns what memory semantics asks. */
  lemma CopyIsView(x: LineState, c: nat)
    requires Coherent(x)
    ensures Holds(x.d, c) ==> x.d[c].data == View(x)
    ensures Holds(x.i, c) ==> x.i[c].data == View(x)
  {
    OwnerCases(x);
  }

  lemma EvictDKeeps(x: LineState, c: nat)
    requires Coherent(x) && Holds(x.d, c)
    ensures x.l2.InL2? && Coherent(EvictD(x, c))
    ensures View(EvictD(x, c)) == View(x) && Stale(EvictD(x, c)) == Stale(x) && Calm(x, EvictD(x, c))
  {
    var y := EvictD(x, c);
    OwnerCases(x);
    assert forall b: nat :: Holds(y.d, b) <==> Holds(x.d, b) && b != c;
    assert forall b: nat :: Holds(y.i, b) <==> Holds(x.i, b);
    assert forall b: nat :: Shares(y.l2, b) ==> Shares(x.l2, b);
    var o := OwnerFrom(x.d, 0);
    OwnerIs(y, if o == c then |x.d| else o);
  }

  lemma EvictIKeeps(x: LineState, c: nat)
    requires Coherent(x) && Holds(x.i, c)
    ensures x.l2.InL2? && Coherent(EvictI(x, c))
    ensures View(EvictI(x, c)) == View(x) && Stale(EvictI(x, c)) == Stale(x) && Calm(x, EvictI(x, c))
  {
    var y := EvictI(x, c);
    assert forall b: nat :: Holds(y.d, b) <==> Holds(x.d, b);
    assert forall b: nat :: Holds(y.i, b) <==> Holds(x.i, b) && b != c;
    assert forall b: nat :: Shares(y.l2, b) ==> Shares(x.l2, b);
  }

  /** The one action that can lose bytes. It keeps the view exactly when the way is
      MODIFIED or agrees with memory. */
  lemma EvictSharedKeeps(x: LineState)
    requires Coherent(x) && x.l2.InL2?
    ensures Coherent(EvictShared(x)) && !Stale(EvictShared(x))
    ensures View(EvictShared(x)) == View(x) <==> !Stale(x)
    ensures Calm(x, EvictShared(x))
  {
    var y := EvictShared(x);
    OwnerCases(x);
    assert forall b: nat :: !Holds(y.d, b) && !Holds(y.i, b);
    OwnerIs(y, |x.d|);
  }

  /** A downgrade keeps every copy's bytes and makes all but core c's SHARED. */
  lemma DowngradeShape(x: LineState, c: nat)
    requires x.l2.InL2?
    ensures var y := Downgrade(x, c);
            && |y.d| == |x.d| && y.i == x.i && y.mem == x.mem
            && y.l2 == x.l2.(state := Shared, data := y.l2.data)
            && (forall b: nat :: Holds(y.d, b) <==> Holds(x.d, b))
            && (forall b: nat :: Holds(y.d, b) ==> y.d[b].data == x.d[b].data)
            && (forall b: nat :: Holds(y.d, b) ==> y.d[b].state == if b == c then x.d[b].state else Shared)
            && (c < |x.d| ==> y.d[c] == x.d[c])
  {
  }

  /** Where another core shares the line, core c has it SHARED or not at all. */
  lemma SharedAtMost(x: LineState, c: nat)
    requires Coherent(x) && x.l2.InL2? && OthersShare(x, c)
    ensures Holds(x.d, c) ==> x.d[c].state == Shared
  {
    var other :| other in (x.l2.dm - {c}) + (x.l2.im - {c});
    assert Shares(x.l2, other);
    assert Holds(x.d, c) ==> Shares(x.l2, c);
  }

  lemma DowngradeKeeps(x: LineState, c: nat)
    requires Coherent(x) && x.l2.InL2? && OthersShare(x, c)
    ensures Coherent(Downgrade(x, c))
    ensures View(Downgrade(x, c)) == View(x) == Downgrade(x, c).l2.data
    ensures OwnerFrom(Downgrade(x, c).d, 0) == |x.d|
    ensures Holds(x.d, c) ==> x.d[c].state == Shared
  {
    var y := Downgrade(x, c);
    OwnerCases(x);
    SharedAtMost(x, c);
    DowngradeShape(x, c);
    assert y.l2.data == View(x);
    hide Downgrade;
    OwnerIs(y, |x.d|);
  }

  /** Who holds the line once core c does. */
  lemma CopyAdded(d: seq<Copy>, c: nat, copy: Copy)
    requires c < |d| && copy.Copy?
    ensures forall b: nat :: Holds(d[c := copy], b) <==> Holds(d, b) || b == c
  {
  }

  /** A reader joins a line that nobody has MODIFIED. */
  function Joined(x: LineState, c: nat, state: Mesi): LineState
    requires c < |x.d| && x.l2.InL2?
  {
    x.(d := x.d[c := Copy(state, x.l2.data)], l2 := x.l2.(dm := x.l2.dm + {c}))
  }

  lemma JoinedKeeps(x: LineState, c: nat, state: Mesi)
    requires Coherent(x) && x.l2.InL2? && c < |x.d| && x.d[c].Absent? && OwnerFrom(x.d, 0) == |x.d|
    requires if state == Shared then x.l2.state == Shared && forall b: nat :: Holds(x.d, b) ==> x.d[b].state == Shared
             else state == Exclusive && !OthersShare(x, c)
    ensures var y := Joined(x, c, state);
            Coherent(y) && OwnerFrom(y.d, 0) == |y.d| && View(y) == x.l2.data && Stale(y) == Stale(x)
  {
    var y := Joined(x, c, state);
    OwnerCases(x);
    CopyAdded(x.d, c, Copy(state, x.l2.data));
    if !OthersShare(x, c) {
      forall b: nat | b in x.l2.dm || b in x.l2.im ensures b == c {
        assert b !in x.l2.dm - {c} && b !in x.l2.im - {c};
      }
    }
    OwnerIs(y, |x.d|);
  }

  lemma ReadSharedKeeps(x: LineState, c: nat)
    requires Coherent(x) && x.l2.InL2? && c < |x.d| && x.d[c].Absent?
    ensures Coherent(ReadShared(x, c)) && View(ReadShared(x, c)) == View(x)
    ensures ReadShared(x, c).d[c].data == View(x)
    ensures Stale(ReadShared(x, c)) <==> if OthersShare(x, c) then View(x) != x.mem else Stale(x)
  {
    if OthersShare(x, c) {
      DowngradeKeeps(x, c);
      DowngradeShape(x, c);
      hide Downgrade, Coherent, View;
      JoinedKeeps(Downgrade(x, c), c, Shared);
    } else {
      NobodyOwns(x, c);
      hide Coherent;
      JoinedKeeps(x, c, Exclusive);
    }
  }

  /** Where no other core shares the line and c has no L1D copy, nobody has it MODIFIED. */
  lemma NobodyOwns(x: LineState, c: nat)
    requires Coherent(x) && x.l2.InL2? && c < |x.d| && x.d[c].Absent? && !OthersShare(x, c)
    ensures OwnerFrom(x.d, 0) == |x.d| && View(x) == x.l2.data
  {
    OwnerCases(x);
    HoldsInMask(x, OwnerFrom(x.d, 0), c);
  }

  lemma HoldsInMask(x: LineState, b: nat, c: nat)
    requires Coherent(x) && x.l2.InL2? && c < |x.d| && x.d[c].Absent?
    ensures Holds(x.d, b) ==> b in x.l2.dm - {c}
  {
  }

  lemma FetchSharedKeeps(x: LineState, c: nat)
    requires Coherent(x) && x.l2.InL2? && x.l2.state != Modified && c < |x.i| && x.i[c].Absent?
    ensures Coherent(FetchShared(x, c)) && View(FetchShared(x, c)) == View(x)
    ensures FetchShared(x, c).i[c].data == View(x)
    ensures Stale(FetchShared(x, c)) == Stale(x)
  {
    OwnerCases(x);
    if OthersShare(x, c) { DowngradeKeeps(x, c); }
    var y := if OthersShare(x, c) then Downgrade(x, c) else x;
    var z := FetchShared(x, c);
    assert forall b: nat :: Holds(z.d, b) <==> Holds(y.d, b);
    assert forall b: nat :: Holds(z.i, b) <==> Holds(y.i, b) || b == c;
    assert !OthersShare(x, c) ==> forall b: nat :: b in x.l2.dm || b in x.l2.im ==> b == c by {
      if !OthersShare(x, c) {
        forall b: nat | b in x.l2.dm || b in x.l2.im ensures b == c {
          assert b !in x.l2.dm - {c} && b !in x.l2.im - {c};
        }
      }
    }
    OwnerIs(z, |x.d|);
  }

  lemma OwnedByKeeps(x: LineState, c: nat, line: Line)
    requires Coherent(x) && x.l2.InL2? && c < |x.d|
    ensures Coherent(OwnedBy(x, c, line)) && View(OwnedBy(x, c, line)) == line
    ensures !Stale(OwnedBy(x, c, line))
  {
    var y := OwnedBy(x, c, line);
    assert forall b: nat :: Holds(y.d, b) <==> b == c;
    assert forall b: nat :: !Holds(y.i, b);
    OwnerIs(y, c);
  }

  lemma FillDKeeps(x: LineState, c: nat, line: Line, state: Mesi)
    requires Coherent(x) && x.l2.NotInL2? && c < |x.d|
    requires state == Modified || state == Exclusive
    ensures View(x) == x.mem
    ensures Coherent(FillD(x, c, line, state)) && View(FillD(x, c, line, state)) == line
    ensures state == Modified || line == x.mem ==> !Stale(FillD(x, c, line, state))
  {
    var y := FillD(x, c, line, state);
    OwnerCases(x);
    assert forall b: nat :: Holds(y.d, b) <==> b == c;
    assert forall b: nat :: Holds(y.i, b) <==> Holds(x.i, b);
    OwnerIs(y, if state == Modified then c else |x.d|);
  }

  lemma FillIKeeps(x: LineState, c: nat)
    requires Coherent(x) && x.l2.NotInL2? && c < |x.i|
    ensures View(x) == x.mem
    ensures Coherent(FillI(x, c)) && View(FillI(x, c)) == x.mem && !Stale(FillI(x, c))
  {
    var y := FillI(x, c);
    OwnerCases(x);
    assert forall b: nat :: Holds(y.d, b) <==> Holds(x.d, b);
    assert forall b: nat :: Holds(y.i, b) <==> b == c;
  }

  lemma PrefetchKeeps(x: LineState)
    requires Coherent(x) && x.l2.NotInL2?
    ensures Coherent(Prefetch(x)) && View(Prefetch(x)) == View(x) && !Stale(Prefetch(x)) && Calm(x, Prefetch(x))
  {
    var y := Prefetch(x);
    OwnerCases(x);
    assert forall b: nat :: Holds(y.d, b) <==> Holds(x.d, b);
    assert forall b: nat :: Holds(y.i, b) <==> Holds(x.i, b);
  }
}
