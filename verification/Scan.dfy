/** Sequential accesses from power-on: what the prefetcher makes of them. */
module Scan {
  import opened Types
  import opened Coherence
  import opened Caches
  import opened Projection
  import opened Snoops
  import opened Flat
  import opened Prefetch
  import opened Losses
  import opened Machine
  import opened Arrivals
  import opened Streams
  import opened Outcomes
  import opened Runs
  import Calls

  /** A load or store of core c on line n. */
  predicate Accesses(op: Op, c: nat, n: nat) { op.core == c && op.pa / 64 == n && !op.kind.Fetching? }

  /** Core c's table has nothing but, at most, entry i. */
  ghost predicate OnlyStream(pf: Prefetcher, i: nat) {
    forall j: nat :: j < NUM_STREAMS && j != i ==> pf.streams[j].confidence == Unused
  }

  /** A line that is neither the call's own nor on its page is no more in L2 than before, and
      memory has kept its bytes if it was not. */
  lemma ElsewhereStaysOut(s: State, op: Op, m: nat)
    requires Good(s) && op.Fits(|s.cores|) && Step(s, op).Done? && m / 64 != op.pa / PAGE_SIZE
    requires Proj(s, m).l2.NotInL2?
    ensures Proj(Step(s, op).value.0, m).l2.NotInL2? && Proj(Step(s, op).value.0, m).mem == Proj(s, m).mem
  {
    hide Placed, Windowed, Coherent, Proj, Step, LineAfter, View, Stale, Patch;
    StepKeepsDemandedLine(s, op);
    Restamped(s, op.stamp);
    assert Calm(Proj(s.(stamp := op.stamp), m), Proj(Step(s, op).value.0, m));
  }

  /** Nothing in L2, no stream anywhere. */
  ghost predicate Cold(s: State, c: nat) {
    && Good(s) && c < |s.cores|
    && (forall m: nat :: Proj(s, m).l2.NotInL2?)
    && (forall j: nat :: j < NUM_STREAMS ==> s.cores[c].pf.streams[j].confidence == Unused)
  }

  lemma PowerOnIsCold(n: nat, mem: seq<byte>, c: nat)
    requires c < n
    ensures Cold(Init(n, mem), c)
  {
    hide Proj, Good;
    InitGood(n, mem);
  }

  /** The first access brings in its own line and starts one stream training there. */
  lemma FirstAccess(s: State, op: Op, c: nat, a: nat) returns (i: nat)
    requires Cold(s, c) && Accesses(op, c, a) && op.Fits(|s.cores|) && Step(s, op).Done?
    ensures var s1 := Step(s, op).value.0;
            && Good(s1) && |s1.cores| == |s.cores| && |s1.mem| == |s.mem|
            && (forall m: nat :: Proj(s1, m).l2.InL2? <==> m == a)
            && (forall m: nat :: m != a ==> Proj(s1, m).mem == Proj(s, m).mem)
            && i < NUM_STREAMS && OnlyStream(s1.cores[c].pf, i)
            && s1.cores[c].pf.streams[i] == Stream(64 * a, 64 * a, Unknown, Training)
  {
    hide Inv, Windowed, Proj, Step, L2WayOf, BurstLines, CountedIn;
    var s1 := Step(s, op).value.0;
    StepIsAction(s, op);
    StepKeepsDemandedLine(s, op);
    StepRefinesFlat(s, op);
    L2WayProj(s, a);
    i := StepCounts(s, op);
    assert NoneMatches(s.cores[c].pf, a);
    forall m: nat | m != a ensures Proj(s1, m).l2.NotInL2? && Proj(s1, m).mem == Proj(s, m).mem {
      if m / 64 == a / 64 {
        StepBrings(s, op, m);
        StreamAsks(s, c, a, m);
      } else {
        ElsewhereStaysOut(s, op, m);
      }
    }
  }

  /** The second of two neighbouring accesses, b after a = b - d, trains the stream in direction
      d, and prefetches the lines from b on that way, up to eight of them, that are on b's page
      and in memory. */
  lemma SecondAccess(s: State, op: Op, c: nat, a: nat, b: nat, i: nat)
    requires Good(s) && c < |s.cores| && Accesses(op, c, b) && op.Fits(|s.cores|) && Step(s, op).Done?
    requires (b == a + 1 || a == b + 1) && forall m: nat :: Proj(s, m).l2.InL2? <==> m == a
    requires i < NUM_STREAMS && OnlyStream(s.cores[c].pf, i)
    requires s.cores[c].pf.streams[i] == Stream(64 * a, 64 * a, Unknown, Training)
    ensures InMemory(s.mem, b)
    ensures forall m: nat :: m in StreamLines(s, c, b) <==> Fetchable(m, b, |s.mem|) && 1 <= (m - b) * (b - a) <= 8
    ensures L2WayOf(s, b) == NUM_L2_WAYS && MatchFrom(s.cores[c].pf.streams, 64 * b, 0) == i
    ensures Heading(s.cores[c].pf.streams[i], b) == b - a && From(s.cores[c].pf.streams[i], b) == b
  {
    hide Inv, Windowed, Proj, Step, L2WayOf, BurstLines, Fetchable, StreamLines;
    StepIsAction(s, op);
    L2WayProj(s, b);
    assert StreamMatches(s.cores[c].pf.streams[i], 64 * b);
    var f := MatchFrom(s.cores[c].pf.streams, 64 * b, 0);
    assert f < NUM_STREAMS ==> StreamMatches(s.cores[c].pf.streams[f], 64 * b);
    forall m: nat
      ensures m in StreamLines(s, c, b) <==> Fetchable(m, b, |s.mem|) && 1 <= (m - b) * (b - a) <= 8
    {
      StreamAsks(s, c, b, m);
    }
  }

  /** From a cold state, two accesses of neighbouring lines a and b by one core: of b's page, L2
      then has exactly a, b, and the prefetched lines beyond b as seen from a; the last
      EXCLUSIVE, with memory's bytes. */
  lemma TwoAccesses(s: State, op1: Op, op2: Op, c: nat, a: nat, b: nat, m: nat)
    requires Cold(s, c) && Accesses(op1, c, a) && Accesses(op2, c, b) && (b == a + 1 || a == b + 1)
    requires op1.Fits(|s.cores|) && op2.Fits(|s.cores|) && Step(s, op1).Done? && Step(Step(s, op1).value.0, op2).Done?
    requires m / 64 == b / 64
    ensures var x := Proj(Step(Step(s, op1).value.0, op2).value.0, m);
            var ahead := Fetchable(m, b, |s.mem|) && 1 <= (m - b) * (b - a) <= 8;
            && (x.l2.InL2? <==> m == a || m == b || ahead)
            && (ahead ==> x.l2 == InL2(Exclusive, {}, {}, MemLine(s.mem, m)))
  {
    hide Good, Proj, Step, L2WayOf, BurstLines, Fetchable, StreamLines;
    var i := FirstAccess(s, op1, c, a);
    var s1 := Step(s, op1).value.0;
    SecondAccess(s1, op2, c, a, b, i);
    L2WayProj(s, m);
    L2WayProj(s1, m);
    if 1 <= (m - b) * (b - a) <= 8 { NotItself(a, b, m); }
    if m == b { StepKeepsDemandedLine(s1, op2); } else { StepBrings(s1, op2, m); }
  }

  lemma NotItself(a: nat, b: nat, m: nat)
    requires (b == a + 1 || a == b + 1) && 1 <= (m - b) * (b - a) <= 8
    ensures m != a && m != b
  {
  }

  // ---------------------------------------------------------------------------
  // A whole scan
  // ---------------------------------------------------------------------------

  /** In the middle of a forward scan of a page: the next line is `next`, the last miss was on
      line `last`, and of the lines still to come those up to last + 8 are in L2. */
  ghost predicate Scanning(s: State, c: nat, i: nat, next: nat, last: nat) {
    && Good(s) && c < |s.cores| && i < NUM_STREAMS && OnlyStream(s.cores[c].pf, i)
    && last < next <= last + 9
    && (forall m: nat :: m / 64 == last / 64 && m >= next ==> Ahead(s, c, last, m))
    && (Fetchable(last + 8, last, |s.mem|) ==>
          s.cores[c].pf.streams[i] == Stream(64 * last, 64 * (last + 8), Forward, Steady))
  }

  /** Line m is still to come. */
  ghost predicate Ahead(s: State, c: nat, last: nat, m: nat) {
    && (Proj(s, m).l2.InL2? <==> m <= last + 8 && InMemory(s.mem, m))
    && !Holds(Proj(s, m).d, c)
  }

  /** The next access hits L2, unless it is the ninth after the last miss. */
  lemma ScanStep(s: State, op: Op, c: nat, i: nat, next: nat, last: nat)
    requires Scanning(s, c, i, next, last) && Accesses(op, c, next) && next / 64 == last / 64
    requires op.Fits(|s.cores|) && Step(s, op).Done?
    ensures var s' := Step(s, op).value.0;
            && |s'.cores| == |s.cores|
            && Scanning(s', c, i, next + 1, if next == last + 9 then next else last)
            && s'.cores[c].pmc == if next == last + 9 then Fetched(s.cores[c].pmc) else HitL2(s.cores[c].pmc)
  {
    hide Inv, Windowed, Proj, Step, L2WayOf, L1WayOf, BurstLines, StreamLines, Coherent, Scanning;
    ScanningParts(s, c, i, next, last, next);
    StepIsAction(s, op);
    StepRefinesFlat(s, op);
    L2WayProj(s, next);
    L1WayProj(s, c, false, next);
    var f := StepCounts(s, op);
    if next == last + 9 { ScanMisses(s, op, c, i, last, f); } else { ScanHits(s, op, c, i, next, last); }
  }

  function Fetched(pmc: Pmc): Pmc { pmc.(memFetches := pmc.memFetches + 1) }

  function HitL2(pmc: Pmc): Pmc { pmc.(l2Hits := pmc.l2Hits + 1) }

  lemma ScanningParts(s: State, c: nat, i: nat, next: nat, last: nat, m: nat)
    requires Scanning(s, c, i, next, last) && m / 64 == last / 64 && m >= next
    ensures Good(s) && c < |s.cores| && last < next <= last + 9 && Ahead(s, c, last, m)
  {
    hide Proj, Good;
  }

  lemma ScanHits(s: State, op: Op, c: nat, i: nat, next: nat, last: nat)
    requires Scanning(s, c, i, next, last) && Accesses(op, c, next) && next / 64 == last / 64 && next <= last + 8
    requires op.Fits(|s.cores|) && Step(s, op).Done? && L2WayOf(s, next) < NUM_L2_WAYS
    requires var s' := Step(s, op).value.0;
             Good(s') && |s'.cores| == |s.cores| && |s'.mem| == |s.mem| && s'.cores[c].pf == s.cores[c].pf
    ensures Scanning(Step(s, op).value.0, c, i, next + 1, last)
  {
    hide Good, Proj, Step, L2WayOf, StreamLines, Fetchable;
    var s' := Step(s, op).value.0;
    forall m: nat | m / 64 == last / 64 && m >= next + 1 ensures Ahead(s', c, last, m) {
      StepBrings(s, op, m);
      assert Ahead(s, c, last, m);
    }
  }

  lemma ScanMisses(s: State, op: Op, c: nat, i: nat, last: nat, f: nat)
    requires Scanning(s, c, i, last + 9, last) && Accesses(op, c, last + 9) && (last + 9) / 64 == last / 64
    requires op.Fits(|s.cores|) && Step(s, op).Done? && L2WayOf(s, last + 9) == NUM_L2_WAYS
    requires InMemory(s.mem, last + 9)
    requires var s' := Step(s, op).value.0;
             && Good(s') && |s'.cores| == |s.cores| && |s'.mem| == |s.mem|
             && Serves(s.cores[c].pf, s'.cores[c].pf, last + 9, |s.mem|, f)
    ensures Scanning(Step(s, op).value.0, c, i, last + 10, last + 9)
  {
    hide Inv, Proj, Step, L2WayOf, StreamLines, Windowed;
    var s', n := Step(s, op).value.0, last + 9;
    var pf := s.cores[c].pf;
    assert Fetchable(last + 8, last, |s.mem|);
    assert StreamMatches(pf.streams[i], 64 * n);
    assert f == i && MatchFrom(pf.streams, 64 * n, 0) == i;
    assert From(pf.streams[i], n) == last + 8 && Heading(pf.streams[i], n) == 1;
    forall m: nat | m / 64 == n / 64 && m >= n + 1 ensures Ahead(s', c, n, m) {
      StepBrings(s, op, m);
      assert Ahead(s, c, last, m);
      StreamAsks(s, c, n, m);
    }
  }

  lemma AheadOfTwo(s: State, op1: Op, op2: Op, c: nat, a: nat, m: nat)
    requires Cold(s, c) && Accesses(op1, c, a) && Accesses(op2, c, a + 1) && (a + 1) / 64 == a / 64
    requires op1.Fits(|s.cores|) && op2.Fits(|s.cores|) && Step(s, op1).Done? && Step(Step(s, op1).value.0, op2).Done?
    requires m / 64 == (a + 1) / 64 && m >= a + 2 && Good(Step(s, op1).value.0)
    ensures Ahead(Step(Step(s, op1).value.0, op2).value.0, c, a + 1, m)
  {
    hide Good, Proj, Step, L2WayOf, Prefetched;
    StepRefinesFlat(s, op1);
    StepRefinesFlat(Step(s, op1).value.0, op2);
    TwoAccesses(s, op1, op2, c, a, a + 1, m);
    StepBrings(s, op1, m);
    StepBrings(Step(s, op1).value.0, op2, m);
    ColdNowhere(s, c, m);
  }

  /** The two accesses that start a forward scan. */
  lemma ScanStarts(s: State, op1: Op, op2: Op, c: nat, a: nat) returns (i: nat)
    requires Cold(s, c) && Accesses(op1, c, a) && Accesses(op2, c, a + 1) && (a + 1) / 64 == a / 64
    requires op1.Fits(|s.cores|) && op2.Fits(|s.cores|) && Step(s, op1).Done? && Step(Step(s, op1).value.0, op2).Done?
    ensures var s2 := Step(Step(s, op1).value.0, op2).value.0;
            && |s2.cores| == |s.cores| && Scanning(s2, c, i, a + 2, a + 1)
            && s2.cores[c].pmc == Fetched(Fetched(s.cores[c].pmc))
  {
    hide Inv, Windowed, Proj, Step, L2WayOf, L1WayOf, BurstLines, StreamLines, Coherent, Ahead;
    var s1 := Step(s, op1).value.0;
    var s2 := Step(s1, op2).value.0;
    i := FirstAccess(s, op1, c, a);
    SecondAccess(s1, op2, c, a, a + 1, i);
    var f1 := StepCounts(s, op1);
    var f2 := StepCounts(s1, op2);
    StepRefinesFlat(s1, op2);
    MissedBoth(s, s1, c, a);
    assert f2 == i;
    forall m: nat | m / 64 == (a + 1) / 64 && m >= a + 2 ensures Ahead(s2, c, a + 1, m) {
      AheadOfTwo(s, op1, op2, c, a, m);
    }
  }

  lemma ColdNowhere(s: State, c: nat, m: nat)
    requires Cold(s, c)
    ensures forall b: nat :: !Holds(Proj(s, m).d, b) && !Holds(Proj(s, m).i, b)
  {
    hide Proj, Inv;
    UncachedNowhere(s, m);
  }

  lemma MissedBoth(s: State, s1: State, c: nat, a: nat)
    requires Good(s) && Good(s1) && c < |s.cores| == |s1.cores|
    requires Proj(s, a).l2.NotInL2? && Proj(s1, a + 1).l2.NotInL2?
    ensures L1WayOf(s, c, false, a) == NUM_L1_WAYS == L1WayOf(s1, c, false, a + 1)
    ensures L2WayOf(s, a) == NUM_L2_WAYS == L2WayOf(s1, a + 1)
  {
    hide Inv, Proj, L1WayOf, L2WayOf;
    L2WayProj(s, a);
    L2WayProj(s1, a + 1);
    Calls.NotInL1(s, c, false, a);
    Calls.NotInL1(s1, c, false, a + 1);
  }

  /** Of the first k accesses of a scan: the first two and every ninth from then on. */
  function Fetches(k: nat): nat { if k < 2 then k else 2 + (k - 2) / 9 }

  /** The accesses go through lines a, a + 1, ..., all on one page. */
  predicate Forwards(ops: seq<Op>, c: nat, a: nat) {
    && (forall j: nat :: j < |ops| ==> Accesses(ops[j], c, a + j))
    && (ops != [] ==> (a + |ops| - 1) / 64 == a / 64)
  }

  lemma Later(ops: seq<Op>, c: nat, a: nat)
    requires Forwards(ops, c, a) && ops != []
    ensures Accesses(ops[0], c, a) && Forwards(ops[1..], c, a + 1)
  {
    forall j: nat | j < |ops[1..]| ensures Accesses(ops[1..][j], c, a + 1 + j) {
      assert Accesses(ops[j + 1], c, a + (j + 1));
    }
    assert Accesses(ops[0], c, a + 0);
  }

  lemma {:induction false} ScanRest(s: State, c: nat, i: nat, a: nat, k: nat, ops: seq<Op>)
    requires k >= 2 && Scanning(s, c, i, a + k, a + 1 + 9 * ((k - 2) / 9)) && (a + 1) / 64 == (a + k - 1) / 64
    requires Forwards(ops, c, a + k) && (ops != [] ==> (a + k) / 64 == a / 64 == (a + 1) / 64)
    requires AllFit(ops, |s.cores|) && Run(s, ops).Done?
    ensures var pmc, pmc' := s.cores[c].pmc, Run(s, ops).value.0.cores[c].pmc;
            && pmc'.memFetches == pmc.memFetches + Fetches(k + |ops|) - Fetches(k)
            && pmc'.l2Hits == pmc.l2Hits + |ops| - (Fetches(k + |ops|) - Fetches(k))
            && pmc'.l1dHits == pmc.l1dHits && pmc'.l1iHits == pmc.l1iHits
    decreases |ops|
  {
    hide Scanning, Step, Forwards, Accesses;
    if ops == [] {
    } else {
      var last := a + 1 + 9 * ((k - 2) / 9);
      Ninth(a, k);
      Later(ops, c, a + k);
      ScanStep(s, ops[0], c, i, a + k, last);
      var s1 := Step(s, ops[0]).value.0;
      OnThePage(ops, c, a, k);
      ScanRest(s1, c, i, a, k + 1, ops[1..]);
    }
  }

  /** Where the last miss was, and whether the next access is one. */
  lemma Ninth(a: nat, k: nat)
    requires k >= 2 && (a + k) / 64 == a / 64
    ensures var last := a + 1 + 9 * ((k - 2) / 9);
            && a + 1 + 9 * ((k - 1) / 9) == (if a + k == last + 9 then a + k else last)
            && Fetches(k + 1) == Fetches(k) + (if a + k == last + 9 then 1 else 0)
            && (a + k) / 64 == last / 64
  {
  }

  lemma OnThePage(ops: seq<Op>, c: nat, a: nat, k: nat)
    requires Forwards(ops, c, a + k) && ops != [] && (a + k) / 64 == a / 64
    ensures ops[1..] != [] ==> (a + k + 1) / 64 == a / 64
  {
  }

  lemma FirstTwo(ops: seq<Op>, c: nat, a: nat)
    requires Forwards(ops, c, a) && |ops| >= 2
    ensures Accesses(ops[0], c, a) && Accesses(ops[1], c, a + 1) && (a + 1) / 64 == a / 64
    ensures Forwards(ops[2..], c, a + 2) && (ops[2..] != [] ==> (a + 2) / 64 == a / 64)
  {
    hide Accesses;
    Later(ops, c, a);
    Later(ops[1..], c, a + 1);
    assert ops[1..][0] == ops[1] && ops[1..][1..] == ops[2..];
  }

  lemma RunTwo(s: State, ops: seq<Op>)
    requires AllFit(ops, |s.cores|) && |ops| >= 2 && Run(s, ops).Done?
    ensures ops[0].Fits(|s.cores|) && Step(s, ops[0]).Done?
    ensures var s1 := Step(s, ops[0]).value.0;
            && ops[1].Fits(|s1.cores|) && Step(s1, ops[1]).Done?
            && var s2 := Step(s1, ops[1]).value.0;
               && AllFit(ops[2..], |s2.cores|) && Run(s2, ops[2..]).Done?
               && Run(s, ops).value.0 == Run(s2, ops[2..]).value.0
  {
    hide Step;
    assert ops[1..][0] == ops[1] && ops[1..][1..] == ops[2..];
    assert Run(s, ops).value.0 == Run(Step(s, ops[0]).value.0, ops[1..]).value.0;
  }

  /** A scan of one page from a cold state, by any one core: the first two accesses and every
      ninth from then on go to memory, and all the others find their line in L2. */
  lemma ScanFetches(s: State, c: nat, a: nat, ops: seq<Op>)
    requires Cold(s, c) && Forwards(ops, c, a) && |ops| >= 2 && AllFit(ops, |s.cores|) && Run(s, ops).Done?
    ensures var pmc, pmc' := s.cores[c].pmc, Run(s, ops).value.0.cores[c].pmc;
            && pmc'.memFetches == pmc.memFetches + Fetches(|ops|)
            && pmc'.l2Hits == pmc.l2Hits + |ops| - Fetches(|ops|)
            && pmc'.l1dHits == pmc.l1dHits && pmc'.l1iHits == pmc.l1iHits
  {
    hide Scanning, Step, Accesses, Cold, Run, Forwards, AllFit;
    FirstTwo(ops, c, a);
    RunTwo(s, ops);
    var i := ScanStarts(s, ops[0], ops[1], c, a);
    ScanRest(Step(Step(s, ops[0]).value.0, ops[1]).value.0, c, i, a, 2, ops[2..]);
  }
}
