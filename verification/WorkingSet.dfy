/** Runs whose pages fit L2: nothing is ever evicted from it, so nothing is ever lost. */
module WorkingSet {
  import opened Types
  import opened Coherence
  import opened Caches
  import opened Projection
  import opened Snoops
  import opened Flat
  import opened Prefetch
  import opened Losses
  import opened Machine
  import opened Runs
  import Plru

  /** Every line in L2 is on one of these pages. */
  ghost predicate Confined(s: State, pages: set<nat>) {
    forall m: nat :: Proj(s, m).l2.InL2? ==> m / 64 in pages
  }

  /** The pages that have a line in L2 set k, for every k with k / 64 == r. */
  function Rivals(pages: set<nat>, r: nat): set<nat> { set p | p in pages && p % 64 == r }

  /** No L2 set is asked to hold more lines than it has ways. */
  ghost predicate FitsL2(pages: set<nat>) {
    forall r: nat :: r < 64 ==> |Rivals(pages, r)| <= NUM_L2_WAYS
  }

  /** The pages of the lines in the first j ways of set k. */
  function HeldPages(l2: L2Set, k: nat, j: nat): set<nat>
    requires j <= NUM_L2_WAYS
    decreases j
  {
    if j == 0 then {} else HeldPages(l2, k, j - 1) + {l2.tag[j - 1] * 64 + k / 64}
  }

  lemma {:induction false} WayOfPage(l2: L2Set, k: nat, j: nat, q: nat) returns (w: nat)
    requires j <= NUM_L2_WAYS && q in HeldPages(l2, k, j)
    ensures w < j && q == l2.tag[w] * 64 + k / 64
    decreases j
  {
    w := j - 1;
    if q == l2.tag[w] * 64 + k / 64 {
    } else {
      w := WayOfPage(l2, k, j - 1, q);
    }
  }

  lemma TagsDiffer(l2: L2Set, v: nat, w: nat)
    requires UniqueTags(l2.tag, l2.state) && Valid(l2.state, v) && Valid(l2.state, w)
    ensures l2.tag[v] == l2.tag[w] ==> v == w
  {
  }

  /** A full set holds lines of as many pages as it has ways. */
  lemma {:induction false} HeldPagesDiffer(l2: L2Set, k: nat, j: nat)
    requires j <= NUM_L2_WAYS && UniqueTags(l2.tag, l2.state)
    requires AllValid(l2)
    ensures |HeldPages(l2, k, j)| == j
    decreases j
  {
    hide UniqueTags;
    if j == 0 {
    } else {
      HeldPagesDiffer(l2, k, j - 1);
      var last := l2.tag[j - 1] * 64 + k / 64;
      if last in HeldPages(l2, k, j - 1) {
        var w := WayOfPage(l2, k, j - 1, last);
        TagsDiffer(l2, w, j - 1);
        assert false;
      }
    }
  }

  /** A line in way w of line p's set, where p is in no way. */
  lemma RivalOf(s: State, pages: set<nat>, p: nat, w: nat)
    requires Placed(s) && Confined(s, pages) && L2WayOf(s, p) == NUM_L2_WAYS && Valid(s.l2[p % 4096].state, w)
    ensures var q := s.l2[p % 4096].tag[w] * 64 + p % 4096 / 64; q in Rivals(pages, p % 4096 / 64) && q != p / 64
  {
    hide Proj, Placed, L2WayOf;
    var k := p % 4096;
    var m := s.l2[k].tag[w] * 4096 + k;
    FullSetWay(s, k, w);
    PageOfWay(s.l2[k].tag[w], k);
    L2WayProj(s, m);
    if m / 64 == p / 64 { OneLinePerSet(m, p); }
  }

  /** Way w holds a line of another page that competes with p's. */
  predicate RivalWay(l2: L2Set, pages: set<nat>, p: nat, k: nat, w: nat)
    requires w < NUM_L2_WAYS
  {
    var q := l2.tag[w] * 64 + k / 64; q in Rivals(pages, k / 64) && q != p / 64
  }

  /** A full set of rivals of p is one page too many. */
  lemma FullOfRivals(l2: L2Set, pages: set<nat>, p: nat, k: nat)
    requires UniqueTags(l2.tag, l2.state) && AllValid(l2) && k == p % 4096 && p / 64 in pages
    requires forall w: nat :: w < NUM_L2_WAYS ==> RivalWay(l2, pages, p, k, w)
    ensures |Rivals(pages, k / 64)| > NUM_L2_WAYS
  {
    hide UniqueTags, Rivals, HeldPages;
    HeldPagesDiffer(l2, k, NUM_L2_WAYS);
    var held := HeldPages(l2, k, NUM_L2_WAYS);
    forall q | q in held ensures q in Rivals(pages, k / 64) && q != p / 64 {
      var w := WayOfPage(l2, k, NUM_L2_WAYS, q);
      assert RivalWay(l2, pages, p, k, w);
    }
    OneTooMany(held, pages, p, k / 64);
  }

  /** While a line of these pages is missing from L2, its set has a free way. */
  lemma NeverFull(s: State, pages: set<nat>, p: nat)
    requires Inv(s) && Confined(s, pages) && FitsL2(pages) && p / 64 in pages && L2WayOf(s, p) == NUM_L2_WAYS
    ensures !Drops(s, p % 4096)
  {
    hide Coherent, Proj, Plru.VictimFrom, L1Ok, Confined, L2WayOf, UniqueTags, Stale, Rivals;
    var k := p % 4096;
    var l2 := s.l2[k];
    assert L2Ok(l2, k, |s.mem|);
    if AllValid(l2) {
      forall w: nat | w < NUM_L2_WAYS ensures RivalWay(l2, pages, p, k, w) {
        RivalOf(s, pages, p, w);
      }
      FullOfRivals(l2, pages, p, k);
    }
  }

  lemma OneTooMany(held: set<nat>, pages: set<nat>, p: nat, r: nat)
    requires r == p % 4096 / 64 && p / 64 in pages && |held| == NUM_L2_WAYS
    requires forall q :: q in held ==> q in Rivals(pages, r) && q != p / 64
    ensures |Rivals(pages, r)| > NUM_L2_WAYS
  {
    assert p / 64 % 64 == r;
    SubsetSize(held + {p / 64}, Rivals(pages, r));
  }

  lemma PageOfWay(tag: nat, k: nat)
    requires k < 4096
    ensures (tag * 4096 + k) / 64 == tag * 64 + k / 64 && (tag * 64 + k / 64) % 64 == k / 64
  {
    assert tag * 4096 + k == 64 * (tag * 64 + k / 64) + k % 64;
  }

  lemma {:induction false} SubsetSize(a: set<nat>, b: set<nat>)
    requires a <= b
    ensures |a| <= |b|
    decreases a
  {
    if a == {} {
    } else {
      var x :| x in a;
      SubsetSize(a - {x}, b - {x});
    }
  }

  /** Such a call loses nothing and leaves L2 confined to the pages. */
  lemma ConfinedStep(s: State, op: Op, pages: set<nat>)
    requires Good(s) && Confined(s, pages) && FitsL2(pages) && op.Fits(|s.cores|) && op.pa / PAGE_SIZE in pages
    ensures !Loses(s, op)
    ensures Step(s, op).Done? ==> Confined(Step(s, op).value.0, pages)
  {
    hide Inv, Windowed, Coherent, Proj, Step, LineAfter, View, Stale, Drops, FitsL2;
    var n := op.pa / 64;
    assert n / 64 == op.pa / PAGE_SIZE;
    if L2WayOf(s, n) == NUM_L2_WAYS { NeverFull(s, pages, n); }
    StreamOnPage(s, op.core, n);
    assert OnPage(Prefetched(s, op), n);
    forall i | 0 <= i < |Prefetched(s, op)| ensures !LosesFor(s, Prefetched(s, op)[i]) {
      var q := Prefetched(s, op)[i];
      if L2WayOf(s, q) == NUM_L2_WAYS { NeverFull(s, pages, q); }
    }
    if Step(s, op).Done? {
      StepKeepsDemandedLine(s, op);
      Restamped(s, op.stamp);
    }
  }

  predicate AllOn(ops: seq<Op>, pages: set<nat>) { forall i :: 0 <= i < |ops| ==> ops[i].pa / PAGE_SIZE in pages }

  /** Any run of any cores whose pages fit L2 is a run of flat memory: whatever it shares,
      downgrades and prefetches, no call of it loses bytes. */
  lemma {:induction false} FittingRunLosesNothing(s: State, ops: seq<Op>, pages: set<nat>)
    requires Good(s) && Confined(s, pages) && FitsL2(pages) && AllFit(ops, |s.cores|) && AllOn(ops, pages)
    requires Run(s, ops).Done?
    ensures NeverLoses(s, ops) && Confined(Run(s, ops).value.0, pages)
    decreases |ops|
  {
    hide Good, Confined, FitsL2, Step, Loses;
    if ops == [] {
    } else {
      ConfinedStep(s, ops[0], pages);
      StepRefinesFlat(s, ops[0]);
      FittingRunLosesNothing(Step(s, ops[0]).value.0, ops[1..], pages);
    }
  }

  lemma FittingRunIsFlat(n: nat, mem: seq<byte>, ops: seq<Op>, pages: set<nat>)
    requires FitsL2(pages) && AllFit(ops, n) && AllOn(ops, pages) && Run(Init(n, mem), ops).Done?
    ensures InBounds(ops, |mem|)
    ensures var (s', outs) := Run(Init(n, mem), ops).value;
            s'.lossless && (Bytes(s'), outs) == FlatRun(mem, ops)
  {
    hide Run, Step, FlatStep, FitsL2, NeverLoses, Init, Bytes, Proj, FlatRun, AllFit, InBounds, Good;
    InitGood(n, mem);
    InitMemory(n, mem);
    InitClean(n, mem);
    CoresOfInit(n, mem);
    FittingRunLosesNothing(Init(n, mem), ops, pages);
    RunRefinesFlat(Init(n, mem), ops);
  }

  lemma CoresOfInit(n: nat, mem: seq<byte>)
    ensures |Init(n, mem).cores| == n
  {
  }

  /** Pages in a row, as many as L2 has room for: 1024, that is, 4 MB. */
  function Window(lo: nat, count: nat): set<nat> { set p: nat | p < lo + count && InWindow(p, lo) }

  predicate InWindow(p: nat, lo: nat) { lo <= p }

  lemma WindowFits(lo: nat, count: nat)
    requires count <= 64 * NUM_L2_WAYS
    ensures FitsL2(Window(lo, count))
  {
    forall r: nat | r < 64 ensures |Rivals(Window(lo, count), r)| <= NUM_L2_WAYS {
      FewRivals(lo, r, NUM_L2_WAYS);
      SubsetSize(Rivals(Window(lo, count), r), Rivals(Window(lo, 64 * NUM_L2_WAYS), r));
    }
  }

  lemma {:induction false} FewRivals(lo: nat, r: nat, j: nat)
    requires r < 64
    ensures |Rivals(Window(lo, 64 * j), r)| <= j
    decreases j
  {
    if j == 0 {
      assert Rivals(Window(lo, 0), r) == {};
    } else {
      FewRivals(lo, r, j - 1);
      var from := lo + 64 * (j - 1);
      var last := from + (r - from % 64) % 64;
      var fewer := Rivals(Window(lo, 64 * (j - 1)), r);
      assert Rivals(Window(lo, 64 * j), r) <= fewer + {last} by {
        forall p | p in Rivals(Window(lo, 64 * j), r) && p !in fewer ensures p == last { OneIn64(from, p, r); }
      }
      SubsetSize(Rivals(Window(lo, 64 * j), r), fewer + {last});
    }
  }

  lemma OneIn64(lo: nat, p: nat, r: nat)
    requires lo <= p < lo + 64 && p % 64 == r
    ensures p == lo + (r - lo % 64) % 64
  {
  }
}
