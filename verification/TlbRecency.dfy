/** Which pages stay in a TLB, and which leave it, over runs of translations. */
module TlbRecency {
  import opened Types
  import opened Paging
  import opened Frames
  import opened Mapping
  import opened Tlb
  import opened Replacement
  import opened System
  import M = Machine
  import Plru
  import V = Virtual

  function SlotsOf(t: TlbSet): Slots { Slots(t.vpn, t.valid, t.plru) }

  lemma SetShaped(t: TlbSet)
    ensures Shaped(SlotsOf(t), 2)
  {
    assert Plru.Pow2(2) == 4;
  }

  /** The page is in a set exactly when tlb_lookup finds it there. */
  lemma HitIsHas(t: TlbSet, vpn: nat)
    ensures Has(SlotsOf(t), vpn) <==> HitFrom(t, vpn, 0) < NUM_TLB_WAYS
  {
    var w := HitFrom(t, vpn, 0);
    if w < NUM_TLB_WAYS { assert HasAt(SlotsOf(t), vpn, w); }
    if Has(SlotsOf(t), vpn) {
      var v: nat :| HasAt(SlotsOf(t), vpn, v);
      assert Hit(t, vpn, v);
    }
  }

  lemma HitServes(t: TlbSet, vpn: nat)
    requires HitFrom(t, vpn, 0) < NUM_TLB_WAYS
    ensures Served(SlotsOf(t), SlotsOf(Lookup(t, vpn).0), vpn, HitFrom(t, vpn, 0))
  {
    HitIsHas(t, vpn);
  }

  lemma FillServes(t: TlbSet, vpn: nat, frame: nat) returns (w: nat)
    requires HitFrom(t, vpn, 0) == NUM_TLB_WAYS
    ensures Served(SlotsOf(t), SlotsOf(Fill(t, vpn, frame)), vpn, w)
  {
    hide Plru.VictimFrom, Plru.UpdateFrom;
    HitIsHas(t, vpn);
    var free := UnusedFrom(t.valid, 0);
    w := if free == NUM_TLB_WAYS then Plru.Victim(t.plru) else free;
  }

  /** A translation that succeeds serves its page in the page's own set. */
  ghost predicate Serves(tlb: TlbArray, tlb': TlbArray, vpn: nat) {
    && |tlb'| == |tlb|
    && (exists w: nat :: Served(SlotsOf(tlb[SetOf(tlb, vpn)]), SlotsOf(tlb'[SetOf(tlb, vpn)]), vpn, w))
    && forall i: nat :: i < |tlb| && i != SetOf(tlb, vpn) ==> tlb'[i] == tlb[i]
  }

  lemma FillInServes(tlb: TlbArray, vpn: nat, frame: nat)
    requires !Holds(tlb, vpn)
    ensures Serves(tlb, FillIn(tlb, vpn, frame), vpn)
  {
    hide Served, HitFrom;
    var i := SetOf(tlb, vpn);
    var w := FillServes(tlb[i], vpn, frame);
    assert FillIn(tlb, vpn, frame)[i] == Fill(tlb[i], vpn, frame);
    assert Served(SlotsOf(tlb[i]), SlotsOf(FillIn(tlb, vpn, frame)[i]), vpn, w);
  }

  /** tlb_lookup serves a page that is held, and changes nothing otherwise. */
  lemma LookupServes(tlb: TlbArray, vpn: nat)
    ensures LookupIn(tlb, vpn).1.Some? == Holds(tlb, vpn)
    ensures if Holds(tlb, vpn) then Serves(tlb, LookupIn(tlb, vpn).0, vpn) else LookupIn(tlb, vpn).0 == tlb
  {
    hide Served, HitFrom;
    var i := SetOf(tlb, vpn);
    if Holds(tlb, vpn) {
      HitServes(tlb[i], vpn);
      assert LookupIn(tlb, vpn).0[i] == Lookup(tlb[i], vpn).0;
      assert Served(SlotsOf(tlb[i]), SlotsOf(LookupIn(tlb, vpn).0[i]), vpn, HitFrom(tlb[i], vpn, 0));
    }
  }

  lemma TranslateServes(tlb: TlbArray, root: Root, mem: seq<byte>, va: nat)
    ensures var (tlb', pa) := Translate(tlb, root, mem, va);
            if pa.Some? then Serves(tlb, tlb', va / 4096) else tlb' == tlb
  {
    hide Serves, LookupIn, FillIn, Holds, PageWalk;
    LookupServes(tlb, va / 4096);
    var pa := PageWalk(root, mem, va);
    if pa.Some? && !Holds(tlb, va / 4096) { FillInServes(tlb, va / 4096, ToFrame(pa.value)); }
  }

  /** With two levels, the second is asked only when the first misses. */
  lemma Translate2Serves(l1: TlbArray, l2: TlbArray, root: Root, mem: seq<byte>, va: nat)
    ensures var (a, b, pa) := Translate2(l1, l2, root, mem, va);
            var u := va / 4096;
            && (if pa.Some? then Serves(l1, a, u) else a == l1)
            && (if pa.Some? && !Holds(l1, u) then Serves(l2, b, u) else b == l2)
  {
    hide Serves, LookupIn, FillIn, Holds, PageWalk;
    var u := va / 4096;
    LookupServes(l1, u);
    LookupServes(l2, u);
    var hit2, pa := LookupIn(l2, u).1, PageWalk(root, mem, va);
    if !Holds(l1, u) {
      if hit2.Some? { FillInServes(l1, u, hit2.value); }
      else if pa.Some? {
        FillInServes(l1, u, ToFrame(pa.value));
        FillInServes(l2, u, ToFrame(pa.value));
      }
    }
  }

  // ---------------------------------------------------------------------------
  // Recently translated pages stay
  // ---------------------------------------------------------------------------

  /** Page u is held, and at most j translations of other pages of its set are behind it. */
  ghost predicate Fresh(tlb: TlbArray, u: nat, j: nat) {
    exists w: nat :: HasAt(SlotsOf(tlb[SetOf(tlb, u)]), u, w) && Shielded(SlotsOf(tlb[SetOf(tlb, u)]), w, j)
  }

  lemma FreshIsHeld(tlb: TlbArray, u: nat, j: nat)
    requires Fresh(tlb, u, j)
    ensures Holds(tlb, u)
  {
    HitIsHas(tlb[SetOf(tlb, u)], u);
  }

  lemma ServedIsFresh(tlb: TlbArray, tlb': TlbArray, u: nat)
    requires Serves(tlb, tlb', u)
    ensures Fresh(tlb', u, 0)
  {
    hide Served, Shielded;
    var i := SetOf(tlb, u);
    var w: nat :| Served(SlotsOf(tlb[i]), SlotsOf(tlb'[i]), u, w);
    SetShaped(tlb[i]);
    ServedIsShielded(SlotsOf(tlb[i]), SlotsOf(tlb'[i]), u, w, 2);
    assert SetOf(tlb', u) == i && HasAt(SlotsOf(tlb'[i]), u, w) && Shielded(SlotsOf(tlb'[i]), w, 0);
  }

  predicate Competes(sets: nat, v: nat, u: nat)
    requires sets > 0
  {
    v != u && v % sets == u % sets
  }

  lemma ServingKeepsFresh(tlb: TlbArray, tlb': TlbArray, v: nat, u: nat, j: nat)
    requires Serves(tlb, tlb', v) && Fresh(tlb, u, j) && (Competes(|tlb|, v, u) ==> j < 2)
    ensures Fresh(tlb', u, if Competes(|tlb|, v, u) then j + 1 else j)
  {
    hide Served, Shielded;
    var i := SetOf(tlb, u);
    assert SetOf(tlb', u) == i;
    if v == u {
      ServedIsFresh(tlb, tlb', u);
      FreshLonger(tlb', u, 0, j);
    } else if SetOf(tlb, v) == i {
      var w: nat :| HasAt(SlotsOf(tlb[i]), u, w) && Shielded(SlotsOf(tlb[i]), w, j);
      var x: nat :| Served(SlotsOf(tlb[i]), SlotsOf(tlb'[i]), v, x);
      SetShaped(tlb[i]);
      ServedShields(SlotsOf(tlb[i]), SlotsOf(tlb'[i]), v, x, u, w, j, 2);
      assert HasAt(SlotsOf(tlb'[i]), u, w) && Shielded(SlotsOf(tlb'[i]), w, j + 1);
    } else {
      var w: nat :| HasAt(SlotsOf(tlb[i]), u, w) && Shielded(SlotsOf(tlb[i]), w, j);
      assert HasAt(SlotsOf(tlb'[i]), u, w) && Shielded(SlotsOf(tlb'[i]), w, j);
    }
  }

  lemma FreshLonger(tlb: TlbArray, u: nat, j: nat, k: nat)
    requires Fresh(tlb, u, j) && j <= k
    ensures Fresh(tlb, u, k)
  {
    hide SlotsOf;
    var t := SlotsOf(tlb[SetOf(tlb, u)]);
    var w: nat :| HasAt(t, u, w) && Shielded(t, w, j);
    assert HasAt(t, u, w) && Shielded(t, w, k);
  }

  // ---------------------------------------------------------------------------
  // Over runs of the whole machine
  // ---------------------------------------------------------------------------

  datatype Level = FirstData | SecondData | Code

  /** One of a core's TLBs. */
  function Pick(t: CoreTlbs, level: Level): TlbArray {
    match level
    case FirstData => t.l1d
    case SecondData => t.l2d
    case Code => t.itlb
  }

  /** An access of core c that may go to that TLB. */
  predicate Asks(call: Call, c: nat, level: Level) {
    call.Access? && call.core == c && (level == Code <==> call.kind.Fetching?)
  }

  /** One call that is not a process switch: of core c's TLBs it changes at most those it
      asks, and serves its page there. */
  lemma StepServes(y: System, call: Call, c: nat, level: Level)
    requires Fits(y, call) && c < |y.tlbs| && !call.Switch? && Step(y, call).Done?
    ensures var (y', answer) := Step(y, call).value;
            var t, t' := Pick(y.tlbs[c], level), Pick(y'.tlbs[c], level);
            && (t' == t || (Asks(call, c, level) && Serves(t, t', call.va / 4096)))
            && (Asks(call, c, level) && answer.Got? && (level == SecondData ==> !Holds(y.tlbs[c].l1d, call.va / 4096))
                ==> Serves(t, t', call.va / 4096))
  {
    hide Serves, Translate, Translate2, M.Step, AllocAndMap, Holds;
    if call.Access? {
      var t, root, mem := y.tlbs[call.core], y.roots[y.active], y.caches.mem;
      TranslateServes(t.itlb, root, mem, call.va);
      Translate2Serves(t.l1d, t.l2d, root, mem, call.va);
    }
  }

  /** How many accesses of the run bring another page into the TLB set of page u. */
  function Rivals(calls: seq<Call>, c: nat, level: Level, sets: nat, u: nat): nat
    requires sets > 0
    decreases |calls|
  {
    if calls == [] then 0 else
    (if Asks(calls[0], c, level) && Competes(sets, calls[0].va / 4096, u) then 1 else 0)
    + Rivals(calls[1..], c, level, sets, u)
  }

  predicate NoSwitch(calls: seq<Call>) { forall i :: 0 <= i < |calls| ==> !calls[i].Switch? }

  lemma {:induction false} FreshThroughout(y: System, calls: seq<Call>, c: nat, level: Level, u: nat, j: nat)
    requires V.AllFit(y, calls) && NoSwitch(calls) && V.Run(y, calls).Done? && c < |y.tlbs|
    requires Fresh(Pick(y.tlbs[c], level), u, j)
    requires j + Rivals(calls, c, level, |Pick(y.tlbs[c], level)|, u) <= 2
    ensures var y' := V.Run(y, calls).value.0; c < |y'.tlbs| && Holds(Pick(y'.tlbs[c], level), u)
    decreases |calls|
  {
    hide Fresh, Step, Fits, Serves, Holds;
    if calls == [] {
      FreshIsHeld(Pick(y.tlbs[c], level), u, j);
    } else {
      V.FitsLater(y, calls);
      assert !calls[0].Switch? && Fits(y, calls[0]);
      StepServes(y, calls[0], c, level);
      var y1 := Step(y, calls[0]).value.0;
      var t, t1 := Pick(y.tlbs[c], level), Pick(y1.tlbs[c], level);
      var k := if Asks(calls[0], c, level) && Competes(|t|, calls[0].va / 4096, u) then j + 1 else j;
      if t1 == t {
        FreshLonger(t1, u, j, k);
      } else {
        SameSize(t, t1, calls[0].va / 4096);
        ServingKeepsFresh(t, t1, calls[0].va / 4096, u, j);
      }
      FreshThroughout(y1, calls[1..], c, level, u, k);
    }
  }

  lemma SameSize(t: TlbArray, t': TlbArray, u: nat)
    requires Serves(t, t', u)
    ensures |t'| == |t|
  {
  }

  /** A page that core c's access just translated is still in the TLB after any run without a
      process switch in which c makes at most two accesses of other pages of its set. */
  lemma RecentPageStays(y: System, call: Call, calls: seq<Call>, level: Level)
    requires Fits(y, call) && Step(y, call).Done? && Step(y, call).value.1.Got? && Asks(call, call.core, level)
    requires level == SecondData ==> !Holds(y.tlbs[call.core].l1d, call.va / 4096)
    requires var y1 := Step(y, call).value.0;
             && V.AllFit(y1, calls) && NoSwitch(calls) && V.Run(y1, calls).Done?
             && Rivals(calls, call.core, level, |Pick(y1.tlbs[call.core], level)|, call.va / 4096) <= 2
    ensures var y' := V.Run(Step(y, call).value.0, calls).value.0;
            call.core < |y'.tlbs| && Holds(Pick(y'.tlbs[call.core], level), call.va / 4096)
  {
    hide Fresh, Step, Holds, V.Run, Serves;
    StepServes(y, call, call.core, level);
    var y1 := Step(y, call).value.0;
    ServedIsFresh(Pick(y.tlbs[call.core], level), Pick(y1.tlbs[call.core], level), call.va / 4096);
    FreshThroughout(y1, calls, call.core, level, call.va / 4096, 0);
  }

  // ---------------------------------------------------------------------------
  // Misses in a full set
  // ---------------------------------------------------------------------------

  /** Translation j of the chain is of a page of set i that is not held. */
  ghost predicate MissedPage(chain: seq<TlbArray>, pages: seq<nat>, i: nat, j: nat) {
    && j < |pages| && j + 1 < |chain| && SetOf(chain[j], pages[j]) == i
    && !Holds(chain[j], pages[j]) && Serves(chain[j], chain[j + 1], pages[j])
  }

  ghost predicate SetFull(tlb: TlbArray, i: nat) {
    && i < |tlb| && InOwnSets(tlb) && forall w: nat :: w < NUM_TLB_WAYS ==> tlb[i].valid[w]
  }

  /** Translation j drops page u. */
  predicate DropsPage(chain: seq<TlbArray>, j: nat, u: nat)
    requires j + 1 < |chain|
  {
    Holds(chain[j], u) && !Holds(chain[j + 1], u)
  }

  function SlotChain(chain: seq<TlbArray>, i: nat): seq<Slots>
    requires forall j: nat :: j < |chain| ==> i < |chain[j]|
  {
    seq(|chain|, j requires 0 <= j < |chain| => SlotsOf(chain[j][i]))
  }

  /** Four translations of pages that are not held, in one full set, replace each of its
      four entries exactly once. */
  lemma FourMissesReplaceEachOnce(chain: seq<TlbArray>, pages: seq<nat>, i: nat, w: nat)
    requires |pages| == 4 && |chain| == 5 && SetFull(chain[0], i) && w < NUM_TLB_WAYS
    requires forall j: nat :: j < 4 ==> MissedPage(chain, pages, i, j)
    ensures exists j: nat :: j < 4 && DropsPage(chain, j, chain[0][i].vpn[w])
                             && forall k: nat :: k < 4 && DropsPage(chain, k, chain[0][i].vpn[w]) ==> k == j
  {
    hide Served, HitFrom;
    assert forall j: nat :: j < 4 ==> MissedPage(chain, pages, i, j);
    SameSizes(chain, pages, i);
    var slots, u := SlotChain(chain, i), chain[0][i].vpn[w];
    SetShaped(chain[0][i]);
    assert Plru.Pow2(2) == 4;
    assert Entry(chain[0], i, w);
    forall j: nat | j < 4 ensures Misses(slots, pages, j) {
      assert MissedPage(chain, pages, i, j);
      HitIsHas(chain[j][i], pages[j]);
    }
    assert Distinct(slots[0]) by { OwnIsDistinct(chain[0], i); }
    forall j: nat | j < 5 ensures Has(slots[j], u) == Holds(chain[j], u) { HitIsHas(chain[j][i], u); }
    EachLeavesOnce(slots, pages, 2, w);
    var j: nat :| j < 4 && Leaves(slots, j, u) && forall k: nat :: k < 4 && Leaves(slots, k, u) ==> k == j;
    forall k: nat | k < 4 ensures DropsPage(chain, k, u) == Leaves(slots, k, u) {}
  }

  lemma SameSizes(chain: seq<TlbArray>, pages: seq<nat>, i: nat)
    requires |pages| == 4 && |chain| == 5 && i < |chain[0]|
    requires forall j: nat :: j < 4 ==> MissedPage(chain, pages, i, j)
    ensures forall j: nat :: j < 5 ==> |chain[j]| == |chain[0]|
  {
    hide Serves, Holds, SetOf;
    forall j: nat | j < 4 ensures |chain[j + 1]| == |chain[j]| {
      assert MissedPage(chain, pages, i, j);
      SameSize(chain[j], chain[j + 1], pages[j]);
    }
    assert |chain[0 + 1]| == |chain[0]| && |chain[1 + 1]| == |chain[1]|;
    assert |chain[2 + 1]| == |chain[2]| && |chain[3 + 1]| == |chain[3]|;
  }

  lemma OwnIsDistinct(tlb: TlbArray, i: nat)
    requires i < |tlb| && InOwnSets(tlb)
    ensures Distinct(SlotsOf(tlb[i]))
  {
    forall u, v: nat, w: nat | HasAt(SlotsOf(tlb[i]), u, v) && HasAt(SlotsOf(tlb[i]), u, w) ensures v == w {
      assert Entry(tlb, i, v) && Entry(tlb, i, w);
    }
  }
}
