/** TLB lookup, fill and the two translate overloads (core.cpp, cpu.cpp), against page_walk. */
module Tlb {
  import opened Types
  import opened Paging
  import opened Frames
  import opened Mapping
  import Plru

  const NUM_TLB_WAYS: nat := 4
  const L1_DTLB_SETS: nat := 4
  const L2_DTLB_SETS: nat := 64
  const ITLB_SETS: nat := 32

  datatype TlbWays = TlbWays(vpn: seq<nat>, frame: seq<nat>, valid: seq<bool>, plru: seq<bool>)

  type TlbSet = t: TlbWays |
      |t.vpn| == |t.frame| == |t.valid| == NUM_TLB_WAYS && |t.plru| == NUM_TLB_WAYS - 1
    witness EmptyTlbSet()

  function EmptyTlbSet(): TlbWays {
    TlbWays(seq(NUM_TLB_WAYS, _ => 0), seq(NUM_TLB_WAYS, _ => 0), seq(NUM_TLB_WAYS, _ => false),
        seq(NUM_TLB_WAYS - 1, _ => false))
  }

  /** A TLB of any number of sets. */
  type TlbArray = a: seq<TlbSet> | |a| > 0 witness [EmptyTlbSet()]

  predicate Hit(t: TlbSet, vpn: nat, w: nat) { w < NUM_TLB_WAYS && t.valid[w] && t.vpn[w] == vpn }

  /** The loop of tlb_lookup from way w on. */
  function HitFrom(t: TlbSet, vpn: nat, w: nat): (r: nat)
    requires w <= NUM_TLB_WAYS
    ensures w <= r <= NUM_TLB_WAYS
    ensures r < NUM_TLB_WAYS ==> Hit(t, vpn, r)
    ensures forall v: nat :: w <= v < r ==> !Hit(t, vpn, v)
    decreases NUM_TLB_WAYS - w
  {
    if w == NUM_TLB_WAYS || Hit(t, vpn, w) then w else HitFrom(t, vpn, w + 1)
  }

  /** The first way from w on that is not valid. */
  function UnusedFrom(valid: seq<bool>, w: nat): (r: nat)
    requires w <= |valid|
    ensures w <= r <= |valid|
    ensures r < |valid| ==> !valid[r]
    ensures forall v: nat :: w <= v < r ==> valid[v]
    decreases |valid| - w
  {
    if w == |valid| || !valid[w] then w else UnusedFrom(valid, w + 1)
  }

  /** tlb_lookup: the set with the way touched, and the frame found. */
  function Lookup(t: TlbSet, vpn: nat): (TlbSet, Option<nat>) {
    var w := HitFrom(t, vpn, 0);
    if w == NUM_TLB_WAYS then (t, None) else (t.(plru := Plru.Update(t.plru, w)), Some(t.frame[w]))
  }

  /** tlb_fill */
  function Fill(t: TlbSet, vpn: nat, frame: nat): TlbSet {
    var free := UnusedFrom(t.valid, 0);
    var w := if free == NUM_TLB_WAYS then Plru.Victim(t.plru) else free;
    TlbWays(t.vpn[w := vpn], t.frame[w := frame], t.valid[w := true], Plru.Update(t.plru, w))
  }

  function SetOf(tlb: TlbArray, vpn: nat): (i: nat)
    ensures i < |tlb|
  {
    vpn % |tlb|
  }

  function LookupIn(tlb: TlbArray, vpn: nat): (r: (TlbArray, Option<nat>))
    ensures |r.0| == |tlb|
  {
    var (t, got) := Lookup(tlb[SetOf(tlb, vpn)], vpn);
    (tlb[SetOf(tlb, vpn) := t], got)
  }

  function FillIn(tlb: TlbArray, vpn: nat, frame: nat): (r: TlbArray)
    ensures |r| == |tlb|
  {
    tlb[SetOf(tlb, vpn) := Fill(tlb[SetOf(tlb, vpn)], vpn, frame)]
  }

  /** translate with one level, as cpu_fetch uses it; None is a page fault. */
  function Translate(tlb: TlbArray, root: Root, mem: seq<byte>, va: nat): (r: (TlbArray, Option<nat>))
    ensures |r.0| == |tlb|
  {
    var (tlb1, hit) := LookupIn(tlb, va / 4096);
    if hit.Some? then (tlb1, Some(ToAddress(hit.value, va % 4096))) else
    var pa := PageWalk(root, mem, va);
    if pa.Some? then (FillIn(tlb1, va / 4096, ToFrame(pa.value)), pa) else (tlb1, None)
  }

  /** translate with two levels, as cpu_read and cpu_write use it. */
  function Translate2(l1: TlbArray, l2: TlbArray, root: Root, mem: seq<byte>, va: nat)
    : (r: (TlbArray, TlbArray, Option<nat>))
    ensures |r.0| == |l1| && |r.1| == |l2|
  {
    var vpn := va / 4096;
    var (a, hit1) := LookupIn(l1, vpn);
    if hit1.Some? then (a, l2, Some(ToAddress(hit1.value, va % 4096))) else
    var (b, hit2) := LookupIn(l2, vpn);
    if hit2.Some? then (FillIn(a, vpn, hit2.value), b, Some(ToAddress(hit2.value, va % 4096))) else
    var pa := PageWalk(root, mem, va);
    if pa.Some? then (FillIn(a, vpn, ToFrame(pa.value)), FillIn(b, vpn, ToFrame(pa.value)), pa) else (a, b, None)
  }

  /** The invalidation loops of tlb_flush. */
  function Flush(tlb: TlbArray): (r: TlbArray)
    ensures |r| == |tlb|
  {
    seq(|tlb|, i requires 0 <= i < |tlb| => tlb[i].(valid := seq(NUM_TLB_WAYS, _ => false)))
  }

  // ---------------------------------------------------------------------------
  // What a TLB may hold
  // ---------------------------------------------------------------------------

  /** The entry for page vpn, wherever it is. */
  predicate Entry(tlb: TlbArray, i: nat, w: nat) { i < |tlb| && w < NUM_TLB_WAYS && tlb[i].valid[w] }

  /** The frame that page_walk gives for a page. */
  function FrameOf(root: Root, mem: seq<byte>, vpn: nat): Option<nat> {
    match Walk(root, mem, vpn) case None => None case Some(pa) => Some(pa / 4096)
  }

  /** Each valid entry agrees with the walk. */
  ghost predicate Agrees(tlb: TlbArray, root: Root, mem: seq<byte>) {
    forall i: nat, w: nat :: Entry(tlb, i, w) ==> FrameOf(root, mem, tlb[i].vpn[w]) == Some(tlb[i].frame[w])
  }

  /** Each valid entry sits in its own set, and no page has two. */
  ghost predicate InOwnSets(tlb: TlbArray) {
    && (forall i: nat, w: nat :: Entry(tlb, i, w) ==> SetOf(tlb, tlb[i].vpn[w]) == i)
    && (forall i: nat, v: nat, w: nat :: Entry(tlb, i, v) && Entry(tlb, i, w) && tlb[i].vpn[v] == tlb[i].vpn[w] ==>
        v == w)
  }

  ghost predicate TlbOk(tlb: TlbArray, root: Root, mem: seq<byte>) { InOwnSets(tlb) && Agrees(tlb, root, mem) }

  predicate Holds(tlb: TlbArray, vpn: nat) { HitFrom(tlb[SetOf(tlb, vpn)], vpn, 0) < NUM_TLB_WAYS }

  lemma LookupKeeps(tlb: TlbArray, root: Root, mem: seq<byte>, vpn: nat)
    requires TlbOk(tlb, root, mem)
    ensures var (tlb', got) := LookupIn(tlb, vpn);
            && TlbOk(tlb', root, mem) && got.Some? == Holds(tlb, vpn)
            && (got.Some? ==> FrameOf(root, mem, vpn) == got)
            && forall u :: Holds(tlb', u) == Holds(tlb, u)
  {
    hide FrameOf;
    var (tlb', got) := LookupIn(tlb, vpn);
    var i := SetOf(tlb, vpn);
    var w := HitFrom(tlb[i], vpn, 0);
    if w < NUM_TLB_WAYS { assert Entry(tlb, i, w); }
    forall j: nat, v: nat ensures Entry(tlb', j, v) == Entry(tlb, j, v) {}
    forall u ensures Holds(tlb', u) == Holds(tlb, u) { SameHits(tlb[SetOf(tlb, u)], tlb'[SetOf(tlb, u)], u, 0); }
  }

  lemma {:induction false} SameHits(t: TlbSet, t': TlbSet, vpn: nat, w: nat)
    requires t.vpn == t'.vpn && t.valid == t'.valid && w <= NUM_TLB_WAYS
    ensures HitFrom(t, vpn, w) == HitFrom(t', vpn, w)
    decreases NUM_TLB_WAYS - w
  {
    if w >= NUM_TLB_WAYS {
    } else {
      SameHits(t, t', vpn, w + 1);
    }
  }

  lemma FillKeeps(tlb: TlbArray, root: Root, mem: seq<byte>, vpn: nat, frame: nat)
    requires TlbOk(tlb, root, mem) && !Holds(tlb, vpn) && FrameOf(root, mem, vpn) == Some(frame)
    ensures TlbOk(FillIn(tlb, vpn, frame), root, mem) && Holds(FillIn(tlb, vpn, frame), vpn)
  {
    hide FrameOf;
    var tlb', i := FillIn(tlb, vpn, frame), SetOf(tlb, vpn);
    var free := UnusedFrom(tlb[i].valid, 0);
    var w := if free == NUM_TLB_WAYS then Plru.Victim(tlb[i].plru) else free;
    forall j: nat, v: nat | Entry(tlb', j, v) && !(j == i && v == w)
      ensures Entry(tlb, j, v) && tlb'[j].vpn[v] == tlb[j].vpn[v] && tlb'[j].frame[v] == tlb[j].frame[v]
      ensures j == i ==> tlb[j].vpn[v] != vpn
    {
      assert j == i ==> !Hit(tlb[i], vpn, v);
    }
    assert Hit(tlb'[i], vpn, w);
  }

  /** A translation asked for twice is held the second time. */
  lemma TranslateKeeps(tlb: TlbArray, root: Root, mem: seq<byte>, va: nat)
    requires TlbOk(tlb, root, mem)
    ensures var (tlb', pa) := Translate(tlb, root, mem, va);
            && TlbOk(tlb', root, mem) && Holds(tlb', va / 4096) == pa.Some?
            && (pa.Some? <==> Walk(root, mem, va / 4096).Some?)
  {
    hide TlbOk, Walk, LookupIn, FillIn, Holds, OrOffset;
    var vpn := va / 4096;
    LookupKeeps(tlb, root, mem, vpn);
    var (tlb1, hit) := LookupIn(tlb, vpn);
    var pa := Walk(root, mem, vpn);
    if hit.None? && pa.Some? {
      OrOffsetIs(pa.value, va % 4096);
      FillKeeps(tlb1, root, mem, vpn, pa.value / 4096);
    }
  }

  lemma Translate2Keeps(l1: TlbArray, l2: TlbArray, root: Root, mem: seq<byte>, va: nat)
    requires TlbOk(l1, root, mem) && TlbOk(l2, root, mem)
    ensures var (a, b, pa) := Translate2(l1, l2, root, mem, va);
            && TlbOk(a, root, mem) && TlbOk(b, root, mem)
            && (pa.Some? <==> Walk(root, mem, va / 4096).Some?) && Holds(a, va / 4096) == pa.Some?
  {
    hide TlbOk, Walk, LookupIn, FillIn, Holds, OrOffset;
    var vpn := va / 4096;
    LookupKeeps(l1, root, mem, vpn);
    LookupKeeps(l2, root, mem, vpn);
    var (a, hit1) := LookupIn(l1, vpn);
    var (b, hit2) := LookupIn(l2, vpn);
    var pa := Walk(root, mem, vpn);
    if hit1.None? && hit2.Some? {
      FillKeeps(a, root, mem, vpn, hit2.value);
    } else if hit1.None? && pa.Some? {
      OrOffsetIs(pa.value, va % 4096);
      FillKeeps(a, root, mem, vpn, pa.value / 4096);
      FillKeeps(b, root, mem, vpn, pa.value / 4096);
    }
  }

  predicate AlignedLeaf(root: Root, mem: seq<byte>, vpn: nat) {
    Walk(root, mem, vpn).Some? ==> Walk(root, mem, vpn).value % 4096 == 0
  }

  /** page_walk at offset o of page vpn gives pa. */
  predicate WalksTo(root: Root, mem: seq<byte>, vpn: nat, o: nat, pa: Option<nat>) {
    PageWalk(root, mem, vpn * 4096 + o) == pa
  }

  /** Adding the offset to the frame is what page_walk does, for every offset, exactly
      when the leaf address is page-aligned. */
  lemma FrameIsWalk(root: Root, mem: seq<byte>, vpn: nat)
    requires Walk(root, mem, vpn).Some?
    ensures (forall o: nat :: o < 4096 ==>
               WalksTo(root, mem, vpn, o, Some(ToAddress(FrameOf(root, mem, vpn).value, o))))
            <==> AlignedLeaf(root, mem, vpn)
  {
    hide Walk, OrOffset;
    var pa := Walk(root, mem, vpn).value;
    OrOffsetIs(pa, 0);
    forall o: nat | o < 4096
      ensures PageWalk(root, mem, vpn * 4096 + o) == Some(OrOffset(pa, o))
    {
      PageAndOffset(vpn, o);
    }
    if !AlignedLeaf(root, mem, vpn) {
      var o: nat :| o < 4096 && OrOffset(pa, o) != pa / 4096 * 4096 + o;
      assert !WalksTo(root, mem, vpn, o, Some(ToAddress(FrameOf(root, mem, vpn).value, o)));
    }
  }

  lemma PageAndOffset(vpn: nat, o: nat)
    requires o < 4096
    ensures (vpn * 4096 + o) / 4096 == vpn && (vpn * 4096 + o) % 4096 == o
  {
  }

  /** translate at offset o of page vpn. */
  function At(tlb: TlbArray, root: Root, mem: seq<byte>, vpn: nat, o: nat): Option<nat> {
    Translate(tlb, root, mem, vpn * 4096 + o).1
  }

  function At2(l1: TlbArray, l2: TlbArray, root: Root, mem: seq<byte>, vpn: nat, o: nat): Option<nat> {
    Translate2(l1, l2, root, mem, vpn * 4096 + o).2
  }

  /** Translating through the TLB is walking the tables: at every offset of a page
      exactly when the TLB does not hold the page or its leaf is page-aligned. */
  lemma TranslateIsWalk(tlb: TlbArray, root: Root, mem: seq<byte>, vpn: nat)
    requires TlbOk(tlb, root, mem)
    ensures (forall o: nat :: o < 4096 ==> WalksTo(root, mem, vpn, o, At(tlb, root, mem, vpn, o)))
            <==> !Holds(tlb, vpn) || AlignedLeaf(root, mem, vpn)
  {
    hide TlbOk, Walk, LookupIn, FillIn, Holds, PageWalk, AlignedLeaf;
    LookupKeeps(tlb, root, mem, vpn);
    var hit := LookupIn(tlb, vpn).1;
    forall o: nat | o < 4096
      ensures At(tlb, root, mem, vpn, o)
           == if hit.Some? then Some(ToAddress(hit.value, o)) else PageWalk(root, mem, vpn * 4096 + o)
    {
      PageAndOffset(vpn, o);
    }
    if hit.Some? {
      FrameIsWalk(root, mem, vpn);
      assert forall o: nat :: o < 4096 ==>
        WalksTo(root, mem, vpn, o, At(tlb, root, mem, vpn, o))
            == WalksTo(root, mem, vpn, o, Some(ToAddress(FrameOf(root, mem, vpn).value, o)));
    }
  }

  lemma Translate2IsWalk(l1: TlbArray, l2: TlbArray, root: Root, mem: seq<byte>, vpn: nat)
    requires TlbOk(l1, root, mem) && TlbOk(l2, root, mem)
    ensures (forall o: nat :: o < 4096 ==> WalksTo(root, mem, vpn, o, At2(l1, l2, root, mem, vpn, o)))
            <==> (!Holds(l1, vpn) && !Holds(l2, vpn)) || AlignedLeaf(root, mem, vpn)
  {
    hide TlbOk, Walk, LookupIn, FillIn, Holds, PageWalk, AlignedLeaf;
    LookupKeeps(l1, root, mem, vpn);
    LookupKeeps(l2, root, mem, vpn);
    var hit1, hit2 := LookupIn(l1, vpn).1, LookupIn(l2, vpn).1;
    forall o: nat | o < 4096
      ensures At2(l1, l2, root, mem, vpn, o)
           == if hit1.Some? then Some(ToAddress(hit1.value, o))
              else if hit2.Some? then Some(ToAddress(hit2.value, o)) else PageWalk(root, mem, vpn * 4096 + o)
    {
      PageAndOffset(vpn, o);
    }
    if hit1.Some? || hit2.Some? {
      FrameIsWalk(root, mem, vpn);
      assert forall o: nat :: o < 4096 ==>
        WalksTo(root, mem, vpn, o, At2(l1, l2, root, mem, vpn, o))
            == WalksTo(root, mem, vpn, o, Some(ToAddress(FrameOf(root, mem, vpn).value, o)));
    }
  }

  /** An address that map_page takes and the TLB cannot hold: with a page of a new process
      mapped to an address that is not page-aligned, translating the page's first address
      twice gives two answers, the walk's and then the TLB's. */
  lemma UnalignedMappingDiffers(mem: seq<byte>, base: nat, v: nat, pa: nat, tlb: TlbArray)
    requires base % PAGE_SIZE == 0 && base + 4 * PAGE_SIZE <= |mem| < WORD_LIMIT
    requires Small(v) && pa < WORD_LIMIT && pa % PAGE_SIZE != 0 && forall i: nat, w: nat :: !Entry(tlb, i, w)
    ensures var r := MapPage(InitOs(1, mem, base, |mem|), 0, v, pa);
            && r.Done? && r.value.1
            && var root, mem' := r.value.0.roots[0], r.value.0.mem;
               var (tlb1, first) := Translate(tlb, root, mem', v * 4096);
               first == Some(pa) && Translate(tlb1, root, mem', v * 4096).1 == Some(pa / 4096 * 4096) != first
  {
    hide MapPage, Walk, Translate, MapsPage, TakesOf;
    NewPageWalks(mem, base, v, pa);
    var os' := MapPage(InitOs(1, mem, base, |mem|), 0, v, pa).value.0;
    TwoAnswers(os'.roots[0], os'.mem, v, pa, tlb);
  }

  lemma NewPageWalks(mem: seq<byte>, base: nat, v: nat, pa: nat)
    requires base % PAGE_SIZE == 0 && base + 4 * PAGE_SIZE <= |mem| < WORD_LIMIT && Small(v) && pa < WORD_LIMIT
    ensures var r := MapPage(InitOs(1, mem, base, |mem|), 0, v, pa);
            r.Done? && r.value.1 && |r.value.0.roots| == 1 && WalkOf(r.value.0, 0, v) == Some(pa)
  {
    hide MapPage, Walk, Small, Idx, PathOf, MappedTo, LeavesIn;
    var os, own := InitOs(1, mem, base, |mem|), Owners(base, map[], {});
    InitRunning(1, mem, base, |mem|);
    var own' := MapPageWorks(os, own, 0, v, pa, {});
    FourFrames(base, |mem|);
    MapThenWalk(MapPage(os, 0, v, pa).value.0, own', 0, v, pa);
  }

  lemma NoEntries(tlb: TlbArray, root: Root, mem: seq<byte>, v: nat)
    requires forall i: nat, w: nat :: !Entry(tlb, i, w)
    ensures TlbOk(tlb, root, mem) && !Holds(tlb, v)
  {
    hide FrameOf;
    var w := HitFrom(tlb[SetOf(tlb, v)], v, 0);
    assert !Entry(tlb, SetOf(tlb, v), w);
  }

  lemma TwoAnswers(root: Root, mem: seq<byte>, v: nat, pa: nat, tlb: TlbArray)
    requires Walk(root, mem, v) == Some(pa) && pa % PAGE_SIZE != 0 && forall i: nat, w: nat :: !Entry(tlb, i, w)
    ensures var (tlb1, first) := Translate(tlb, root, mem, v * 4096);
            first == Some(pa) && Translate(tlb1, root, mem, v * 4096).1 == Some(pa / 4096 * 4096) != first
  {
    hide Walk, Or, LookupIn, FillIn, Plru.Update;
    NoEntries(tlb, root, mem, v);
    hide TlbOk, Holds, OrOffset;
    PageAndOffset(v, 0);
    OrOffsetIs(pa, 0);
    LookupKeeps(tlb, root, mem, v);
    TranslateKeeps(tlb, root, mem, v * 4096);
    LookupKeeps(Translate(tlb, root, mem, v * 4096).0, root, mem, v);
  }

  // ---------------------------------------------------------------------------
  // Changing the tables under a TLB
  // ---------------------------------------------------------------------------

  /** tlb_flush makes the TLB agree with any tables whatever. */
  lemma FlushWorks(tlb: TlbArray, root: Root, mem: seq<byte>)
    ensures TlbOk(Flush(tlb), root, mem) && forall vpn :: !Holds(Flush(tlb), vpn)
  {
    forall i: nat, w: nat ensures !Entry(Flush(tlb), i, w) {}
  }

  /** Every entry is for a page that map_page handles. */
  ghost predicate OnlySmall(tlb: TlbArray) {
    forall i: nat, w: nat :: Entry(tlb, i, w) ==> Small(tlb[i].vpn[w])
  }

  lemma LookupSmall(tlb: TlbArray, vpn: nat)
    requires OnlySmall(tlb)
    ensures OnlySmall(LookupIn(tlb, vpn).0)
  {
    hide Small;
    forall i: nat, w: nat | Entry(LookupIn(tlb, vpn).0, i, w) ensures Entry(tlb, i, w) {}
  }

  lemma FillSmall(tlb: TlbArray, vpn: nat, frame: nat)
    requires OnlySmall(tlb) && Small(vpn)
    ensures OnlySmall(FillIn(tlb, vpn, frame))
  {
    hide Small;
    var tlb' := FillIn(tlb, vpn, frame);
    forall i: nat, w: nat | Entry(tlb', i, w)
      ensures tlb'[i].vpn[w] == vpn || (Entry(tlb, i, w) && tlb'[i].vpn[w] == tlb[i].vpn[w])
    {
    }
  }

  lemma TranslateSmall(tlb: TlbArray, root: Root, mem: seq<byte>, va: nat)
    requires OnlySmall(tlb) && Small(va / 4096)
    ensures OnlySmall(Translate(tlb, root, mem, va).0)
  {
    hide OnlySmall, LookupIn, FillIn, Small, PageWalk;
    LookupSmall(tlb, va / 4096);
    var tlb1, pa := LookupIn(tlb, va / 4096).0, PageWalk(root, mem, va);
    if pa.Some? { FillSmall(tlb1, va / 4096, ToFrame(pa.value)); }
  }

  lemma Translate2Small(l1: TlbArray, l2: TlbArray, root: Root, mem: seq<byte>, va: nat)
    requires OnlySmall(l1) && OnlySmall(l2) && Small(va / 4096)
    ensures var (a, b, _) := Translate2(l1, l2, root, mem, va); OnlySmall(a) && OnlySmall(b)
  {
    hide OnlySmall, LookupIn, FillIn, Small, PageWalk;
    LookupSmall(l1, va / 4096);
    LookupSmall(l2, va / 4096);
    var (a, b, pa) := (LookupIn(l1, va / 4096).0, LookupIn(l2, va / 4096).0, PageWalk(root, mem, va));
    var hit2 := LookupIn(l2, va / 4096).1;
    if hit2.Some? { FillSmall(a, va / 4096, hit2.value); }
    if pa.Some? {
      FillSmall(a, va / 4096, ToFrame(pa.value));
      FillSmall(b, va / 4096, ToFrame(pa.value));
    }
  }

  /** Some entry is for this page, up to the bits a walk looks at. */
  ghost predicate EntryFor(tlb: TlbArray, v: nat) {
    exists i: nat, w: nat :: Entry(tlb, i, w) && Pre(tlb[i].vpn[w], 0) == Pre(v, 0)
  }

  /** Pages that agree on those bits walk alike. */
  lemma {:induction false} SamePre(mem: seq<byte>, t: nat, l: nat, u: nat, v: nat)
    requires l <= 2 && Pre(u, 0) == Pre(v, 0)
    ensures WalkFrom(mem, t, l, u) == WalkFrom(mem, t, l, v)
    decreases l
  {
    if l == 0 || !TableFits(mem, t) {
    } else {
      SamePre(mem, ReadPte(mem, Slot(t, u, l)).pa, l - 1, u, v);
    }
  }

  /** After a call that mapped process p's page v and left every other walk alone, a TLB
      of process q still agrees with q's tables exactly when p is not q, or the TLB has
      no entry for v, or v walks to the frame it walked to before. Mapping a page that
      had no mapping always qualifies. */
  lemma MapKeepsTlb(tlb: TlbArray, os: Os, os': Os, p: nat, v: nat, q: nat)
    requires q < |os.roots| && OtherPages(os, os', p, v, true)
    requires TlbOk(tlb, os.roots[q], os.mem) && OnlySmall(tlb)
    ensures TlbOk(tlb, os'.roots[q], os'.mem) <==>
            p != q || !EntryFor(tlb, v) || FrameOf(os'.roots[q], os'.mem, v) == FrameOf(os.roots[q], os.mem, v)
    ensures p == q && WalkOf(os, q, v).None? ==> !EntryFor(tlb, v)
  {
    hide Walk, Pre, Small;
    forall u | Pre(u, 0) == Pre(v, 0)
      ensures WalkOf(os', q, u) == WalkOf(os', q, v) && WalkOf(os, q, u) == WalkOf(os, q, v)
    {
      SameWalk(os'.roots[q], os'.mem, u, v);
      SameWalk(os.roots[q], os.mem, u, v);
    }
    forall i: nat, w: nat | Entry(tlb, i, w) && !(p == q && Pre(tlb[i].vpn[w], 0) == Pre(v, 0))
      ensures FrameOf(os'.roots[q], os'.mem, tlb[i].vpn[w]) == FrameOf(os.roots[q], os.mem, tlb[i].vpn[w])
    {
      assert WalkOf(os', q, tlb[i].vpn[w]) == WalkOf(os, q, tlb[i].vpn[w]);
    }
    if EntryFor(tlb, v) {
      var i: nat, w: nat :| Entry(tlb, i, w) && Pre(tlb[i].vpn[w], 0) == Pre(v, 0);
      assert FrameOf(os.roots[q], os.mem, tlb[i].vpn[w]) == Some(tlb[i].frame[w]);
      assert WalkOf(os', q, tlb[i].vpn[w]) == WalkOf(os', q, v);
    }
  }

  lemma SameWalk(root: Root, mem: seq<byte>, u: nat, v: nat)
    requires Pre(u, 0) == Pre(v, 0)
    ensures Walk(root, mem, u) == Walk(root, mem, v)
  {
    hide WalkFrom;
    PreStep(u, 3);
    PreStep(v, 3);
    assert Idx(u, 3) == Idx(v, 3);
    if root[Idx(u, 3)].present { SamePre(mem, root[Idx(u, 3)].pa, 2, u, v); }
  }
}
