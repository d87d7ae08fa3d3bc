/** Mapping a page and then walking to it: what map_page and alloc_and_map do to every
    walk and to every frame. */
module Mapping {
  import opened Types
  import opened Paging
  import opened Frames

  /** Every table on page v's path passes page_walk's size check. */
  predicate PathFits(mem: seq<byte>, t: nat, l: nat, v: nat)
    requires l <= 2
    decreases l
  {
    TableFits(mem, t) && (l == 0 || PathFits(mem, ReadPte(mem, Slot(t, v, l)).pa, l - 1, v))
  }

  /** Every entry on page v's path is present, and the last one holds pa. */
  predicate Leads(mem: seq<byte>, t: nat, l: nat, v: nat, pa: nat)
    requires l <= 2
    decreases l
  {
    && Slot(t, v, l) + ENTRY_SIZE <= |mem|
    && var entry := ReadPte(mem, Slot(t, v, l));
       entry.present && if l == 0 then entry.pa == pa else Leads(mem, entry.pa, l - 1, v, pa)
  }

  /** page_walk follows such a path exactly when every table on it passes its check. */
  lemma {:induction false} LeadsWalk(mem: seq<byte>, t: nat, l: nat, v: nat, pa: nat)
    requires l <= 2 && Leads(mem, t, l, v, pa)
    ensures WalkFrom(mem, t, l, v) == if PathFits(mem, t, l, v) then Some(pa) else None
    decreases l
  {
    hide ReadPte, Idx;
    if l == 0 {
    } else {
      LeadsWalk(mem, ReadPte(mem, Slot(t, v, l)).pa, l - 1, v, pa);
    }
  }

  /** Every table passes page_walk's size check. */
  ghost predicate TablesFit(size: nat, own: Owners) {
    forall t :: t in own.tables ==> t + TABLE_SIZE <= size
  }

  /** Then so does every table on a path. */
  lemma {:induction false} PathOfFitting(mem: seq<byte>, own: Owners, p: nat, t: nat, l: nat, v: nat, pa: nat)
    requires Tree(mem, own) && TablesFit(|mem|, own) && Serves(own, p, t, l, v) && Leads(mem, t, l, v, pa)
    ensures PathFits(mem, t, l, v)
    decreases l
  {
    hide ReadPte, Tree, Idx;
    ServedBelow(mem, own, p, t, l, v);
    if l == 0 {
    } else {
      TreeFrame(mem, own, t);
      PathOfFitting(mem, own, p, EntryAt(mem, t, Idx(v, l)).pa, l - 1, v, pa);
    }
  }

  // ---------------------------------------------------------------------------
  // Which frames become tables
  // ---------------------------------------------------------------------------

  /** How many tables map_page has to create below the table at t. */
  function Missing(mem: seq<byte>, t: nat, l: nat, v: nat): nat
    requires l <= 2
    decreases l
  {
    if l == 0 || Slot(t, v, l) + ENTRY_SIZE > |mem| then 0
    else
      var entry := ReadPte(mem, Slot(t, v, l));
      if entry.present then Missing(mem, entry.pa, l - 1, v) else l
  }

  /** The tables that are on page v's path already pass page_walk's size check. */
  predicate PathSoFarFits(mem: seq<byte>, t: nat, l: nat, v: nat)
    requires l <= 2
    decreases l
  {
    && TableFits(mem, t)
    && (l == 0 || (var entry := ReadPte(mem, Slot(t, v, l));
                   entry.present ==> PathSoFarFits(mem, entry.pa, l - 1, v)))
  }

  predicate AllTablesFit(size: nat, frames: seq<nat>) { forall f :: f in frames ==> f + TABLE_SIZE <= size }

  function Elements(frames: seq<nat>): set<nat> { set f | f in frames }

  /** A call that maps page v below the table at t turns exactly the frames handed out next
      into tables; it succeeds when there are enough of them; and the page's walk then passes
      every size check exactly when the new tables do and the old ones did. */
  ghost predicate Takes(mem: seq<byte>, fa: FrameAllocator, own: Owners, t: nat, l: nat, v: nat, m: Mapped,
                        own': Owners) {
    && l <= 2 && |m.mem| == |mem|
    && var tables := Upcoming(fa, Missing(mem, t, l, v));
       && own'.tables.Keys == own.tables.Keys + Elements(tables)
       && (m.ok <==> |tables| == Missing(mem, t, l, v)) && m.fa == After(fa, Missing(mem, t, l, v))
       && (m.ok ==>
             (PathFits(m.mem, t, l, v) <==> PathSoFarFits(mem, t, l, v) && AllTablesFit(|mem|, tables)))
  }

  /** Process q's page u is process p's page v, up to the 36 bits a walk looks at. */
  predicate SamePage(p: nat, v: nat, q: nat, u: nat) { q == p && Pre(u, 0) == Pre(v, 0) }

  /** Walks below placed tables, except those of p's page v once it is mapped. */
  ghost predicate SameWalks(own: Owners, mem: seq<byte>, mem': seq<byte>, p: nat, v: nat, ok: bool) {
    forall q, t, l, u :: Serves(own, q, t, l, u) && !(ok && SamePage(p, v, q, u)) ==>
      WalkFrom(mem', t, l, u) == WalkFrom(mem, t, l, u)
  }

  /** More tables, the same otherwise. */
  ghost predicate Grown(own: Owners, own': Owners) {
    && own'.base == own.base && own'.data == own.data
    && forall t :: t in own.tables ==> t in own'.tables && own'.tables[t] == own.tables[t]
  }

  predicate HasEntry(mem: seq<byte>, t: nat, i: nat) {
    i < ENTRIES_IN_FRAME && t + PAGE_SIZE <= |mem| && EntryAt(mem, t, i).present
  }

  /** A table once linked stays linked where it is. */
  ghost predicate SameLinks(own: Owners, mem: seq<byte>, mem': seq<byte>) {
    |mem'| == |mem| && forall t, i: nat :: t in own.tables && own.tables[t].level > 0 && HasEntry(mem, t, i) ==>
      EntryAt(mem', t, i) == EntryAt(mem, t, i)
  }

  /** Entry i of the table at t maps a page. */
  ghost predicate Leaf(mem: seq<byte>, own: Owners, t: nat, i: nat) {
    t in own.tables && own.tables[t].level == 0 && HasEntry(mem, t, i)
  }

  /** Every mapped page has a frame of its own, and it is one of these. */
  ghost predicate LeavesIn(mem: seq<byte>, own: Owners, frames: set<nat>) {
    && (forall t, i :: Leaf(mem, own, t, i) ==> EntryAt(mem, t, i).pa in frames)
    && (forall t, i, t2, j :: Leaf(mem, own, t, i) && Leaf(mem, own, t2, j) ==>
          EntryAt(mem, t, i).pa == EntryAt(mem, t2, j).pa ==> t == t2 && i == j)
  }

  function Gaining(frames: set<nat>, pa: nat, ok: bool): set<nat> { if ok then frames + {pa} else frames }

  lemma SameLeaves(mem: seq<byte>, own: Owners, mem1: seq<byte>, own1: Owners, frames: set<nat>)
    requires LeavesIn(mem, own, frames)
    requires forall t, i :: Leaf(mem1, own1, t, i) ==> Leaf(mem, own, t, i) && EntryAt(mem1, t, i) == EntryAt(mem, t, i)
    ensures LeavesIn(mem1, own1, frames)
  {
    hide ReadPte;
  }

  // ---------------------------------------------------------------------------
  // The leaf entry
  // ---------------------------------------------------------------------------

  lemma {:induction false} LeafWalk(mem: seq<byte>, own: Owners, p: nat, t: nat, v: nat, pa: nat, q: nat, t2: nat,
                                    l: nat, u: nat)
    requires Tree(mem, own) && Serves(own, p, t, 0, v) && Serves(own, q, t2, l, u) && pa < WORD_LIMIT
    requires !SamePage(p, v, q, u)
    ensures Slot(t, v, 0) + ENTRY_SIZE <= |mem|
    ensures WalkFrom(WritePte(mem, Slot(t, v, 0), Pte(pa, true)), t2, l, u) == WalkFrom(mem, t2, l, u)
    decreases l
  {
    hide ReadPte, WritePte, Tree, Idx;
    TreeFrame(mem, own, t);
    ServedBelow(mem, own, p, t, 0, v);
    ServedBelow(mem, own, q, t2, l, u);
    WriteKeepsEntries(mem, own, t, Idx(v, 0), Pte(pa, true));
    TreeFrame(mem, own, t2);
    var mem' := WritePte(mem, Slot(t, v, 0), Pte(pa, true));
    assert EntryAt(mem', t2, Idx(u, l)) ==
           if t2 == t && Idx(u, l) == Idx(v, 0) then Pte(pa, true) else EntryAt(mem, t2, Idx(u, l));
    if t2 == t && Idx(u, l) == Idx(v, 0) {
      PreStep(u, 0);
      PreStep(v, 0);
    } else if l > 0 && EntryAt(mem, t2, Idx(u, l)).present && TableFits(mem, t2) {
      LeafWalk(mem, own, p, t, v, pa, q, EntryAt(mem, t2, Idx(u, l)).pa, l - 1, u);
    }
  }

  lemma LeafWorks(mem: seq<byte>, own: Owners, p: nat, t: nat, v: nat, pa: nat, frames: set<nat>)
    requires Tree(mem, own) && Serves(own, p, t, 0, v) && pa < WORD_LIMIT
    requires LeavesIn(mem, own, frames)
    ensures Slot(t, v, 0) + ENTRY_SIZE <= |mem|
    ensures var mem' := WritePte(mem, Slot(t, v, 0), Pte(pa, true));
            && Tree(mem', own) && (pa !in frames ==> LeavesIn(mem', own, frames + {pa})) && SameOutside({t}, mem, mem')
            && SameWalks(own, mem, mem', p, v, true) && SameLinks(own, mem, mem')
            && Leads(mem', t, 0, v, pa)
  {
    hide ReadPte, WritePte;
    TreeFrame(mem, own, t);
    ServedBelow(mem, own, p, t, 0, v);
    WriteKeepsEntries(mem, own, t, Idx(v, 0), Pte(pa, true));
    var mem' := WritePte(mem, Slot(t, v, 0), Pte(pa, true));
    forall t2, j | t2 in own.tables && 0 <= j < ENTRIES_IN_FRAME ensures EntryOk(mem', own, t2, j) {
      assert EntryOk(mem, own, t2, j);
      assert EntryAt(mem', t2, j) == if t2 == t && j == Idx(v, 0) then Pte(pa, true) else EntryAt(mem, t2, j);
    }
    forall q, t2, l, u | Serves(own, q, t2, l, u) && !SamePage(p, v, q, u)
      ensures WalkFrom(mem', t2, l, u) == WalkFrom(mem, t2, l, u)
    {
      LeafWalk(mem, own, p, t, v, pa, q, t2, l, u);
    }
    assert EntryAt(mem', t, Idx(v, 0)) == Pte(pa, true);
    forall t2, j | Leaf(mem', own, t2, j)
      ensures (t2 == t && j == Idx(v, 0)) || (Leaf(mem, own, t2, j) && EntryAt(mem', t2, j) == EntryAt(mem, t2, j))
    {
      assert EntryAt(mem', t2, j) == if t2 == t && j == Idx(v, 0) then Pte(pa, true) else EntryAt(mem, t2, j);
    }
  }

  // ---------------------------------------------------------------------------
  // map_page
  // ---------------------------------------------------------------------------

  /** What a call that maps page v to pa below a table, or runs out of frames, leaves. */
  ghost predicate MapsBelow(mem: seq<byte>, own: Owners, p: nat, t: nat, l: nat, v: nat, pa: nat, m: Mapped,
                            own': Owners) {
    && l <= 2 && Owned(m.mem, m.fa, own') && Grown(own, own')
    && SameWalks(own, mem, m.mem, p, v, m.ok) && SameLinks(own, mem, m.mem)
    && SameOutside(own'.tables.Keys, mem, m.mem)
    && (if m.ok then Leads(m.mem, t, l, v, pa) else OutOfFrames(m.fa))
  }

  lemma {:induction false} MapFromWorks(mem: seq<byte>, fa: FrameAllocator, own: Owners, p: nat, t: nat, l: nat,
                                        v: nat, pa: nat,
                                        frames: set<nat>)
    returns (own': Owners)
    requires Owned(mem, fa, own) && Serves(own, p, t, l, v) && pa < WORD_LIMIT
    requires LeavesIn(mem, own, frames)
    ensures var r := MapFrom(mem, fa, t, l, v, pa);
            && r.Done? && MapsBelow(mem, own, p, t, l, v, pa, r.value, own')
            && (!r.value.ok || pa !in frames ==> LeavesIn(r.value.mem, own', Gaining(frames, pa, r.value.ok)))
            && r.value.fa.limit == fa.limit && Takes(mem, fa, own, t, l, v, r.value, own')
    decreases l
  {
    hide ReadPte, WritePte, AllocFrame, Partition, Tree, LeavesIn, Upcoming, NextFrame, Taken, Takes;
    own' := own;
    TreeFrame(mem, own, t);
    ServedBelow(mem, own, p, t, l, v);
    if l == 0 {
      LeafWorks(mem, own, p, t, v, pa, frames);
      TakesNothing(mem, fa, own, t, v, MapFrom(mem, fa, t, l, v, pa).value);
    } else {
      var i := Idx(v, l);
      var entry := EntryAt(mem, t, i);
      if entry.present {
        own' := MapFromWorks(mem, fa, own, p, entry.pa, l - 1, v, pa, frames);
        var m := MapFrom(mem, fa, entry.pa, l - 1, v, pa).value;
        StepUp(mem, own, p, t, l, v, pa, m, own', mem, own, entry.pa);
        TakesBelow(mem, fa, own, t, l, v, m, own');
      } else {
        AllocFresh(mem, fa, own, Below(own, t, i));
        SameWalksSelf(own, mem, p, v);
        var got := AllocFrame(mem, fa).value;
        if got.None? {
          TakesNone(mem, fa, own, t, l, v);
        } else {
          var f := got.value.frame;
          var mem1, own1 := Linked(mem, t, i, f), WithTable(own, f, Below(own, t, i));
          LinkedWorks(mem, own, p, t, i, f, v, l, frames);
          own' := MapFromWorks(mem1, got.value.fa, own1, p, f, l - 1, v, pa, frames);
          var m := MapFrom(mem1, got.value.fa, f, l - 1, v, pa).value;
          StepUp(mem, own, p, t, l, v, pa, m, own', mem1, own1, f);
          LinkedEntries(mem, own, t, i, f);
          TakesNew(mem, fa, own, t, l, v, mem1, own1, m, own');
        }
      }
    }
  }

  lemma OneMoreTable(f: nat, rest: seq<nat>, size: nat)
    ensures Elements([f] + rest) == {f} + Elements(rest)
    ensures AllTablesFit(size, [f] + rest) <==> f + TABLE_SIZE <= size && AllTablesFit(size, rest)
  {
    assert forall g :: g in [f] + rest <==> g == f || g in rest;
  }

  lemma TakesNothing(mem: seq<byte>, fa: FrameAllocator, own: Owners, t: nat, v: nat, m: Mapped)
    requires m.ok && |m.mem| == |mem| && m.fa == fa
    ensures Takes(mem, fa, own, t, 0, v, m, own)
  {
  }

  lemma TakesNone(mem: seq<byte>, fa: FrameAllocator, own: Owners, t: nat, l: nat, v: nat)
    requires 0 < l <= 2 && OutOfFrames(fa) && Slot(t, v, l) + ENTRY_SIZE <= |mem|
    requires !ReadPte(mem, Slot(t, v, l)).present
    ensures Takes(mem, fa, own, t, l, v, Mapped(mem, fa, false), own)
  {
  }

  /** Through an entry that was present. */
  lemma TakesBelow(mem: seq<byte>, fa: FrameAllocator, own: Owners, t: nat, l: nat, v: nat, m: Mapped, own': Owners)
    requires 0 < l <= 2 && Slot(t, v, l) + ENTRY_SIZE <= |mem| == |m.mem|
    requires var entry := ReadPte(mem, Slot(t, v, l));
             && entry.present && ReadPte(m.mem, Slot(t, v, l)) == entry
             && Takes(mem, fa, own, entry.pa, l - 1, v, m, own')
    ensures Takes(mem, fa, own, t, l, v, m, own')
  {
    hide ReadPte, Upcoming;
  }

  /** Through the entry that the call filled in. */
  lemma TakesNew(mem: seq<byte>, fa: FrameAllocator, own: Owners, t: nat, l: nat, v: nat, mem1: seq<byte>,
                 own1: Owners, m: Mapped, own': Owners)
    requires 0 < l <= 2 && Slot(t, v, l) + ENTRY_SIZE <= |mem| == |m.mem| == |mem1| && !OutOfFrames(fa)
    requires Idx(v, 2) < ENTRIES_IN_FRAME && Idx(v, 1) < ENTRIES_IN_FRAME
    requires var f := NextFrame(fa);
             && f + PAGE_SIZE <= |mem| && (forall j: nat :: j < ENTRIES_IN_FRAME ==> !EntryAt(mem1, f, j).present)
             && !ReadPte(mem, Slot(t, v, l)).present && ReadPte(m.mem, Slot(t, v, l)) == Pte(f, true)
             && own1.tables.Keys == own.tables.Keys + {f} && Takes(mem1, Taken(fa), own1, f, l - 1, v, m, own')
    ensures Takes(mem, fa, own, t, l, v, m, own')
  {
    hide ReadPte, NextFrame, Taken, Idx;
    var f := NextFrame(fa);
    if l == 2 { assert !EntryAt(mem1, f, Idx(v, 1)).present; }
    assert Missing(mem1, f, l - 1, v) == l - 1;
    var rest := Upcoming(Taken(fa), l - 1);
    assert Upcoming(fa, l) == [f] + rest;
    OneMoreTable(f, rest, |mem|);
  }

  lemma SameWalksSelf(own: Owners, mem: seq<byte>, p: nat, v: nat)
    ensures SameWalks(own, mem, mem, p, v, false) && SameLinks(own, mem, mem) && Grown(own, own)
        && SameOutside(own.tables.Keys, mem, mem)
  {
  }

  /** A new, empty table hung from entry i of the table at t. */
  lemma LinkedWorks(mem: seq<byte>, own: Owners, p: nat, t: nat, i: nat, f: nat, v: nat, l: nat, frames: set<nat>)
    requires Tree(mem, own) && Serves(own, p, t, l, v) && l > 0 && i == Idx(v, l) && |mem| < WORD_LIMIT
    requires f !in own.tables && f % PAGE_SIZE == 0 && f + PAGE_SIZE <= |mem|
    requires i < ENTRIES_IN_FRAME && t + PAGE_SIZE <= |mem| && !EntryAt(mem, t, i).present && LeavesIn(mem, own, frames)
    ensures var mem1, own1 := Linked(mem, t, i, f), WithTable(own, f, Below(own, t, i));
            && Tree(mem1, own1) && Serves(own1, p, f, l - 1, v) && Grown(own, own1) && LeavesIn(mem1, own1, frames)
            && SameWalks(own, mem, mem1, p, v, false) && SameLinks(own, mem, mem1)
            && SameOutside(own1.tables.Keys, mem, mem1)
            && t + PAGE_SIZE <= |mem1| && EntryAt(mem1, t, i) == Pte(f, true)
  {
    hide ReadPte, Linked, Tree;
    PreStep(v, l);
    TreeFrame(mem, own, t);
    LinkedTree(mem, own, t, i, f);
    LinkedEntries(mem, own, t, i, f);
    var mem1, own1 := Linked(mem, t, i, f), WithTable(own, f, Below(own, t, i));
    forall q, t2, l2, u | Serves(own, q, t2, l2, u) ensures WalkFrom(mem1, t2, l2, u) == WalkFrom(mem, t2, l2, u) {
      LinkedWalk(mem, own, t, i, f, q, t2, l2, u);
    }
    forall t2, j | Leaf(mem1, own1, t2, j)
      ensures Leaf(mem, own, t2, j) && EntryAt(mem1, t2, j) == EntryAt(mem, t2, j)
    {
      assert EntryAt(mem1, t2, j) == EntryAt(mem, t2, j);
    }
    SameLeaves(mem, own, mem1, own1, frames);
  }

  /** From the table one level down to the table at t. */
  lemma StepUp(mem: seq<byte>, own: Owners, p: nat, t: nat, l: nat, v: nat, pa: nat, m: Mapped, own': Owners,
               mem1: seq<byte>, own1: Owners, t1: nat)
    requires 0 < l <= 2 && |mem1| == |mem| && Serves(own1, p, t, l, v) && Tree(mem1, own1)
    requires MapsBelow(mem1, own1, p, t1, l - 1, v, pa, m, own')
    requires Grown(own, own1) && SameWalks(own, mem, mem1, p, v, false) && SameLinks(own, mem, mem1)
        && SameOutside(own1.tables.Keys, mem, mem1)
    requires Idx(v, l) < ENTRIES_IN_FRAME && t + PAGE_SIZE <= |mem| && EntryAt(mem1, t, Idx(v, l)) == Pte(t1, true)
    ensures MapsBelow(mem, own, p, t, l, v, pa, m, own')
  {
    hide ReadPte, Partition, Roomy, Idx, Tree;
    TreeFrame(mem1, own1, t);
    var i := Idx(v, l);
    assert HasEntry(mem1, t, i);
    assert EntryAt(m.mem, t, i) == Pte(t1, true);
    assert forall q, t2, l2, u :: Serves(own, q, t2, l2, u) ==> Serves(own1, q, t2, l2, u);
    forall t2, j: nat | t2 in own.tables && own.tables[t2].level > 0 && HasEntry(mem, t2, j)
      ensures EntryAt(m.mem, t2, j) == EntryAt(mem, t2, j)
    {
      assert HasEntry(mem1, t2, j);
    }
  }

  /** Process p's walk of page u. */
  function WalkOf(os: Os, p: nat, u: nat): Option<nat>
    requires p < |os.roots|
  {
    Walk(os.roots[p], os.mem, u)
  }

  /** Every page of every process, except p's page v once it is mapped, walks as before. */
  ghost predicate OtherPages(os: Os, os': Os, p: nat, v: nat, ok: bool) {
    && |os'.roots| == |os.roots|
    && forall q: nat, u :: q < |os.roots| && Small(u) && !(ok && SamePage(p, v, q, u)) ==>
        WalkOf(os', q, u) == WalkOf(os, q, u)
  }

  predicate PathOf(os: Os, p: nat, v: nat)
    requires p < |os.roots|
  {
    PathFits(os.mem, os.roots[p][Idx(v, 3)].pa, 2, v)
  }

  /** Page v's path is complete and ends at pa. */
  predicate MappedTo(os: Os, p: nat, v: nat, pa: nat)
    requires p < |os.roots|
  {
    os.roots[p][Idx(v, 3)].present && Leads(os.mem, os.roots[p][Idx(v, 3)].pa, 2, v, pa)
  }

  /** The walk of a mapped page gives its address exactly when every table on its path
      passes the size check. */
  lemma MapThenWalk(os: Os, own: Owners, p: nat, v: nat, pa: nat)
    requires OsOk(os, own) && p < |os.roots| && Small(v) && MappedTo(os, p, v, pa)
    ensures WalkOf(os, p, v) == if PathOf(os, p, v) then Some(pa) else None
    ensures TablesFit(|os.mem|, own) ==> PathOf(os, p, v)
  {
    hide Idx;
    var entry := os.roots[p][Idx(v, 3)];
    LeadsWalk(os.mem, entry.pa, 2, v, pa);
    RootServes(os, own, p, v);
    if TablesFit(|os.mem|, own) { PathOfFitting(os.mem, own, p, entry.pa, 2, v, pa); }
  }

  /** How many tables map_page has to create for p's page v. */
  function MissingOf(os: Os, p: nat, v: nat): nat
    requires p < |os.roots|
  {
    var entry := os.roots[p][Idx(v, 3)];
    if entry.present then Missing(os.mem, entry.pa, 2, v) else 3
  }

  predicate PathSoFarOf(os: Os, p: nat, v: nat)
    requires p < |os.roots|
  {
    var entry := os.roots[p][Idx(v, 3)];
    entry.present ==> PathSoFarFits(os.mem, entry.pa, 2, v)
  }

  /** As Takes, from the root. */
  ghost predicate TakesOf(os: Os, own: Owners, p: nat, v: nat, os': Os, ok: bool, own': Owners) {
    && p < |os.roots| && p < |os'.roots| && |os'.mem| == |os.mem|
    && var tables := Upcoming(os.fa, MissingOf(os, p, v));
       && own'.tables.Keys == own.tables.Keys + Elements(tables)
       && (ok <==> |tables| == MissingOf(os, p, v)) && os'.fa == After(os.fa, MissingOf(os, p, v))
       && (ok ==> (PathOf(os', p, v) <==> PathSoFarOf(os, p, v) && AllTablesFit(|os.mem|, tables)))
  }

  lemma RootServes(os: Os, own: Owners, p: nat, u: nat)
    requires OsOk(os, own) && p < |os.roots| && Small(u) && os.roots[p][Idx(u, 3)].present
    ensures Serves(own, p, os.roots[p][Idx(u, 3)].pa, 2, u)
  {
    PreStep(u, 3);
  }

  /** After a successful map_page, p's page v is mapped to pa, every other page of every
      process walks as before, and the frames stay partitioned. After a failed one every
      page walks as before. */
  lemma MapPageWorks(os: Os, own: Owners, p: nat, v: nat, pa: nat, frames: set<nat>) returns (own': Owners)
    requires OsOk(os, own) && p < |os.roots| && Small(v) && pa < WORD_LIMIT && LeavesIn(os.mem, own, frames)
    ensures var r := MapPage(os, p, v, pa);
            && r.Done?
            && MapsPage(os, own, p, v, pa, frames, r.value.0, r.value.1, own')
            && TakesOf(os, own, p, v, r.value.0, r.value.1, own')
  {
    hide ReadPte, MapFrom, AllocFrame, Partition, Roomy, Tree, LeavesIn, Idx, Pre, Upcoming, NextFrame, Taken, Takes,
         TakesOf;
    own' := own;
    var i := Idx(v, 3);
    if os.roots[p][i].present {
      RootServes(os, own, p, v);
      own' := MapFromWorks(os.mem, os.fa, own, p, os.roots[p][i].pa, 2, v, pa, frames);
      var (os', ok) := MapPage(os, p, v, pa).value;
      RootsOkGrown(os.roots, own, own');
      TakesFromRoot(os, own, p, v, MapFrom(os.mem, os.fa, os.roots[p][i].pa, 2, v, pa).value, own');
      forall q: nat, u | q < |os.roots| && Small(u) && !(ok && SamePage(p, v, q, u))
        ensures WalkOf(os', q, u) == WalkOf(os, q, u)
      {
        if os.roots[q][Idx(u, 3)].present { RootServes(os, own, q, u); }
      }
    } else {
      AllocFresh(os.mem, os.fa, own, Place(p, 2, i));
      SameWalksSelf(own, os.mem, p, v);
      var got := AllocFrame(os.mem, os.fa).value;
      if got.None? { TakesNoRoot(os, own, p, v); }
      else { own' := MapNewRoot(os, own, p, v, pa, frames, got.value); }
    }
  }

  lemma TakesFromRoot(os: Os, own: Owners, p: nat, v: nat, m: Mapped, own': Owners)
    requires p < |os.roots| && os.roots[p][Idx(v, 3)].present
    requires Takes(os.mem, os.fa, own, os.roots[p][Idx(v, 3)].pa, 2, v, m, own')
    ensures TakesOf(os, own, p, v, Os(os.roots, m.mem, m.fa), m.ok, own')
  {
  }

  lemma TakesNoRoot(os: Os, own: Owners, p: nat, v: nat)
    requires p < |os.roots| && !os.roots[p][Idx(v, 3)].present && OutOfFrames(os.fa)
    ensures TakesOf(os, own, p, v, os, false, own)
  {
  }

  lemma TakesNewRoot(os: Os, own: Owners, p: nat, v: nat, mem1: seq<byte>, own1: Owners, m: Mapped, own': Owners)
    requires p < |os.roots| && !os.roots[p][Idx(v, 3)].present && !OutOfFrames(os.fa) && |mem1| == |os.mem| == |m.mem|
    requires Idx(v, 2) < ENTRIES_IN_FRAME
    requires var f := NextFrame(os.fa);
             && f + PAGE_SIZE <= |os.mem| && (forall j: nat :: j < ENTRIES_IN_FRAME ==> !EntryAt(mem1, f, j).present)
             && own1.tables.Keys == own.tables.Keys + {f} && Takes(mem1, Taken(os.fa), own1, f, 2, v, m, own')
    ensures var root := os.roots[p][Idx(v, 3) := Pte(NextFrame(os.fa), true)];
            TakesOf(os, own, p, v, Os(os.roots[p := root], m.mem, m.fa), m.ok, own')
  {
    hide ReadPte, NextFrame, Taken, Idx;
    var f := NextFrame(os.fa);
    assert !EntryAt(mem1, f, Idx(v, 2)).present;
    assert Missing(mem1, f, 2, v) == 2;
    var rest := Upcoming(Taken(os.fa), 2);
    assert Upcoming(os.fa, 3) == [f] + rest;
    OneMoreTable(f, rest, |os.mem|);
  }

  /** What map_page leaves, with its result. */
  ghost predicate MapsPage(os: Os, own: Owners, p: nat, v: nat, pa: nat, frames: set<nat>, os': Os, ok: bool,
                           own': Owners) {
    && OsOk(os', own') && Grown(own, own') && os'.fa.limit == os.fa.limit
    && OtherPages(os, os', p, v, ok)
    && SameOutside(own'.tables.Keys, os.mem, os'.mem)
    && (if ok then p < |os'.roots| && MappedTo(os', p, v, pa) else OutOfFrames(os'.fa))
    && (!ok || pa !in frames ==> LeavesIn(os'.mem, own', Gaining(frames, pa, ok)))
  }

  lemma RootsOkGrown(roots: seq<Root>, own: Owners, own': Owners)
    requires RootsOk(roots, own) && Grown(own, own')
    ensures RootsOk(roots, own')
  {
  }

  /** The branch where the root entry is absent. */
  lemma MapNewRoot(os: Os, own: Owners, p: nat, v: nat, pa: nat, frames: set<nat>, got: Allocated)
    returns (own': Owners)
    requires OsOk(os, own) && p < |os.roots| && Small(v) && pa < WORD_LIMIT && LeavesIn(os.mem, own, frames)
    requires !os.roots[p][Idx(v, 3)].present && AllocFrame(os.mem, os.fa) == Done(Some(got))
    ensures var r := MapPage(os, p, v, pa);
            && r.Done?
            && MapsPage(os, own, p, v, pa, frames, r.value.0, r.value.1, own')
            && TakesOf(os, own, p, v, r.value.0, r.value.1, own')
  {
    hide ReadPte, MapFrom, AllocFrame, Partition, Tree, LeavesIn, Idx, Pre, Upcoming, NextFrame, Taken, Takes, TakesOf;
    var i, f := Idx(v, 3), got.frame;
    AllocFresh(os.mem, os.fa, own, Place(p, 2, i));
    var own1 := WithTable(own, f, Place(p, 2, i));
    ZeroedWorks(os.mem, own, f, Place(p, 2, i), frames);
    PreStep(v, 3);
    own' := MapFromWorks(got.mem, got.fa, own1, p, f, 2, v, pa, frames);
    var (os', ok) := MapPage(os, p, v, pa).value;
    TakesNewRoot(os, own, p, v, got.mem, own1, MapFrom(got.mem, got.fa, f, 2, v, pa).value, own');
    assert RootsOk(os'.roots, own1);
    RootsOkGrown(os'.roots, own1, own');
    forall q: nat, u | q < |os.roots| && Small(u) && !(ok && SamePage(p, v, q, u))
      ensures WalkOf(os', q, u) == WalkOf(os, q, u)
    {
      PreStep(u, 3);
      if q == p && Idx(u, 3) == i {
        assert Serves(own1, p, f, 2, u);
        EmptyTable(got.mem, f, u);
      } else if os.roots[q][Idx(u, 3)].present {
        RootServes(os, own, q, u);
        assert Serves(own1, q, os.roots[q][Idx(u, 3)].pa, 2, u);
      }
    }
  }

  lemma EmptyTable(mem: seq<byte>, f: nat, u: nat)
    requires f + PAGE_SIZE <= |mem| && Small(u) && forall j: nat :: j < ENTRIES_IN_FRAME ==> !EntryAt(mem, f, j).present
    ensures WalkFrom(mem, f, 2, u) == None
  {
    assert !EntryAt(mem, f, Idx(u, 2)).present;
  }

  /** Clearing a frame that is not a table, whether or not it becomes one. */
  lemma ZeroedWorks(mem: seq<byte>, own: Owners, f: nat, place: Place, frames: set<nat>)
    requires Tree(mem, own) && f !in own.tables && f % PAGE_SIZE == 0 && f + PAGE_SIZE <= |mem|
    requires place.level <= 2 && LeavesIn(mem, own, frames)
    ensures var mem1 := ZeroFrame(mem, f);
            && Tree(mem1, own) && Tree(mem1, WithTable(own, f, place)) && Grown(own, WithTable(own, f, place))
            && LeavesIn(mem1, own, frames) && LeavesIn(mem1, WithTable(own, f, place), frames)
            && SameWalks(own, mem, mem1, 0, 0, false) && SameLinks(own, mem, mem1) && SameOutside({f}, mem, mem1)
            && forall j: nat :: j < ENTRIES_IN_FRAME ==> !EntryAt(mem1, f, j).present
  {
    hide ReadPte, ZeroFrame;
    ZeroKeepsEntries(mem, own, f);
    var mem1, own1 := ZeroFrame(mem, f), WithTable(own, f, place);
    forall t, j | t in own1.tables && 0 <= j < ENTRIES_IN_FRAME
      ensures EntryOk(mem1, own1, t, j) && (t in own.tables ==> EntryOk(mem1, own, t, j))
    {
      if t == f { assert !EntryAt(mem1, f, j).present; }
      else { assert EntryAt(mem1, t, j) == EntryAt(mem, t, j) && EntryOk(mem, own, t, j); }
    }
    forall t, j | Leaf(mem1, own1, t, j) ensures Leaf(mem, own, t, j) && EntryAt(mem1, t, j) == EntryAt(mem, t, j) {
      if t != f { assert EntryAt(mem1, t, j) == EntryAt(mem, t, j); }
    }
    SameLeaves(mem, own, mem1, own1, frames);
    SameLeaves(mem, own, mem1, own, frames);
    forall q, t, l, u | Serves(own, q, t, l, u) ensures WalkFrom(mem1, t, l, u) == WalkFrom(mem, t, l, u) {
      ZeroedWalk(mem, own, f, q, t, l, u);
    }
  }

  lemma {:induction false} ZeroedWalk(mem: seq<byte>, own: Owners, f: nat, q: nat, t: nat, l: nat, u: nat)
    requires Tree(mem, own) && f !in own.tables && f % PAGE_SIZE == 0 && f + PAGE_SIZE <= |mem|
        && Serves(own, q, t, l, u)
    ensures WalkFrom(ZeroFrame(mem, f), t, l, u) == WalkFrom(mem, t, l, u)
    decreases l
  {
    hide ReadPte, ZeroFrame, Tree, Idx;
    ZeroKeepsEntries(mem, own, f);
    ServedBelow(mem, own, q, t, l, u);
    TreeFrame(mem, own, t);
    assert EntryAt(ZeroFrame(mem, f), t, Idx(u, l)) == EntryAt(mem, t, Idx(u, l));
    if l == 0 || !EntryAt(mem, t, Idx(u, l)).present || !TableFits(mem, t) {
    } else {
      ZeroedWalk(mem, own, f, q, EntryAt(mem, t, Idx(u, l)).pa, l - 1, u);
    }
  }

  // ---------------------------------------------------------------------------
  // alloc_and_map
  // ---------------------------------------------------------------------------

  /** Bytes of frames in use as data stay. */
  ghost predicate SameData(own: Owners, mem: seq<byte>, mem': seq<byte>) {
    |mem'| == |mem| && forall a: nat :: a < |mem| && a - a % PAGE_SIZE in own.data ==> mem'[a] == mem[a]
  }

  /** Between calls: every mapped frame is in use as data. */
  ghost predicate Running(os: Os, own: Owners) { OsOk(os, own) && LeavesIn(os.mem, own, own.data) }

  /** The frames that alloc_and_map of p's page v turns into tables: those handed out after
      the page's own. */
  function NewTables(os: Os, p: nat, v: nat): seq<nat>
    requires p < |os.roots|
  {
    var frames := Upcoming(os.fa, 1 + MissingOf(os, p, v));
    if frames == [] then [] else frames[1..]
  }

  /** There are frames for the page and for all the tables it needs. */
  predicate Affords(os: Os, p: nat, v: nat)
    requires p < |os.roots|
  {
    |Upcoming(os.fa, 1 + MissingOf(os, p, v))| == 1 + MissingOf(os, p, v)
  }

  /** The tables about to be created will pass page_walk's size check. */
  predicate RoomForTables(os: Os, p: nat, v: nat)
    requires p < |os.roots|
  {
    AllTablesFit(|os.mem|, NewTables(os, p, v))
  }

  /** Which frames alloc_and_map takes, whether it succeeds, and whether the page then walks,
      all told before the call. */
  ghost predicate Foretold(os: Os, own: Owners, p: nat, v: nat, os': Os, got: Option<nat>, own': Owners) {
    && p < |os.roots| && p < |os'.roots|
    && own'.tables.Keys == own.tables.Keys + Elements(NewTables(os, p, v))
    && got == (if Affords(os, p, v) then Some(NextFrame(os.fa)) else None)
    && (var fa := After(os.fa, 1 + MissingOf(os, p, v));
        os'.fa == if got.Some? || OutOfFrames(os.fa) then fa else FreeFrame(fa, NextFrame(os.fa)))
    && (got.Some? ==> (PathOf(os', p, v) <==> PathSoFarOf(os, p, v) && RoomForTables(os, p, v)))
  }

  /** What alloc_and_map of p's page v leaves, with its result. */
  ghost predicate AllocMaps(os: Os, own: Owners, p: nat, v: nat, os': Os, got: Option<nat>, own': Owners) {
    && Running(os', own') && os'.fa.limit == os.fa.limit && own'.base == own.base
    && (forall t :: t in own.tables ==> t in own'.tables)
    && SameData(own, os.mem, os'.mem)
    && OtherPages(os, os', p, v, got.Some?)
    && match got
       case None => own'.data == own.data && |os'.fa.freeList| <= 1 && os'.fa.watermark + PAGE_SIZE > os'.fa.limit
       case Some(f) =>
         && !InUse(own, f) && own'.data == own.data + {f}
         && p < |os'.roots| && MappedTo(os', p, v, f) && Blank(os'.mem, f)
  }

  /** A frame of zeros. */
  predicate Blank(mem: seq<byte>, f: nat) {
    f + PAGE_SIZE <= |mem| && forall a :: f <= a < f + PAGE_SIZE ==> mem[a] == 0
  }

  lemma SameTables(roots: seq<Root>, mem: seq<byte>, own: Owners, own2: Owners, frames: set<nat>)
    requires own2.tables == own.tables
    ensures Tree(mem, own) ==> Tree(mem, own2)
    ensures RootsOk(roots, own) ==> RootsOk(roots, own2)
    ensures LeavesIn(mem, own, frames) ==> LeavesIn(mem, own2, frames)
  {
    if LeavesIn(mem, own, frames) { SameLeaves(mem, own, mem, own2, frames); }
    if Tree(mem, own) {
      forall t, i | t in own2.tables && 0 <= i < ENTRIES_IN_FRAME ensures EntryOk(mem, own2, t, i) {
        assert EntryOk(mem, own, t, i);
      }
    }
  }

  /** Clearing a frame that is not a table changes no walk. */
  lemma ZeroedPages(os: Os, own: Owners, f: nat, fa: FrameAllocator)
    requires OsOk(os, own) && f !in own.tables && f % PAGE_SIZE == 0 && f + PAGE_SIZE <= |os.mem|
    ensures forall p, v :: OtherPages(os, Os(os.roots, ZeroFrame(os.mem, f), fa), p, v, false)
  {
    hide Tree, ZeroFrame, Partition, RootsOk;
    forall q: nat, u | q < |os.roots| && Small(u)
      ensures Walk(os.roots[q], ZeroFrame(os.mem, f), u) == WalkOf(os, q, u)
    {
      if os.roots[q][Idx(u, 3)].present {
        RootServes(os, own, q, u);
        ZeroedWalk(os.mem, own, f, q, os.roots[q][Idx(u, 3)].pa, 2, u);
      }
    }
  }

  /** Frames in use as data are not tables, before or after. */
  lemma DataStays(os: Os, own: Owners, f: nat, os2: Os, own2: Owners)
    requires Partition(os2.fa, own2) && own2.data == own.data + {f} && !InUse(own, f) && f % PAGE_SIZE == 0
        && f + PAGE_SIZE <= |os.mem|
    requires SameOutside(own2.tables.Keys, ZeroFrame(os.mem, f), os2.mem)
    ensures SameData(own, os.mem, os2.mem) && Blank(os2.mem, f)
  {
    ZeroOutside(os.mem, f);
    forall a | f <= a < f + PAGE_SIZE ensures os2.mem[a] == 0 {
      assert a - a % PAGE_SIZE == f;
      assert ZeroFrame(os.mem, f)[a] == 0;
    }
  }

  lemma PagesTwice(os: Os, os1: Os, os2: Os, p: nat, v: nat, ok: bool)
    requires OtherPages(os, os1, p, v, false) && OtherPages(os1, os2, p, v, ok)
    ensures OtherPages(os, os2, p, v, ok)
  {
    hide Walk;
  }

  /** A frame that was in nobody's use gets mapped at p's page v and every other page of
      every process walks as before; or memory ran out, the frame went back to the free
      list, no page lost its translation, and nothing more is left to hand out. */
  lemma AllocAndMapWorks(os: Os, own: Owners, p: nat, v: nat) returns (own': Owners)
    requires Running(os, own) && p < |os.roots| && Small(v)
    ensures var r := AllocAndMap(os, p, v);
            && r.Done? && AllocMaps(os, own, p, v, r.value.0, r.value.1, own')
            && Foretold(os, own, p, v, r.value.0, r.value.1, own')
  {
    hide ZeroFrame, MapPage, Partition, Tree, LeavesIn, AllocFrame, MappedTo, RootsOk, Walk, MissingOf;
    AllocFresh(os.mem, os.fa, own, Place(0, 0, 0));
    own' := own;
    var got := AllocFrame(os.mem, os.fa).value;
    if got.None? {
      assert SameData(own, os.mem, os.mem);
      assert Upcoming(os.fa, 1 + MissingOf(os, p, v)) == [];
    } else {
      own' := MapFreshFrame(os, own, p, v, got.value);
    }
  }

  lemma MapFreshFrame(os: Os, own: Owners, p: nat, v: nat, got: Allocated) returns (own': Owners)
    requires Running(os, own) && p < |os.roots| && Small(v) && AllocFrame(os.mem, os.fa) == Done(Some(got))
    ensures var r := AllocAndMap(os, p, v);
            && r.Done? && AllocMaps(os, own, p, v, r.value.0, r.value.1, own')
            && Foretold(os, own, p, v, r.value.0, r.value.1, own')
  {
    hide ZeroFrame, MapPage, Partition, Tree, LeavesIn, AllocFrame, MappedTo, RootsOk, Walk, Upcoming, MissingOf,
         TakesOf, Foretold, NextFrame, Taken;
    AllocFresh(os.mem, os.fa, own, Place(0, 0, 0));
    var f := got.frame;
    var os1, own1 := Os(os.roots, got.mem, got.fa), WithData(own, f);
    var ok := MapPage(os1, p, v, f).Done? && MapPage(os1, p, v, f).value.1;
    ZeroedWorks(os.mem, own, f, Place(0, 0, 0), own.data);
    SameTables(os.roots, os1.mem, own, own1, own.data);
    ZeroedPages(os, own, f, got.fa);
    own' := MapPageWorks(os1, own1, p, v, f, own.data);
    var os2 := MapPage(os1, p, v, f).value.0;
    PagesTwice(os, os1, os2, p, v, ok);
    DataStays(os, own, f, os2, own');
    ZeroedMissingOf(os, own, p, v, got);
    ForetoldBy(os, own, p, v, os1, own1, os2, ok, own');
    if !ok {
      FreeKeeps(os2.fa, own', f);
      var own2 := own'.(data := own'.data - {f});
      SameTables(os2.roots, os2.mem, own', own2, own.data);
      assert own2.data == own.data;
      own' := own2;
    }
  }

  /** Clearing the page's frame leaves the path as it is. */
  lemma ZeroedMissingOf(os: Os, own: Owners, p: nat, v: nat, got: Allocated)
    requires OsOk(os, own) && p < |os.roots| && Small(v) && !InUse(own, got.frame) && got.frame % PAGE_SIZE == 0
    requires got.frame + PAGE_SIZE <= |os.mem| && got.mem == ZeroFrame(os.mem, got.frame)
    ensures var os1 := Os(os.roots, got.mem, got.fa);
            MissingOf(os1, p, v) == MissingOf(os, p, v) && PathSoFarOf(os1, p, v) == PathSoFarOf(os, p, v)
  {
    hide Tree, ZeroFrame, Partition, RootsOk, Missing, PathSoFarFits;
    if os.roots[p][Idx(v, 3)].present {
      RootServes(os, own, p, v);
      ZeroedMissing(os.mem, own, got.frame, p, os.roots[p][Idx(v, 3)].pa, 2, v);
    }
  }

  lemma {:induction false} ZeroedMissing(mem: seq<byte>, own: Owners, f: nat, q: nat, t: nat, l: nat, u: nat)
    requires Tree(mem, own) && f !in own.tables && f % PAGE_SIZE == 0 && f + PAGE_SIZE <= |mem|
        && Serves(own, q, t, l, u)
    ensures Missing(ZeroFrame(mem, f), t, l, u) == Missing(mem, t, l, u)
    ensures PathSoFarFits(ZeroFrame(mem, f), t, l, u) == PathSoFarFits(mem, t, l, u)
    decreases l
  {
    hide ReadPte, ZeroFrame, Tree, Idx;
    ZeroKeepsEntries(mem, own, f);
    ServedBelow(mem, own, q, t, l, u);
    TreeFrame(mem, own, t);
    assert EntryAt(ZeroFrame(mem, f), t, Idx(u, l)) == EntryAt(mem, t, Idx(u, l));
    if l == 0 || !EntryAt(mem, t, Idx(u, l)).present {
    } else {
      ZeroedMissing(mem, own, f, q, EntryAt(mem, t, Idx(u, l)).pa, l - 1, u);
    }
  }

  lemma ForetoldBy(os: Os, own: Owners, p: nat, v: nat, os1: Os, own1: Owners, os2: Os, ok: bool, own2: Owners)
    requires p < |os.roots| && !OutOfFrames(os.fa) && os1.roots == os.roots && os1.fa == Taken(os.fa)
    requires |os1.mem| == |os.mem| && own1.tables == own.tables
    requires MissingOf(os1, p, v) == MissingOf(os, p, v) && PathSoFarOf(os1, p, v) == PathSoFarOf(os, p, v)
    requires TakesOf(os1, own1, p, v, os2, ok, own2)
    ensures ok ==> Foretold(os, own, p, v, os2, Some(NextFrame(os.fa)), own2)
    ensures !ok ==> forall own3: Owners :: own3.tables == own2.tables ==>
                      Foretold(os, own, p, v, os2.(fa := FreeFrame(os2.fa, NextFrame(os.fa))), None, own3)
  {
    hide MissingOf, PathSoFarOf, NextFrame, Taken;
    var k := MissingOf(os, p, v);
    assert Upcoming(os.fa, 1 + k) == [NextFrame(os.fa)] + Upcoming(Taken(os.fa), k);
    assert NewTables(os, p, v) == Upcoming(Taken(os.fa), k);
    assert After(os.fa, 1 + k) == After(Taken(os.fa), k);
  }

  /** After alloc_and_map a page walks to its frame, exactly when there were frames enough
      and every table, old or new, that leads to it passes page_walk's size check. */
  lemma AllocThenWalk(os: Os, own: Owners, p: nat, v: nat)
    requires Running(os, own) && p < |os.roots| && Small(v)
    ensures var r := AllocAndMap(os, p, v);
            && r.Done? && r.value.1.Some? == Affords(os, p, v)
            && (Affords(os, p, v) ==>
                  WalkOf(r.value.0, p, v)
                      == if PathSoFarOf(os, p, v) && RoomForTables(os, p, v) then r.value.1 else None)
  {
    hide AllocAndMap, OsOk, LeavesIn, Walk, Small, MappedTo, PathOf, PathSoFarOf, RoomForTables, Affords;
    var own' := AllocAndMapWorks(os, own, p, v);
    var (os', got) := AllocAndMap(os, p, v).value;
    if got.Some? { MapThenWalk(os', own', p, v, got.value); }
  }

  /** If every table passed the check, every table still does exactly when there was room. */
  lemma StillFit(os: Os, own: Owners, p: nat, v: nat, os': Os, got: Option<nat>, own': Owners)
    requires Foretold(os, own, p, v, os', got, own') && TablesFit(|os.mem|, own)
    ensures TablesFit(|os.mem|, own') <==> RoomForTables(os, p, v)
  {
    hide NewTables, Affords, PathOf, PathSoFarOf;
    assert forall t :: t in own'.tables <==> t in own.tables || t in NewTables(os, p, v);
  }

  // ---------------------------------------------------------------------------
  // Runs of the mapper
  // ---------------------------------------------------------------------------

  /** n processes with empty roots in front of an allocator that has issued nothing. */
  function InitOs(n: nat, mem: seq<byte>, base: nat, limit: nat): Os {
    Os(seq(n, _ => seq(PAGE_TABLE_ENTRIES, _ => Pte(0, false))), mem, FrameAllocator(base, limit, []))
  }

  lemma InitRunning(n: nat, mem: seq<byte>, base: nat, limit: nat)
    requires base % PAGE_SIZE == 0 && base <= limit <= |mem| < WORD_LIMIT
    ensures Running(InitOs(n, mem, base, limit), Owners(base, map[], {}))
    ensures forall p: nat, v :: p < n ==> WalkOf(InitOs(n, mem, base, limit), p, v) == None
  {
  }

  /** A request to map a page of a process. */
  datatype Request = Request(proc: nat, page: nat)

  predicate Requests(os: Os, todo: seq<Request>) {
    forall i :: 0 <= i < |todo| ==> todo[i].proc < |os.roots| && Small(todo[i].page)
  }

  /** alloc_and_map of each requested page in turn. */
  function MapAll(os: Os, todo: seq<Request>): (r: Outcome<(Os, seq<Option<nat>>)>)
    requires Requests(os, todo)
    ensures r.Done? ==> |r.value.1| == |todo| && |r.value.0.roots| == |os.roots|
    decreases |todo|
  {
    if todo == [] then Done((os, [])) else
    var (os1, got) :- AllocAndMap(os, todo[0].proc, todo[0].page);
    var (os2, gots) :- MapAll(os1, todo[1..]);
    Done((os2, [got] + gots))
  }

  /** Before each call of the run, the tables it is about to create will pass page_walk's
      size check. */
  predicate AllHaveRoom(os: Os, todo: seq<Request>)
    requires Requests(os, todo)
    decreases |todo|
  {
    todo == [] ||
    (&& RoomForTables(os, todo[0].proc, todo[0].page)
     && var r := AllocAndMap(os, todo[0].proc, todo[0].page);
        r.Done? ==> AllHaveRoom(r.value.0, todo[1..]))
  }

  /** Free frames pass the check, and so will k more. */
  predicate Spare(fa: FrameAllocator, size: nat, k: nat) {
    && (forall f :: f in fa.freeList ==> f + TABLE_SIZE <= size)
    && fa.watermark + (k + 1) * PAGE_SIZE <= size
  }

  lemma {:induction false} SpareFrames(fa: FrameAllocator, size: nat, k: nat, n: nat)
    requires Spare(fa, size, k) && n <= k
    ensures AllTablesFit(size, Upcoming(fa, n)) && Spare(After(fa, n), size, k - n)
    decreases n
  {
    if n == 0 || OutOfFrames(fa) {
    } else {
      SpareTaken(fa, size, k);
      SpareFrames(Taken(fa), size, k - 1, n - 1);
      OneMoreTable(NextFrame(fa), Upcoming(Taken(fa), n - 1), size);
    }
  }

  lemma SpareTaken(fa: FrameAllocator, size: nat, k: nat)
    requires Spare(fa, size, k) && k > 0
    ensures Spare(Taken(fa), size, k - 1) && NextFrame(fa) + TABLE_SIZE <= size
  {
    if fa.freeList != [] {
      assert NextFrame(fa) in fa.freeList;
      forall f | f in Taken(fa).freeList ensures f in fa.freeList {}
    }
  }

  /** Four frames to spare are room for one more page. */
  lemma SpareIsRoom(os: Os, own: Owners, p: nat, v: nat, os': Os, got: Option<nat>, own': Owners, k: nat)
    requires Foretold(os, own, p, v, os', got, own') && Spare(os.fa, |os.mem|, k + 4)
    ensures RoomForTables(os, p, v) && Spare(os'.fa, |os.mem|, k)
  {
    hide Upcoming, After, MissingOf, PathOf, PathSoFarOf, Affords;
    MissingFew(os, p, v);
    var n := 1 + MissingOf(os, p, v);
    SpareFrames(os.fa, |os.mem|, k + 4, n);
    SpareTaken(os.fa, |os.mem|, k + 4);
    forall f | f in NewTables(os, p, v) ensures f in Upcoming(os.fa, n) {}
    forall f | f in FreeFrame(After(os.fa, n), NextFrame(os.fa)).freeList
      ensures f in After(os.fa, n).freeList || f == NextFrame(os.fa)
    {
    }
  }

  /** A mapping issues four frames at most. */
  lemma FewFrames(os: Os, own: Owners, p: nat, v: nat, os': Os, got: Option<nat>, own': Owners)
    requires Foretold(os, own, p, v, os', got, own')
    ensures os'.fa.watermark <= os.fa.watermark + 4 * PAGE_SIZE
  {
    hide NewTables, Affords, PathOf, PathSoFarOf, After;
    MissingFew(os, p, v);
    AfterIssues(os.fa, 1 + MissingOf(os, p, v));
  }

  lemma {:induction false} AfterIssues(fa: FrameAllocator, k: nat)
    ensures After(fa, k).watermark <= fa.watermark + k * PAGE_SIZE
    decreases k
  {
    if k == 0 || OutOfFrames(fa) {
    } else {
      AfterIssues(Taken(fa), k - 1);
    }
  }

  lemma MissingFew(os: Os, p: nat, v: nat)
    requires p < |os.roots|
    ensures MissingOf(os, p, v) <= 3
  {
    hide ReadPte, Idx;
    var entry := os.roots[p][Idx(v, 3)];
    if entry.present { MissingBelow(os.mem, entry.pa, 2, v); }
  }

  lemma {:induction false} MissingBelow(mem: seq<byte>, t: nat, l: nat, v: nat)
    requires l <= 2
    ensures Missing(mem, t, l, v) <= l
    decreases l
  {
    hide ReadPte, Idx;
    if l == 0 || Slot(t, v, l) + ENTRY_SIZE > |mem| {
    } else {
      MissingBelow(mem, ReadPte(mem, Slot(t, v, l)).pa, l - 1, v);
    }
  }

  /** Memory that reaches one frame past the last frame a run can take is room for the
      whole run, wherever the allocator's limit lies. */
  lemma {:induction false} EnoughMemory(os: Os, own: Owners, todo: seq<Request>)
    requires Running(os, own) && Requests(os, todo) && Spare(os.fa, |os.mem|, 4 * |todo|)
    ensures AllHaveRoom(os, todo)
    decreases |todo|
  {
    hide AllocAndMap, RoomForTables, Spare, Small, OsOk, LeavesIn, Foretold, MappedTo, OtherPages;
    if todo == [] {
    } else {
      var own1 := AllocAndMapWorks(os, own, todo[0].proc, todo[0].page);
      var (os1, got) := AllocAndMap(os, todo[0].proc, todo[0].page).value;
      SpareIsRoom(os, own, todo[0].proc, todo[0].page, os1, got, own1, 4 * |todo[1..]|);
      assert |os1.roots| == |os.roots| && |os1.mem| == |os.mem|;
      EnoughMemory(os1, own1, todo[1..]);
    }
  }

  predicate SameRequest(a: Request, b: Request) { SamePage(a.proc, a.page, b.proc, b.page) }

  /** Request i mapped its page and no later one mapped it again. */
  ghost predicate LastMap(todo: seq<Request>, gots: seq<Option<nat>>, i: nat) {
    && i < |todo| == |gots| && gots[i].Some?
    && forall j :: i < j < |todo| ==> gots[j].None? || !SameRequest(todo[j], todo[i])
  }

  /** The frames handed out are pairwise different and were in nobody's use. */
  ghost predicate FreshFrames(own: Owners, gots: seq<Option<nat>>, own': Owners) {
    && (forall i :: 0 <= i < |gots| && gots[i].Some? ==> !InUse(own, gots[i].value) && gots[i].value in own'.data)
    && (forall i, j :: 0 <= i < j < |gots| && gots[i].Some? ==> gots[i] != gots[j])
  }

  ghost predicate LastMapsWalk(os': Os, todo: seq<Request>, gots: seq<Option<nat>>)
    requires Requests(os', todo)
  {
    forall i :: 0 <= i < |todo| && LastMap(todo, gots, i) ==> WalkOf(os', todo[i].proc, todo[i].page) == gots[i]
  }

  predicate Unmapped(todo: seq<Request>, gots: seq<Option<nat>>, page: Request)
    requires |todo| == |gots|
  {
    forall i :: 0 <= i < |todo| ==> gots[i].None? || !SameRequest(todo[i], page)
  }

  ghost predicate OthersWalk(os: Os, os': Os, todo: seq<Request>, gots: seq<Option<nat>>)
    requires |todo| == |gots|
  {
    && |os'.roots| == |os.roots|
    && forall q: nat, u :: q < |os.roots| && Small(u) && Unmapped(todo, gots, Request(q, u)) ==>
        WalkOf(os', q, u) == WalkOf(os, q, u)
  }

  /** Over any run of alloc_and_map calls no two frames handed out are the same, none was
      in use before, every page walks to the frame of its last mapping, and pages never
      mapped walk as they did, in every process. */
  lemma {:induction false} MapAllWorks(os: Os, own: Owners, todo: seq<Request>) returns (own': Owners)
    requires Running(os, own) && TablesFit(|os.mem|, own) && Requests(os, todo) && AllHaveRoom(os, todo)
    ensures var r := MapAll(os, todo);
            && r.Done?
            && var (os', gots) := r.value;
               && Running(os', own') && TablesFit(|os'.mem|, own') && own.data <= own'.data
               && SameData(own, os.mem, os'.mem)
               && (forall t :: t in own.tables ==> t in own'.tables)
               && FreshFrames(own, gots, own') && LastMapsWalk(os', todo, gots) && OthersWalk(os, os', todo, gots)
    decreases |todo|
  {
    hide AllocAndMap, OsOk, LeavesIn, Walk, Small, Pre, MappedTo, FreshFrames, LastMapsWalk, OthersWalk, Foretold,
         RoomForTables, TablesFit;
    if todo == [] {
      own' := own;
      MapNone(os, own);
    } else {
      var own1 := AllocAndMapWorks(os, own, todo[0].proc, todo[0].page);
      var (os1, got) := AllocAndMap(os, todo[0].proc, todo[0].page).value;
      StillFit(os, own, todo[0].proc, todo[0].page, os1, got, own1);
      own' := MapAllWorks(os1, own1, todo[1..]);
      var (os2, gots) := MapAll(os1, todo[1..]).value;
      MoreFresh(own, got, own1, gots, own');
      MoreMaps(os, own, os1, got, own1, os2, todo, gots);
      MoreOthers(os, os1, os2, got, todo, gots);
    }
  }

  lemma MapNone(os: Os, own: Owners)
    ensures FreshFrames(own, [], own) && LastMapsWalk(os, [], []) && OthersWalk(os, os, [], [])
        && SameData(own, os.mem, os.mem)
  {
  }

  lemma MoreFresh(own: Owners, got: Option<nat>, own1: Owners, gots: seq<Option<nat>>, own': Owners)
    requires FreshFrames(own1, gots, own') && own1.data <= own'.data && forall t :: t in own.tables ==> t in own1.tables
    requires match got case None => own1.data == own.data case Some(f) => !InUse(own, f) && own1.data == own.data + {f}
    ensures FreshFrames(own, [got] + gots, own')
  {
    var all := [got] + gots;
    forall i | 0 <= i < |all| && all[i].Some? ensures !InUse(own, all[i].value) && all[i].value in own'.data {
      if i > 0 { assert all[i] == gots[i - 1] && !InUse(own1, gots[i - 1].value); }
    }
    forall i, j | 0 <= i < j < |all| && all[i].Some? ensures all[i] != all[j] {
      assert all[j] == gots[j - 1];
      if all[j].Some? { assert !InUse(own1, gots[j - 1].value); }
    }
  }

  lemma MoreMaps(os: Os, own: Owners, os1: Os, got: Option<nat>, own1: Owners, os2: Os, todo: seq<Request>,
                 gots: seq<Option<nat>>)
    requires todo != [] && |gots| == |todo[1..]| && Requests(os, todo) && TablesFit(|os1.mem|, own1)
    requires AllocMaps(os, own, todo[0].proc, todo[0].page, os1, got, own1)
    requires |os2.roots| == |os1.roots| == |os.roots|
    requires LastMapsWalk(os2, todo[1..], gots) && OthersWalk(os1, os2, todo[1..], gots)
    ensures LastMapsWalk(os2, todo, [got] + gots)
  {
    hide Walk, Small, AllocMaps, LastMap, OthersWalk;
    var all := [got] + gots;
    forall i | 0 <= i < |todo| && LastMap(todo, all, i) ensures WalkOf(os2, todo[i].proc, todo[i].page) == all[i] {
      if i == 0 { FirstMap(os, own, os1, got, own1, os2, todo, gots); } else {
        LastLater(todo, got, gots, i);
        assert todo[1..][i - 1] == todo[i] && all[i] == gots[i - 1];
      }
    }
  }

  lemma FirstMap(os: Os, own: Owners, os1: Os, got: Option<nat>, own1: Owners, os2: Os, todo: seq<Request>,
                 gots: seq<Option<nat>>)
    requires todo != [] && |gots| == |todo[1..]| && Requests(os, todo) && TablesFit(|os1.mem|, own1)
    requires AllocMaps(os, own, todo[0].proc, todo[0].page, os1, got, own1) && OthersWalk(os1, os2, todo[1..], gots)
    requires LastMap(todo, [got] + gots, 0) && |os2.roots| == |os.roots|
    ensures WalkOf(os2, todo[0].proc, todo[0].page) == got
  {
    hide Walk, Small, Pre, MappedTo, OsOk, LeavesIn;
    var p, v := todo[0].proc, todo[0].page;
    MapThenWalk(os1, own1, p, v, got.value);
    forall j | 0 <= j < |todo[1..]| ensures gots[j].None? || !SameRequest(todo[1..][j], Request(p, v)) {
      assert ([got] + gots)[j + 1] == gots[j];
    }
    assert Unmapped(todo[1..], gots, Request(p, v));
  }

  lemma LastLater(todo: seq<Request>, got: Option<nat>, gots: seq<Option<nat>>, i: nat)
    requires |gots| + 1 == |todo| && 0 < i < |todo| && LastMap(todo, [got] + gots, i)
    ensures LastMap(todo[1..], gots, i - 1)
  {
    hide SameRequest;
    var all := [got] + gots;
    assert all[i] == gots[i - 1];
    forall j | i - 1 < j < |todo[1..]| ensures gots[j].None? || !SameRequest(todo[1..][j], todo[1..][i - 1]) {
      assert all[j + 1] == gots[j];
    }
  }

  lemma MoreOthers(os: Os, os1: Os, os2: Os, got: Option<nat>, todo: seq<Request>, gots: seq<Option<nat>>)
    requires todo != [] && |gots| == |todo[1..]|
    requires OtherPages(os, os1, todo[0].proc, todo[0].page, got.Some?) && OthersWalk(os1, os2, todo[1..], gots)
    ensures OthersWalk(os, os2, todo, [got] + gots)
  {
    hide Walk, Small, Pre;
    var all := [got] + gots;
    forall q: nat, u | q < |os.roots| && Small(u) && Unmapped(todo, all, Request(q, u))
      ensures WalkOf(os2, q, u) == WalkOf(os, q, u)
    {
      assert all[0] == got;
      forall j | 0 <= j < |todo[1..]| ensures gots[j].None? || !SameRequest(todo[1..][j], Request(q, u)) {
        assert all[j + 1] == gots[j];
      }
      assert Unmapped(todo[1..], gots, Request(q, u));
    }
  }

  // ---------------------------------------------------------------------------
  // What the walks of a running system have in common
  // ---------------------------------------------------------------------------

  /** A completed walk ends at the page's own leaf entry. */
  lemma {:induction false} WalkLeaf(mem: seq<byte>, own: Owners, p: nat, t: nat, l: nat, u: nat) returns (leaf: nat)
    requires Tree(mem, own) && Serves(own, p, t, l, u) && WalkFrom(mem, t, l, u).Some?
    ensures Serves(own, p, leaf, 0, u) && Leaf(mem, own, leaf, Idx(u, 0))
    ensures WalkFrom(mem, t, l, u) == Some(EntryAt(mem, leaf, Idx(u, 0)).pa)
    decreases l
  {
    hide ReadPte, Tree, Idx;
    ServedBelow(mem, own, p, t, l, u);
    TreeFrame(mem, own, t);
    leaf := t;
    if l == 0 {
    } else {
      leaf := WalkLeaf(mem, own, p, EntryAt(mem, t, Idx(u, l)).pa, l - 1, u);
    }
  }

  /** Where a mapped page is: a whole frame in use as data, of its own. */
  lemma MappedFrame(os: Os, own: Owners, p: nat, u: nat)
    requires Running(os, own) && p < |os.roots| && Small(u) && WalkOf(os, p, u).Some?
    ensures var f := WalkOf(os, p, u).value; f in own.data && f % PAGE_SIZE == 0 && f + PAGE_SIZE <= |os.mem|
  {
    hide ReadPte, Tree, Idx;
    RootServes(os, own, p, u);
    var leaf := WalkLeaf(os.mem, own, p, os.roots[p][Idx(u, 3)].pa, 2, u);
    assert InUse(own, EntryAt(os.mem, leaf, Idx(u, 0)).pa);
    assert Issued(os.fa, own, EntryAt(os.mem, leaf, Idx(u, 0)).pa);
  }

  /** No two pages, of one process or of two, have the same frame. */
  lemma OwnFrames(os: Os, own: Owners, p: nat, u: nat, q: nat, w: nat)
    requires Running(os, own) && p < |os.roots| && q < |os.roots| && Small(u) && Small(w)
    requires WalkOf(os, p, u).Some? && WalkOf(os, p, u) == WalkOf(os, q, w)
    ensures SamePage(p, u, q, w)
  {
    hide ReadPte, Tree, Idx, Partition;
    RootServes(os, own, p, u);
    RootServes(os, own, q, w);
    var a := WalkLeaf(os.mem, own, p, os.roots[p][Idx(u, 3)].pa, 2, u);
    var b := WalkLeaf(os.mem, own, q, os.roots[q][Idx(w, 3)].pa, 2, w);
    PreStep(u, 0);
    PreStep(w, 0);
  }

  /** The frame of an address. */
  function FrameBase(a: nat): nat { a - a % PAGE_SIZE }

  /** Bytes of tables stay. */
  ghost predicate SameTableBytes(own: Owners, mem: seq<byte>, mem': seq<byte>) {
    |mem'| == |mem| && forall a: nat :: a < |mem| && FrameBase(a) in own.tables ==> mem'[a] == mem[a]
  }

  lemma SameEntry(mem: seq<byte>, mem': seq<byte>, own: Owners, t: nat, i: nat)
    requires Tree(mem, own) && SameTableBytes(own, mem, mem') && t in own.tables && i < ENTRIES_IN_FRAME
    ensures t + PAGE_SIZE <= |mem| && EntryAt(mem', t, i) == EntryAt(mem, t, i)
  {
    hide EntryOk, Word;
    var a := t + ENTRY_SIZE * i;
    forall b: nat | a <= b < a + ENTRY_SIZE ensures mem'[b] == mem[b] { assert FrameBase(b) == t; }
    assert mem'[a..a + 8] == mem[a..a + 8];
  }

  /** Writes outside the tables change no translation. */
  lemma TablesUntouched(os: Os, os': Os, own: Owners)
    requires Running(os, own) && os'.roots == os.roots && os'.fa == os.fa && SameTableBytes(own, os.mem, os'.mem)
    ensures Running(os', own)
    ensures forall p: nat, u :: p < |os.roots| && Small(u) ==> WalkOf(os', p, u) == WalkOf(os, p, u)
  {
    hide ReadPte, Partition;
    forall t, i | t in own.tables && 0 <= i < ENTRIES_IN_FRAME
      ensures EntryOk(os'.mem, own, t, i) && EntryAt(os'.mem, t, i) == EntryAt(os.mem, t, i)
    {
      SameEntry(os.mem, os'.mem, own, t, i);
      assert EntryOk(os.mem, own, t, i);
    }
    forall t, i | Leaf(os'.mem, own, t, i)
      ensures Leaf(os.mem, own, t, i) && EntryAt(os'.mem, t, i) == EntryAt(os.mem, t, i)
    {
      SameEntry(os.mem, os'.mem, own, t, i);
    }
    SameLeaves(os.mem, own, os'.mem, own, own.data);
    forall p: nat, u | p < |os.roots| && Small(u) ensures WalkOf(os', p, u) == WalkOf(os, p, u) {
      if os.roots[p][Idx(u, 3)].present {
        RootServes(os, own, p, u);
        UntouchedWalk(os.mem, os'.mem, own, p, os.roots[p][Idx(u, 3)].pa, 2, u);
      }
    }
  }

  lemma {:induction false} UntouchedWalk(mem: seq<byte>, mem': seq<byte>, own: Owners, p: nat, t: nat, l: nat, u: nat)
    requires Tree(mem, own) && SameTableBytes(own, mem, mem') && Serves(own, p, t, l, u)
    ensures WalkFrom(mem', t, l, u) == WalkFrom(mem, t, l, u)
    decreases l
  {
    hide ReadPte, Tree, Idx, SameTableBytes;
    ServedBelow(mem, own, p, t, l, u);
    SameEntry(mem, mem', own, t, Idx(u, l));
    assert |mem'| == |mem| by { SizesSame(own, mem, mem'); }
    if l == 0 || !EntryAt(mem, t, Idx(u, l)).present || !TableFits(mem, t) {
    } else {
      UntouchedWalk(mem, mem', own, p, EntryAt(mem, t, Idx(u, l)).pa, l - 1, u);
    }
  }

  lemma SizesSame(own: Owners, mem: seq<byte>, mem': seq<byte>)
    requires SameTableBytes(own, mem, mem')
    ensures |mem'| == |mem|
  {
  }

  // ---------------------------------------------------------------------------
  // A table in the last frame
  // ---------------------------------------------------------------------------

  /** From a new process, in memory that ends with the fourth frame handed out: page v is
      mapped, but the table that holds its entry is the last frame, which page_walk rejects. */
  lemma LastFrameIsRejected(mem: seq<byte>, base: nat, v: nat)
    requires base % PAGE_SIZE == 0 && |mem| == base + 4 * PAGE_SIZE < WORD_LIMIT && Small(v)
    ensures var r := AllocAndMap(InitOs(1, mem, base, |mem|), 0, v);
            r.Done? && r.value.1 == Some(base) && WalkOf(r.value.0, 0, v) == None
  {
    hide AllocAndMap, Walk, Small, Idx;
    var os, own := InitOs(1, mem, base, |mem|), Owners(base, map[], {});
    InitRunning(1, mem, base, |mem|);
    AllocThenWalk(os, own, 0, v);
    FourFrames(base, |mem|);
    assert MissingOf(os, 0, v) == 3;
    assert base + 3 * PAGE_SIZE in NewTables(os, 0, v) by { assert NewTables(os, 0, v)[2] == base + 3 * PAGE_SIZE; }
    var own' := AllocAndMapWorks(os, own, 0, v);
  }

  lemma FourFrames(base: nat, limit: nat)
    requires base + 4 * PAGE_SIZE <= limit
    ensures Upcoming(FrameAllocator(base, limit, []), 4)
         == [base, base + PAGE_SIZE, base + 2 * PAGE_SIZE, base + 3 * PAGE_SIZE]
    ensures Upcoming(FrameAllocator(base, limit, []), 3) == [base, base + PAGE_SIZE, base + 2 * PAGE_SIZE]
  {
    var fa0, fa1 := FrameAllocator(base, limit, []), FrameAllocator(base + PAGE_SIZE, limit, []);
    var fa2, fa3 := FrameAllocator(base + 2 * PAGE_SIZE, limit, []), FrameAllocator(base + 3 * PAGE_SIZE, limit, []);
    assert Upcoming(fa3, 1) == [base + 3 * PAGE_SIZE] && Upcoming(fa3, 0) == [];
    assert Upcoming(fa2, 2) == [base + 2 * PAGE_SIZE] + Upcoming(fa3, 1);
    assert Upcoming(fa2, 1) == [base + 2 * PAGE_SIZE] + Upcoming(fa3, 0);
    assert Upcoming(fa1, 3) == [base + PAGE_SIZE] + Upcoming(fa2, 2);
    assert Upcoming(fa1, 2) == [base + PAGE_SIZE] + Upcoming(fa2, 1);
    assert Upcoming(fa0, 4) == [base] + Upcoming(fa1, 3);
    assert Upcoming(fa0, 3) == [base] + Upcoming(fa1, 2);
  }
}
