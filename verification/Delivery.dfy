/** The ring buffer of benchmarks/producer_consumer.cpp on the whole machine: its pages are
    mapped by alloc_and_map and its threads load and store by virtual address. */
module Delivery {
  import opened Types
  import opened Paging
  import opened Frames
  import opened Mapping
  import opened System
  import opened Virtual
  import opened Fitting
  import opened Remap
  import opened RingBuffer
  import C = Caches
  import M = Machine
  import W = WorkingSet

  // ---------------------------------------------------------------------------
  // Pages in a row as one stretch of memory
  // ---------------------------------------------------------------------------

  /** How many page numbers page_walk tells apart. */
  const PAGE_NUMBERS: nat := 68719476736

  /** Pages first to first + n - 1, each with its own entry. */
  ghost predicate Row(first: nat, n: nat) {
    first + n <= PAGE_NUMBERS && forall u: nat :: InRange(u, first, n) ==> Small(u)
  }

  predicate InRange(u: nat, first: nat, n: nat) { first <= u < first + n }

  /** The j-th page from the first on is mapped. */
  predicate Held(v: VirtualState, first: nat, j: nat) {
    var key := (v.active, Pre(first + j, 0)); key in v.pages && |v.pages[key]| == PAGE_SIZE
  }

  predicate AllHeld(v: VirtualState, first: nat, n: nat) { forall j: nat :: j < n ==> Held(v, first, j) }

  function ByteOf(v: VirtualState, first: nat, a: nat): byte
    requires Held(v, first, a / PAGE_SIZE)
  {
    v.pages[(v.active, Pre(first + a / PAGE_SIZE, 0))][a % PAGE_SIZE]
  }

  /** Their bytes, page after page. */
  function RowBytes(v: VirtualState, first: nat, n: nat): (r: seq<byte>)
    requires AllHeld(v, first, n)
    ensures |r| == n * PAGE_SIZE
  {
    seq(n * PAGE_SIZE, a requires 0 <= a < n * PAGE_SIZE => ByteOf(v, first, a))
  }

  /** An access at an offset from the first page. */
  function CallOf(first: nat, op: M.Op): Call { Access(op.core, PAGE_SIZE * first + op.pa, op.kind, op.stamp) }

  predicate Inside(n: nat, op: M.Op) {
    !op.kind.Fetching? && op.Width() > 0 && op.Fits(2) && op.pa + op.Width() <= n * PAGE_SIZE
  }

  lemma Shifted(first: nat, a: nat)
    ensures var va := PAGE_SIZE * first + a;
            va / PAGE_SIZE == first + a / PAGE_SIZE && va % PAGE_SIZE == a % PAGE_SIZE && va % 64 == a % 64
  {
    Modulo(PAGE_SIZE * first + a, PAGE_SIZE, first + a / PAGE_SIZE, a % PAGE_SIZE);
    Modulo(PAGE_SIZE * first + a, 64, 64 * first + a / 64, a % 64);
  }

  lemma BelowPages(n: nat, a: nat)
    ensures a < n * PAGE_SIZE <==> a / PAGE_SIZE < n
  {
  }

  lemma Offsets(first: nat, n: nat, op: M.Op)
    requires op.Fits(2)
    ensures var va := CallOf(first, op).va;
            && va / 4096 == first + op.pa / 4096 && va % 4096 == op.pa % 4096
            && va % 64 + op.Width() <= LINE_SIZE && op.pa % 4096 + op.Width() <= PAGE_SIZE
    ensures Inside(n, op) ==> op.pa / 4096 < n
  {
    Shifted(first, op.pa);
    SameOffset(op.pa);
    AtOffset(0, op.pa % 4096, op.Width());
    BelowPages(n, op.pa);
  }

  lemma SliceOfPage(v: VirtualState, first: nat, n: nat, k: nat, o: nat, size: nat)
    requires AllHeld(v, first, n) && k < n && o + size <= PAGE_SIZE
    ensures Held(v, first, k) && k * PAGE_SIZE + PAGE_SIZE <= n * PAGE_SIZE
    ensures RowBytes(v, first, n)[k * PAGE_SIZE + o..k * PAGE_SIZE + o + size]
         == v.pages[(v.active, Pre(first + k, 0))][o..o + size]
  {
    assert Held(v, first, k);
    var row := RowBytes(v, first, n)[k * PAGE_SIZE + o..k * PAGE_SIZE + o + size];
    var page := v.pages[(v.active, Pre(first + k, 0))];
    forall i | 0 <= i < size ensures row[i] == page[o..o + size][i] {
      assert (k * PAGE_SIZE + (o + i)) / PAGE_SIZE == k;
    }
  }

  function Patched(v: VirtualState, first: nat, k: nat, o: nat, bytes: seq<byte>): VirtualState
    requires Held(v, first, k) && o + |bytes| <= PAGE_SIZE
  {
    var key := (v.active, Pre(first + k, 0)); v.(pages := v.pages[key := PatchPage(v.pages[key], o, bytes)])
  }

  lemma PatchedPageByte(v: VirtualState, first: nat, n: nat, k: nat, o: nat, bytes: seq<byte>, j: nat, i: nat)
    requires Held(v, first, k) && o + |bytes| <= PAGE_SIZE && first + n <= PAGE_NUMBERS
    requires k < n && j < n && Held(v, first, j) && i < PAGE_SIZE
    ensures var v' := Patched(v, first, k, o, bytes);
            && Held(v', first, j)
            && v'.pages[(v.active, Pre(first + j, 0))][i]
            == if j == k && o <= i < o + |bytes| then bytes[i - o] else v.pages[(v.active, Pre(first + j, 0))][i]
  {
    assert Pre(first + j, 0) == first + j && Pre(first + k, 0) == first + k;
  }

  lemma SameProcess(v: VirtualState, first: nat, k: nat, o: nat, bytes: seq<byte>)
    requires Held(v, first, k) && o + |bytes| <= PAGE_SIZE
    ensures Patched(v, first, k, o, bytes).active == v.active
  {
  }

  lemma WherePatched(a: nat, k: nat, o: nat, size: nat)
    requires o + size <= PAGE_SIZE
    ensures var pa := k * PAGE_SIZE + o;
            && (pa <= a < pa + size <==> a / PAGE_SIZE == k && o <= a % PAGE_SIZE < o + size)
            && (a / PAGE_SIZE == k ==> a - pa == a % PAGE_SIZE - o)
  {
    assert a == PAGE_SIZE * (a / PAGE_SIZE) + a % PAGE_SIZE;
  }

  /** Patching one page stores the bytes at its place in the row. */
  lemma PatchedIsStored(v: VirtualState, first: nat, n: nat, k: nat, o: nat, bytes: seq<byte>)
    requires AllHeld(v, first, n) && first + n <= PAGE_NUMBERS && k < n && o + |bytes| <= PAGE_SIZE
    ensures Held(v, first, k) && AllHeld(Patched(v, first, k, o, bytes), first, n)
    ensures k * PAGE_SIZE + o + |bytes| <= n * PAGE_SIZE
    ensures RowBytes(Patched(v, first, k, o, bytes), first, n)
         == M.Stored(RowBytes(v, first, n), k * PAGE_SIZE + o, bytes)
  {
    hide Patched, Pre;
    assert Held(v, first, k);
    var v', pa := Patched(v, first, k, o, bytes), k * PAGE_SIZE + o;
    assert v'.active == v.active by { SameProcess(v, first, k, o, bytes); }
    forall j: nat | j < n ensures Held(v', first, j) {
      assert Held(v, first, j);
      PatchedPageByte(v, first, n, k, o, bytes, j, 0);
    }
    SliceOfPage(v, first, n, k, o, |bytes|);
    forall a: nat | a < n * PAGE_SIZE
      ensures RowBytes(v', first, n)[a] == if pa <= a < pa + |bytes| then bytes[a - pa] else RowBytes(v, first, n)[a]
    {
      assert Held(v, first, a / PAGE_SIZE);
      PatchedPageByte(v, first, n, k, o, bytes, a / PAGE_SIZE, a % PAGE_SIZE);
      WherePatched(a, k, o, |bytes|);
    }
  }

  /** An access by virtual address is the same access to the row. */
  lemma StepIsFlat(v: VirtualState, first: nat, n: nat, op: M.Op, answer: Answer)
    requires AllHeld(v, first, n) && first + n <= PAGE_NUMBERS && Inside(n, op)
    requires VirtualStep(v, CallOf(first, op), answer).Some?
    ensures var v' := VirtualStep(v, CallOf(first, op), answer).value;
            && AllHeld(v', first, n)
            && (RowBytes(v', first, n), answer) == (var r := M.FlatStep(RowBytes(v, first, n), op); (r.0, Got(r.1)))
  {
    hide Pre, RowBytes, PatchPage;
    Offsets(first, n, op);
    var v' := VirtualStep(v, CallOf(first, op), answer).value;
    var k, o := op.pa / PAGE_SIZE, op.pa % PAGE_SIZE;
    assert Held(v, first, k);
    assert op.pa == k * PAGE_SIZE + o;
    if op.kind.Store? {
      PatchedIsStored(v, first, n, k, o, op.kind.bytes);
    } else {
      SliceOfPage(v, first, n, k, o, op.Width());
      assert v' == v by { var key := (v.active, Pre(first + k, 0)); assert v.pages[key := v.pages[key]] == v.pages; }
    }
  }

  // ---------------------------------------------------------------------------
  // Accesses to the mapped pages
  // ---------------------------------------------------------------------------

  /** A machine that has lost nothing, whose data frames fit L2 and whose running process
      has the pages mapped. */
  ghost predicate Ready(y: System, own: Owners, v: VirtualState, first: nat, n: nat) {
    && SysOk(y, own) && y.caches.lossless && Mirrors(y, v) && W.FitsL2(Numbers(own.data))
    && Row(first, n) && AllHeld(v, first, n) && |y.tlbs| >= 2
  }

  predicate Sized(y: System) { |y.tlbs| == |y.caches.cores| >= 2 && y.active < |y.roots| }

  lemma CallFits(y: System, first: nat, op: M.Op)
    requires Sized(y) && op.Fits(2)
    ensures Fits(y, CallOf(first, op))
  {
    Offsets(first, 0, op);
  }

  /** Such an access completes, and is one on flat memory. */
  lemma AccessIsFlatStep(y: System, own: Owners, v: VirtualState, first: nat, n: nat, op: M.Op)
    returns (v': VirtualState)
    requires Ready(y, own, v, first, n) && Inside(n, op)
    ensures Fits(y, CallOf(first, op))
    ensures var r := Step(y, CallOf(first, op));
            && r.Done?
            && var (y', answer) := r.value;
               && Ready(y', own, v', first, n)
               && (RowBytes(v', first, n), answer) == (var f := M.FlatStep(RowBytes(v, first, n), op); (f.0, Got(f.1)))
  {
    hide Running, M.Good, CachedData, AllTlbsOk, TablesFit, Mirrors, VirtualStep, LosesBytes, Walk, Small, W.FitsL2,
         Step, M.FlatStep, RowBytes, Numbers, M.Step;
    var call := CallOf(first, op);
    CallFits(y, first, op);
    Offsets(first, n, op);
    assert InRange(call.va / 4096, first, n);
    assert Tame(y, call);
    AccessKeeps(y, own, call);
    FittingLosesNothing(y, own, call);
    AccessIsVirtual(y, own, v, call);
    var (y', answer) := Step(y, call).value;
    v' := VirtualStep(v, call, answer).value;
    StepIsFlat(v, first, n, op, answer);
  }

  // ---------------------------------------------------------------------------
  // The threads
  // ---------------------------------------------------------------------------

  /** A turn whose access is a call by virtual address. The source would go on after a page
      fault with a local variable that nothing has set. */
  function SystemTurn(at: Layout, first: nat, y: System, t: Threads, turn: Turn): (r: Outcome<(System, Threads)>)
    requires at.Sound() && Sized(y)
    ensures r.Done? ==> Sized(r.value.0)
  {
    if Finished(at, t, turn) then Done((y, t)) else
    IssueInQueue(at, t, turn);
    CallFits(y, first, Issue(at, t, turn));
    var (y', answer) :- Step(y, CallOf(first, Issue(at, t, turn)));
    if answer.Got? then Done((y', Resume(at, t, turn, answer.bytes))) else Abort
  }

  function SystemTurns(at: Layout, first: nat, y: System, t: Threads, turns: seq<Turn>)
    : (r: Outcome<(System, Threads)>)
    requires at.Sound() && Sized(y)
    ensures r.Done? ==> Sized(r.value.0)
    decreases |turns|
  {
    if turns == [] then Done((y, t)) else
    var (y1, t1) :- SystemTurn(at, first, y, t, turns[0]);
    SystemTurns(at, first, y1, t1, turns[1..])
  }

  /** The queue starts with the first page and ends inside the last one. */
  predicate QueueIn(at: Layout, n: nat) {
    at.base == 0 && at.Sound() && LINE_SIZE + 4 * at.slots <= n * PAGE_SIZE
  }

  lemma NeverFetches(at: Layout, t: Threads, turn: Turn)
    requires at.slots > 0
    ensures !Issue(at, t, turn).kind.Fetching?
  {
    hide WordBytes;
  }

  lemma ReadySized(y: System, own: Owners, v: VirtualState, first: nat, n: nat)
    requires Ready(y, own, v, first, n)
    ensures Sized(y) && AllHeld(v, first, n)
  {
  }

  /** Each turn completes, and is a turn on flat memory. */
  lemma SystemTurnIsFlat(at: Layout, y: System, own: Owners, v: VirtualState, first: nat, n: nat,
                         t: Threads, turn: Turn)
    returns (v': VirtualState)
    requires Ready(y, own, v, first, n) && QueueIn(at, n)
    ensures Sized(y)
    ensures var r := SystemTurn(at, first, y, t, turn);
            && r.Done?
            && var (y', t') := r.value;
               && Ready(y', own, v', first, n)
               && (RowBytes(v', first, n), t') == Turned(at, RowBytes(v, first, n), t, turn)
  {
    hide Ready, Word, M.FlatStep, Resume, Step, RowBytes, Issue;
    ReadySized(y, own, v, first, n);
    v' := v;
    if !Finished(at, t, turn) {
      IssueInQueue(at, t, turn);
      assert !Issue(at, t, turn).kind.Fetching? by { NeverFetches(at, t, turn); }
      v' := AccessIsFlatStep(y, own, v, first, n, Issue(at, t, turn));
    }
  }

  lemma {:induction false} SystemTurnsAreFlat(at: Layout, y: System, own: Owners, v: VirtualState, first: nat, n: nat,
                                              t: Threads, turns: seq<Turn>)
    returns (v': VirtualState)
    requires Ready(y, own, v, first, n) && QueueIn(at, n)
    ensures Sized(y)
    ensures var r := SystemTurns(at, first, y, t, turns);
            && r.Done?
            && var (y', t') := r.value;
               && Ready(y', own, v', first, n)
               && (RowBytes(v', first, n), t') == TurnAll(at, RowBytes(v, first, n), t, turns)
    decreases |turns|
  {
    hide Ready, SystemTurn, Turned, RowBytes, AllHeld;
    ReadySized(y, own, v, first, n);
    v' := v;
    if turns == [] {
    } else {
      var v1 := SystemTurnIsFlat(at, y, own, v, first, n, t, turns[0]);
      var (y1, t1) := SystemTurn(at, first, y, t, turns[0]).value;
      ReadySized(y1, own, v1, first, n);
      v' := SystemTurnsAreFlat(at, y1, own, v1, first, n, t1, turns[1..]);
    }
  }

  // ---------------------------------------------------------------------------
  // Mapping the queue
  // ---------------------------------------------------------------------------

  /** alloc_and_map of n pages in a row. */
  function MapRow(y: System, first: nat, n: nat): (r: Outcome<System>)
    requires Sized(y)
    ensures r.Done? ==> Sized(r.value)
    decreases n
  {
    if n == 0 then Done(y) else
    var (y1, _) :- Step(y, MapNew(y.active, first));
    MapRow(y1, first + 1, n - 1)
  }

  /** Memory for k more pages and their tables. */
  predicate MemoryFor(y: System, k: nat) {
    && Spare(y.fa, |y.caches.mem|, 4 * k) && y.fa.watermark + (4 * k + 1) * PAGE_SIZE <= y.fa.limit
  }

  /** A machine that has lost nothing and has memory for k more pages. */
  ghost predicate ReadyToMap(y: System, own: Owners, v: VirtualState, k: nat) {
    SysOk(y, own) && y.caches.lossless && Mirrors(y, v) && MemoryFor(y, k) && Sized(y)
  }

  lemma SpareLess(fa: FrameAllocator, size: nat, k: nat, l: nat)
    requires Spare(fa, size, k) && l <= k
    ensures Spare(fa, size, l)
  {
  }

  /** With memory for it, an unmapped page gets mapped to zeros. */
  lemma PageMapped(y: System, own: Owners, v: VirtualState, u: nat, k: nat) returns (own': Owners)
    requires ReadyToMap(y, own, v, k + 1) && Small(u) && Lookup(v, y.active, u) == None
    ensures var r := Step(y, MapNew(y.active, u));
            && r.Done?
            && var y' := r.value.0;
               && ReadyToMap(y', own', v.(pages := v.pages[(y.active, Pre(u, 0)) := seq(PAGE_SIZE, _ => 0)]), k)
               && y'.active == y.active && own'.base == own.base
               && y'.fa.watermark <= y.fa.watermark + 4 * PAGE_SIZE
  {
    hide Walk, Small, OsOk, LeavesIn, M.Good, AllTlbsOk, CachedData, FrameBytes, MappedTo, AllocAndMap, Blank,
         SameData, Foretold, RoomForTables, Outdates, Spare, TablesFit, Pre;
    var p := y.active;
    assert WalkOf(OsOf(y), p, u) == None by {
      assert Page(y, p, u) == None;
      if WalkOf(OsOf(y), p, u).Some? { MappedFrame(OsOf(y), own, p, u); }
    }
    assert Spare(y.fa, |y.caches.mem|, 4) by { SpareLess(y.fa, |y.caches.mem|, 4 * k + 4, 4); }
    NewPageIsTame(y, own, p, u);
    var own1 := AllocAndMapWorks(OsOf(y), own, p, u);
    var (os', got) := AllocAndMap(OsOf(y), p, u).value;
    SpareIsRoom(OsOf(y), own, p, u, os', got, own1, 4 * k);
    FewFrames(OsOf(y), own, p, u, os', got, own1);
    own' := MapPages(y, own, p, u);
    MapIsVirtual(y, Step(y, MapNew(p, u)).value.0, v, p, u, got);
  }

  /** None of the pages is mapped. */
  ghost predicate NoneMapped(v: VirtualState, first: nat, n: nat) {
    forall u: nat :: InRange(u, first, n) ==> (v.active, Pre(u, 0)) !in v.pages
  }

  lemma SameActive(y: System, own: Owners, v: VirtualState, n: nat)
    requires ReadyToMap(y, own, v, n)
    ensures v.active == y.active && Sized(y)
  {
  }

  lemma RestUnmapped(v: VirtualState, v1: VirtualState, first: nat, n: nat)
    requires first + n <= PAGE_NUMBERS && n > 0 && NoneMapped(v, first, n)
    requires v1.active == v.active && v1.pages.Keys == v.pages.Keys + {(v.active, Pre(first, 0))}
    ensures NoneMapped(v1, first + 1, n - 1)
  {
    forall u: nat | InRange(u, first + 1, n - 1) ensures (v1.active, Pre(u, 0)) !in v1.pages {
      assert InRange(u, first, n) && Pre(u, 0) != Pre(first, 0);
    }
  }

  /** With memory for them, all the pages get mapped, and no page that was mapped is lost. */
  lemma {:induction false} RowMapped(y: System, own: Owners, v: VirtualState, first: nat, n: nat)
    returns (own': Owners, v': VirtualState)
    requires ReadyToMap(y, own, v, n) && Row(first, n) && NoneMapped(v, first, n)
    ensures var r := MapRow(y, first, n);
            && r.Done?
            && var y' := r.value;
               && ReadyToMap(y', own', v', 0) && AllHeld(v', first, n) && v'.active == v.active
               && own'.base == own.base && y'.fa.watermark <= y.fa.watermark + 4 * n * PAGE_SIZE
    ensures forall key :: key in v.pages ==> key in v'.pages && |v'.pages[key]| == |v.pages[key]|
    decreases n
  {
    hide ReadyToMap, Small, Step, Pre;
    own', v' := own, v;
    SameActive(y, own, v, n);
    if n == 0 {
    } else {
      var u := first;
      assert InRange(u, first, n);
      var own1 := PageMapped(y, own, v, u, n - 1);
      var y1 := Step(y, MapNew(y.active, u)).value.0;
      var v1 := v.(pages := v.pages[(y.active, Pre(u, 0)) := seq(PAGE_SIZE, _ => 0)]);
      RestUnmapped(v, v1, first, n);
      forall w: nat | InRange(w, first + 1, n - 1) ensures Small(w) { assert InRange(w, first, n); }
      own', v' := RowMapped(y1, own1, v1, first + 1, n - 1);
      forall j: nat | j < n ensures Held(v', first, j) {
        if j == 0 { assert (v.active, Pre(u, 0)) in v1.pages; } else { assert Held(v', first + 1, j - 1); }
      }
    }
  }

  // ---------------------------------------------------------------------------
  // The benchmark
  // ---------------------------------------------------------------------------

  /** From power-on: the queue's pages are mapped, core 0 clears head and tail, and the
      threads run. */
  function Benchmark(at: Layout, first: nat, n: nat, y: System, turns: seq<Turn>): Outcome<(System, Threads)>
    requires QueueIn(at, n) && Sized(y)
  {
    var y1 :- MapRow(y, first, n);
    HeadAndTail(at);
    CallFits(y1, first, StoreWord(0, at.Head(), 0));
    var (y2, _) :- Step(y1, CallOf(first, StoreWord(0, at.Head(), 0)));
    CallFits(y2, first, StoreWord(0, at.Tail(), 0));
    var (y3, _) :- Step(y2, CallOf(first, StoreWord(0, at.Tail(), 0)));
    SystemTurns(at, first, y3, Start(), turns)
  }

  /** Head and tail are cleared in the mapped row. */
  lemma IndicesCleared(at: Layout, y: System, own: Owners, v: VirtualState, first: nat, n: nat)
    returns (v': VirtualState)
    requires Ready(y, own, v, first, n) && QueueIn(at, n)
    ensures var head, tail := CallOf(first, StoreWord(0, at.Head(), 0)), CallOf(first, StoreWord(0, at.Tail(), 0));
            && Fits(y, head) && Step(y, head).Done?
            && var y1 := Step(y, head).value.0;
               && Fits(y1, tail) && Step(y1, tail).Done?
               && Ready(Step(y1, tail).value.0, own, v', first, n)
    ensures AllHeld(v', first, n)
    ensures var mem := RowBytes(v', first, n); WordAt(mem, at.Head()) == 0 && WordAt(mem, at.Tail()) == 0
  {
    hide Ready, Word, WordBytes, Step, RowBytes, WordAt, M.Stored, AllHeld;
    HeadAndTail(at);
    ReadySized(y, own, v, first, n);
    var head, tail := StoreWord(0, at.Head(), 0), StoreWord(0, at.Tail(), 0);
    var v1 := AccessIsFlatStep(y, own, v, first, n, head);
    var y1 := Step(y, CallOf(first, head)).value.0;
    ReadySized(y1, own, v1, first, n);
    v' := AccessIsFlatStep(y1, own, v1, first, n, tail);
    ReadySized(Step(y1, CallOf(first, tail)).value.0, own, v', first, n);
    WordStored(RowBytes(v, first, n), at.Head(), 0, at.Head());
    WordStored(RowBytes(v1, first, n), at.Tail(), 0, at.Head());
    WordStored(RowBytes(v1, first, n), at.Tail(), 0, at.Tail());
  }

  lemma MappedIsReady(y: System, own: Owners, v: VirtualState, first: nat, n: nat)
    requires ReadyToMap(y, own, v, 0) && Row(first, n) && AllHeld(v, first, n)
    requires y.fa.watermark <= own.base + PAGE_SIZE * MAX_PAGES
    ensures Ready(y, own, v, first, n)
  {
    hide SysOk, Mirrors, W.FitsL2, W.Window, AllHeld, Row, MemoryFor, Numbers;
    DataIsFew(y, own);
    W.WindowFits(own.base / PAGE_SIZE, MAX_PAGES);
    FewerFit(Numbers(own.data), Pages(own.base));
  }

  /** Power-on: a machine of one process with memory for n pages, whatever the memory holds. */
  predicate PowerOn(n: nat, cores: nat, mem: seq<byte>, base: nat, limit: nat) {
    cores >= 2 && base % PAGE_SIZE == 0 && base + (4 * n + 1) * PAGE_SIZE <= limit <= |mem| < WORD_LIMIT
  }

  /** What is there when the threads start. */
  lemma SetUp(at: Layout, first: nat, n: nat, cores: nat, mem: seq<byte>, base: nat, limit: nat)
    returns (y': System, own: Owners, v: VirtualState)
    requires QueueIn(at, n) && Row(first, n) && n <= 256 && PowerOn(n, cores, mem, base, limit)
    ensures Ready(y', own, v, first, n) && Sized(y') && AllHeld(v, first, n)
    ensures WordAt(RowBytes(v, first, n), at.Head()) == 0 && WordAt(RowBytes(v, first, n), at.Tail()) == 0
    ensures var y := Init(cores, 1, mem, base, limit);
            && Sized(y)
            && forall turns :: Benchmark(at, first, n, y, turns) == SystemTurns(at, first, y', Start(), turns)
  {
    hide Ready, Step, RowBytes, WordAt, SysOk, Mirrors, Clean, Init, AllHeld, SystemTurns, Row;
    var y := Init(cores, 1, mem, base, limit);
    InitWorks(cores, 1, mem, base, limit);
    InitFits(cores, mem, base, limit);
    CleanIsLossless(y);
    var v1;
    own, v1 := RowMapped(y, Owners(base, map[], {}), VirtualState(map[], 0), first, n);
    var y1 := MapRow(y, first, n).value;
    MappedIsReady(y1, own, v1, first, n);
    v := IndicesCleared(at, y1, own, v1, first, n);
    var y2 := Step(y1, CallOf(first, StoreWord(0, at.Head(), 0))).value.0;
    y' := Step(y2, CallOf(first, StoreWord(0, at.Tail(), 0))).value.0;
    ReadySized(y', own, v, first, n);
  }

  /** The benchmark as it is: its pages mapped by alloc_and_map, every load and store
      translated and through the caches of any number of cores. From power-on, whatever
      memory held, it completes without a page fault and, however its threads interleave, its
      items arrive once and in order. */
  lemma BenchmarkDelivers(at: Layout, first: nat, n: nat, cores: nat, mem: seq<byte>, base: nat, limit: nat,
                          turns: seq<Turn>)
    requires QueueIn(at, n) && Row(first, n) && n <= 256 && PowerOn(n, cores, mem, base, limit)
    ensures var y := Init(cores, 1, mem, base, limit);
            && Sized(y)
            && var r := Benchmark(at, first, n, y, turns);
               && r.Done?
               && var t := r.value.1;
                  && (forall m :: 0 <= m < |t.consumed| ==> t.consumed[m] == m)
                  && |t.consumed| <= t.i <= at.items
                  && (t.j == at.items ==> t.consumed == seq(at.items, m => m))
  {
    hide Ready, RowBytes, WordAt, Init, AllHeld, SystemTurns, TurnAll, Row, Benchmark;
    var y', own, v := SetUp(at, first, n, cores, mem, base, limit);
    var v' := SystemTurnsAreFlat(at, y', own, v, first, n, Start(), turns);
    ItemsArriveInOrder(at, RowBytes(v, first, n), turns);
  }

  /** And no interleaving gets it stuck: whatever turns were taken, both threads can still
      finish. */
  lemma BenchmarkCanFinish(at: Layout, first: nat, n: nat, cores: nat, mem: seq<byte>, base: nat, limit: nat,
                           turns: seq<Turn>)
    returns (more: seq<Turn>)
    requires QueueIn(at, n) && Row(first, n) && n <= 256 && PowerOn(n, cores, mem, base, limit)
    ensures var y := Init(cores, 1, mem, base, limit);
            && Sized(y)
            && var r := Benchmark(at, first, n, y, turns + more);
               r.Done? && r.value.1.i == at.items && r.value.1.j == at.items
  {
    hide Ready, RowBytes, WordAt, Init, AllHeld, SystemTurns, TurnAll, Row, Benchmark, RingOk;
    var y', own, v := SetUp(at, first, n, cores, mem, base, limit);
    var start := RowBytes(v, first, n);
    StartOk(at, start);
    TurnsKeep(at, start, Start(), turns);
    var (mem1, t1) := TurnAll(at, start, Start(), turns);
    more := CanFinish(at, mem1, t1);
    TurnsThenTurns(at, start, Start(), turns, more);
    var v' := SystemTurnsAreFlat(at, y', own, v, first, n, Start(), turns + more);
  }

  /** With the benchmark's own constants, in its 256 MB of memory. */
  lemma ProducerConsumer(cores: nat, mem: seq<byte>, turns: seq<Turn>)
    requires cores >= 2 && |mem| == 256 * 1024 * 1024
    ensures var at, y := Layout(0, 1024, 2000), Init(cores, 1, mem, PAGE_SIZE, |mem|);
            && QueueIn(at, 2) && Sized(y)
            && var r := Benchmark(at, 0x600000 / PAGE_SIZE, 2, y, turns);
               && r.Done?
               && (r.value.1.j == 2000 ==> r.value.1.consumed == seq(2000, m => m))
  {
    hide Init, Benchmark;
    forall u: nat | InRange(u, 0x600, 2) ensures Small(u) {}
    BenchmarkDelivers(Layout(0, 1024, 2000), 0x600, 2, cores, mem, PAGE_SIZE, |mem|, turns);
  }
}
