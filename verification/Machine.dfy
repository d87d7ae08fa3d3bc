/** The cache hierarchy as a transition system: one atomic step per cpu_* call, by any
    core, at any physical address, and its relation to flat memory. */
module Machine {
  import opened Types
  import opened Coherence
  import opened Caches
  import opened Projection
  import opened Snoops
  import opened Flat
  import opened Prefetch
  import opened Calls
  import opened Losses
  import Plru

  /** What holds between calls. */
  ghost predicate Good(s: State) { Inv(s) && Windowed(s) }

  lemma InitGood(n: nat, mem: seq<byte>)
    ensures Good(Init(n, mem))
    ensures forall m: nat :: Proj(Init(n, mem), m).l2.NotInL2?
  {
    var s := Init(n, mem);
    assert Windowed(s);
    assert forall k: nat :: k < L2_SETS ==> s.l2[k] == EmptyL2();
    forall m: nat ensures Coherent(Proj(s, m)) && Proj(s, m).l2.NotInL2? {
      L2WayProj(s, m);
      forall c: nat ensures !Holds(Proj(s, m).d, c) && !Holds(Proj(s, m).i, c) {
        if c < n { L1WayProj(s, c, false, m); L1WayProj(s, c, true, m); }
      }
    }
  }

  // ---------------------------------------------------------------------------
  // The view, byte by byte
  // ---------------------------------------------------------------------------

  /** Memory as a load through any core would see it. */
  function Bytes(s: State): (r: seq<byte>)
    ensures |r| == |s.mem|
  {
    seq(|s.mem|, a requires 0 <= a < |s.mem| => if InMemory(s.mem, a / 64) then ViewOf(s, a / 64)[a % 64] else s.mem[a])
  }

  function Stored(mem: seq<byte>, pa: nat, bytes: seq<byte>): (r: seq<byte>)
    requires pa + |bytes| <= |mem|
    ensures |r| == |mem|
  {
    mem[..pa] + bytes + mem[pa + |bytes|..]
  }

  lemma BytesOfLine(s: State, pa: nat, size: nat)
    requires pa % 64 + size <= LINE_SIZE && InMemory(s.mem, pa / 64)
    ensures pa + size <= |s.mem|
    ensures Bytes(s)[pa..pa + size] == ViewOf(s, pa / 64)[pa % 64..pa % 64 + size]
  {
    hide ViewOf;
    assert pa == 64 * (pa / 64) + pa % 64;
    forall a | pa <= a < pa + size ensures Bytes(s)[a] == ViewOf(s, pa / 64)[pa % 64 + a - pa] {
      assert a / 64 == pa / 64 && a % 64 == pa % 64 + a - pa;
    }
  }

  /** Lines outside memory are never cached. */
  lemma OutsideMemory(s: State, m: nat)
    requires Inv(s) && !InMemory(s.mem, m)
    ensures Proj(s, m).l2.NotInL2? && ViewOf(s, m) == ZeroLine()
  {
    hide Coherent, Proj;
    L2WayProj(s, m);
    assert L2Ok(s.l2[m % 4096], m % 4096, |s.mem|);
    var x := Proj(s, m);
    assert Coherent(x);
    OwnerCases(x);
  }

  /** One line's view patched, the others kept: exactly a store to flat memory. */
  lemma BytesChange(s: State, s': State, pa: nat, bytes: seq<byte>)
    requires Inv(s) && Inv(s') && SameShape(s, s') && pa % 64 + |bytes| <= LINE_SIZE && InMemory(s.mem, pa / 64)
    requires ViewOf(s', pa / 64) == Patch(ViewOf(s, pa / 64), pa % 64, bytes)
    ensures pa + |bytes| <= |s.mem|
    ensures (forall m: nat :: m != pa / 64 ==> ViewOf(s', m) == ViewOf(s, m))
            <==> Bytes(s') == Stored(Bytes(s), pa, bytes)
  {
    hide ViewOf, Inv, Patch;
    assert pa == 64 * (pa / 64) + pa % 64;
    if forall m: nat :: m != pa / 64 ==> ViewOf(s', m) == ViewOf(s, m) {
      BytesStored(s, s', pa, bytes);
    } else {
      var m: nat :| m != pa / 64 && ViewOf(s', m) != ViewOf(s, m);
      BytesDiffer(s, s', pa, bytes, m);
    }
  }

  lemma BytesStored(s: State, s': State, pa: nat, bytes: seq<byte>)
    requires SameShape(s, s') && pa % 64 + |bytes| <= LINE_SIZE && pa + |bytes| <= |s.mem| && InMemory(s.mem, pa / 64)
    requires ViewOf(s', pa / 64) == Patch(ViewOf(s, pa / 64), pa % 64, bytes)
    requires forall m: nat :: m != pa / 64 ==> ViewOf(s', m) == ViewOf(s, m)
    ensures Bytes(s') == Stored(Bytes(s), pa, bytes)
  {
    hide ViewOf, Patch, Tail;
    forall a: nat | a < |s.mem| ensures Bytes(s')[a] == Stored(Bytes(s), pa, bytes)[a] {
      if a / 64 == pa / 64 { PatchedByte(s, s', pa, bytes, a); }
      else {
        OtherLine(pa, |bytes|, a);
        if !InMemory(s.mem, a / 64) { TailByte(s, s', a); }
      }
    }
  }

  lemma OtherLine(pa: nat, size: nat, a: nat)
    requires pa % 64 + size <= LINE_SIZE && a / 64 != pa / 64
    ensures a < pa || pa + size <= a
  {
  }

  lemma PatchedByte(s: State, s': State, pa: nat, bytes: seq<byte>, a: nat)
    requires |s'.mem| == |s.mem| && pa % 64 + |bytes| <= LINE_SIZE && pa + |bytes| <= |s.mem|
    requires InMemory(s.mem, pa / 64) && a < |s.mem| && a / 64 == pa / 64
    requires ViewOf(s', pa / 64) == Patch(ViewOf(s, pa / 64), pa % 64, bytes)
    ensures Bytes(s')[a] == Stored(Bytes(s), pa, bytes)[a]
  {
    hide ViewOf;
    assert pa == 64 * (pa / 64) + pa % 64 && a == 64 * (pa / 64) + a % 64;
  }

  lemma BytesDiffer(s: State, s': State, pa: nat, bytes: seq<byte>, m: nat)
    requires Inv(s) && Inv(s') && SameShape(s, s') && pa % 64 + |bytes| <= LINE_SIZE && pa + |bytes| <= |s.mem|
    requires m != pa / 64 && ViewOf(s', m) != ViewOf(s, m)
    ensures Bytes(s') != Stored(Bytes(s), pa, bytes)
  {
    hide ViewOf, Inv;
    if !InMemory(s.mem, m) { OutsideMemory(s, m); OutsideMemory(s', m); }
    var j :| 0 <= j < 64 && ViewOf(s', m)[j] != ViewOf(s, m)[j];
    var a := 64 * m + j;
    assert a / 64 == m && a % 64 == j;
    assert Bytes(s')[a] != Stored(Bytes(s), pa, bytes)[a];
  }

  lemma TailByte(s: State, s': State, a: nat)
    requires SameShape(s, s') && a < |s.mem| && !InMemory(s.mem, a / 64)
    ensures s'.mem[a] == s.mem[a]
  {
    var base := 64 * (|s.mem| / 64);
    assert s.mem[a] == Tail(s.mem)[a - base];
    assert s'.mem[a] == Tail(s'.mem)[a - base];
  }

  lemma PatchNothing(line: Line, offset: nat)
    requires offset <= LINE_SIZE
    ensures Patch(line, offset, []) == line
  {
  }

  lemma StoredNothing(mem: seq<byte>, pa: nat)
    requires pa <= |mem|
    ensures Stored(mem, pa, []) == mem
  {
  }

  // ---------------------------------------------------------------------------
  // One call
  // ---------------------------------------------------------------------------

  datatype Kind = Load(size: nat) | Store(bytes: seq<byte>) | Fetching(size: nat)

  /** One cpu_* call; `stamp` is the current_seq of its thread. */
  datatype Op = Op(core: nat, pa: nat, kind: Kind, stamp: nat) {
    function Width(): nat { match kind case Load(n) => n case Store(bytes) => |bytes| case Fetching(n) => n }

    /** The caller's side of the contract: an existing core, one line. */
    predicate Fits(n: nat) { core < n && pa % 64 + Width() <= LINE_SIZE }
  }

  function Step(s: State, op: Op): (r: Outcome<(State, seq<byte>)>)
    requires op.Fits(|s.cores|)
    ensures r.Done? ==> |r.value.0.cores| == |s.cores|
  {
    var s0 := s.(stamp := op.stamp);
    match op.kind
    case Load(size) => Read(s0, op.core, op.pa, size)
    case Store(bytes) => (var s1 :- Write(s0, op.core, op.pa, bytes); Done((s1, [])))
    case Fetching(size) => Fetch(s0, op.core, op.pa, size)
  }

  /** What flat memory would hold and return. */
  function FlatStep(mem: seq<byte>, op: Op): (r: (seq<byte>, seq<byte>))
    requires op.pa + op.Width() <= |mem|
    ensures |r.0| == |mem|
  {
    match op.kind
    case Load(size) => (mem, mem[op.pa..op.pa + size])
    case Store(bytes) => (Stored(mem, op.pa, bytes), [])
    case Fetching(size) => (mem, mem[op.pa..op.pa + size])
  }

  /** An instruction fetch that would have to take its bytes from a dirty line. */
  predicate FetchesModified(s: State, op: Op)
    requires op.Fits(|s.cores|)
  {
    && op.kind.Fetching?
    && L1WayOf(s, op.core, true, op.pa / 64) == NUM_L1_WAYS
    && InState(Proj(s, op.pa / 64).l2, Modified)
  }

  /** What the step leaves of the line it is about. */
  function LineAfter(x: LineState, op: Op, held: bool): LineState
    requires op.core < |x.d| && op.core < |x.i| && op.pa % 64 + op.Width() <= LINE_SIZE
  {
    match op.kind
    case Load(_) =>
      if held then x
      else if x.l2.InL2? then ReadShared(x, op.core)
      else FillD(x, op.core, x.mem, Exclusive)
    case Store(bytes) =>
      if x.l2.InL2? then OwnedBy(x, op.core, Patch(View(x), op.pa % 64, bytes))
      else FillD(x, op.core, Patch(x.mem, op.pa % 64, bytes), Modified)
    case Fetching(_) =>
      if held then x
      else if x.l2.InL2? then FetchShared(x, op.core)
      else FillI(x, op.core)
  }

  predicate HeldBy(s: State, op: Op)
    requires op.Fits(|s.cores|)
  {
    L1WayOf(s, op.core, op.kind.Fetching?, op.pa / 64) < NUM_L1_WAYS
  }

  lemma Cached(s: State, n: nat)
    requires Inv(s) && Proj(s, n).l2.InL2?
    ensures InMemory(s.mem, n)
  {
    hide Coherent;
    L2WayProj(s, n);
    assert L2Ok(s.l2[n % 4096], n % 4096, |s.mem|);
  }

  lemma ReadIsAction(s: State, c: nat, pa: nat, size: nat)
    requires Good(s) && c < |s.cores| && pa % 64 + size <= LINE_SIZE
    ensures var n, r := pa / 64, Read(s, c, pa, size);
            var x := Proj(s, n);
            && (r.Done? <==> InMemory(s.mem, n))
            && c < |x.d| && |x.i| == |x.d| == |s.cores|
            && (r.Done? ==>
                  && CallKeeps(s, r.value.0, n, if L1WayOf(s, c, false, n) < NUM_L1_WAYS then x
                                                else if x.l2.InL2? then ReadShared(x, c)
                                                else FillD(x, c, x.mem, Exclusive))
                  && r.value.1 == ViewOf(s, n)[pa % 64..pa % 64 + size])
  {
    hide Inv, Proj, CallKeeps, ReadHit, ReadFromL2, L2WayOf, View, ReadShared, FillD;
    var n := pa / 64;
    L2WayProj(s, n);
    var w, w2 := L1WayOf(s, c, false, n), L2WayOf(s, n);
    if w < NUM_L1_WAYS {
      ReadHitCall(s, c, pa, w);
      HeldCached(s, c, false, n);
    } else if w2 < NUM_L2_WAYS {
      ReadFromL2Call(s, c, pa, w2);
      Cached(s, n);
    } else if InMemory(s.mem, n) {
      hide ReadFromMemory;
      ReadFromMemoryCall(s, c, pa);
      UncachedView(s, n);
    }
  }

  lemma UncachedView(s: State, n: nat)
    requires Inv(s) && Proj(s, n).l2.NotInL2?
    ensures ViewOf(s, n) == Proj(s, n).mem
  {
    hide Proj, Placed;
    assert Coherent(Proj(s, n));
    OwnerCases(Proj(s, n));
  }

  lemma HeldCached(s: State, c: nat, instr: bool, n: nat)
    requires Inv(s) && c < |s.cores| && L1WayOf(s, c, instr, n) < NUM_L1_WAYS
    ensures Proj(s, n).l2.InL2? && InMemory(s.mem, n)
  {
    hide Proj, Placed;
    L1WayProj(s, c, instr, n);
    assert Coherent(Proj(s, n));
    Cached(s, n);
  }

  lemma WriteIsAction(s: State, c: nat, pa: nat, bytes: seq<byte>)
    requires Good(s) && c < |s.cores| && pa % 64 + |bytes| <= LINE_SIZE
    ensures var n, r := pa / 64, Write(s, c, pa, bytes);
            var x := Proj(s, n);
            && (r.Done? <==> InMemory(s.mem, n))
            && c < |x.d| && |x.i| == |x.d| == |s.cores|
            && (r.Done? ==>
                  CallKeeps(s, r.value, n, if x.l2.InL2? then OwnedBy(x, c, Patch(View(x), pa % 64, bytes))
                                           else FillD(x, c, Patch(x.mem, pa % 64, bytes), Modified)))
  {
    hide Inv, Proj, CallKeeps, WriteHit, WriteFromL2, L2WayOf, View, OwnedBy, FillD, Patch;
    var n := pa / 64;
    L2WayProj(s, n);
    var w, w2 := L1WayOf(s, c, false, n), L2WayOf(s, n);
    if w < NUM_L1_WAYS {
      WriteHitCall(s, c, pa, w, bytes);
      HeldCached(s, c, false, n);
    } else if w2 < NUM_L2_WAYS {
      WriteFromL2Call(s, c, pa, w2, bytes);
      Cached(s, n);
    } else if InMemory(s.mem, n) {
      hide WriteFromMemory;
      WriteFromMemoryCall(s, c, pa, bytes);
    }
  }

  lemma FetchIsAction(s: State, c: nat, pa: nat, size: nat)
    requires Good(s) && c < |s.cores| && pa % 64 + size <= LINE_SIZE
    ensures var n, r := pa / 64, Fetch(s, c, pa, size);
            var x := Proj(s, n);
            && (r.Done? <==> InMemory(s.mem, n) && !(L1WayOf(s, c, true, n) == NUM_L1_WAYS && InState(x.l2, Modified)))
            && c < |x.i| && |x.i| == |x.d| == |s.cores|
            && (r.Done? ==>
                  && CallKeeps(s, r.value.0, n, if L1WayOf(s, c, true, n) < NUM_L1_WAYS then x
                                                else if x.l2.InL2? then FetchShared(x, c)
                                                else FillI(x, c))
                  && r.value.1 == ViewOf(s, n)[pa % 64..pa % 64 + size])
  {
    hide Inv, Proj, CallKeeps, FetchFromL2, L2WayOf, View, FetchShared, FillI, L1Touch;
    var n := pa / 64;
    L2WayProj(s, n);
    var w, w2 := L1WayOf(s, c, true, n), L2WayOf(s, n);
    if w < NUM_L1_WAYS {
      FetchHitCall(s, c, n, w);
      HeldCached(s, c, true, n);
    } else if w2 < NUM_L2_WAYS {
      FetchFromL2Call(s, c, n, w2);
      Cached(s, n);
    } else if InMemory(s.mem, n) {
      hide FetchFromMemory;
      FetchFromMemoryCall(s, c, n);
      UncachedView(s, n);
    }
  }

  lemma Restamped(s: State, stamp: nat)
    requires Good(s)
    ensures var s0 := s.(stamp := stamp);
            && Good(s0) && (forall m: nat :: Proj(s0, m) == Proj(s, m))
  {
    hide Placed, Coherent, Proj;
    SameCaches(s, s.(stamp := stamp));
  }

  /** Each call does one per-line action on its own line, keeps the invariant, and
      tracks every other line. It completes exactly when the line lies in memory and the
      call does not fetch from a dirty line. */
  lemma StepIsAction(s: State, op: Op)
    requires Good(s) && op.Fits(|s.cores|)
    ensures var n := op.pa / 64;
            && (Step(s, op).Done? <==> InMemory(s.mem, n) && !FetchesModified(s, op))
            && |Proj(s, n).d| == |Proj(s, n).i| == |s.cores|
            && (Step(s, op).Done? ==>
                  && CallKeeps(s.(stamp := op.stamp), Step(s, op).value.0, n, LineAfter(Proj(s, n), op, HeldBy(s, op)))
                  && (!op.kind.Store? ==> Step(s, op).value.1 == ViewOf(s, n)[op.pa % 64..op.pa % 64 + op.Width()]))
  {
    hide Inv, Windowed, Proj, CallKeeps, View, Read, Write, Fetch, ReadShared, FetchShared, FillD, FillI, OwnedBy,
         Patch;
    var n := op.pa / 64;
    var s0 := s.(stamp := op.stamp);
    Restamped(s, op.stamp);
    assert Proj(s0, n) == Proj(s, n);
    match op.kind {
      case Load(size) => ReadIsAction(s0, op.core, op.pa, size);
      case Store(bytes) => WriteIsAction(s0, op.core, op.pa, bytes);
      case Fetching(size) => FetchIsAction(s0, op.core, op.pa, size);
    }
  }

  /** The per-line action keeps coherence and does to the view what flat memory would. */
  lemma ActionWorks(x: LineState, op: Op, held: bool)
    requires Coherent(x) && op.core < |x.d| && op.pa % 64 + op.Width() <= LINE_SIZE
    requires held == if op.kind.Fetching? then Holds(x.i, op.core) else Holds(x.d, op.core)
    requires op.kind.Fetching? && !held ==> !InState(x.l2, Modified)
    ensures var y := LineAfter(x, op, held);
            && Coherent(y) && y.mem == x.mem && y.l2.InL2?
            && (if op.kind.Fetching? then Holds(y.i, op.core) else Holds(y.d, op.core))
            && View(y) == if op.kind.Store? then Patch(View(x), op.pa % 64, op.kind.bytes) else View(x)
  {
    hide View, Stale, Patch;
    match op.kind {
      case Load(_) =>
        if !held {
          if x.l2.InL2? { ReadSharedKeeps(x, op.core); } else { FillDKeeps(x, op.core, x.mem, Exclusive); }
        }
      case Store(bytes) =>
        var line := Patch(View(x), op.pa % 64, bytes);
        if x.l2.InL2? { OwnedByKeeps(x, op.core, line); }
        else { FillDKeeps(x, op.core, Patch(x.mem, op.pa % 64, bytes), Modified); }
      case Fetching(_) =>
        if !held {
          if x.l2.InL2? { FetchSharedKeeps(x, op.core); } else { FillIKeeps(x, op.core); }
        }
    }
  }

  /** The call leaves its line in the caller's own L1 and in L2, whatever it prefetched,
      and memory's own bytes of that line as they were. */
  lemma StepKeepsDemandedLine(s: State, op: Op)
    requires Good(s) && op.Fits(|s.cores|) && Step(s, op).Done?
    ensures var n, s' := op.pa / 64, Step(s, op).value.0;
            && Good(s') && HeldBy(s', op) && Proj(s', n).l2.InL2? && Proj(s', n).mem == Proj(s, n).mem
            && Call(s.(stamp := op.stamp), s', n, LineAfter(Proj(s, n), op, HeldBy(s, op)))
            && ViewOf(s', n) == if op.kind.Store? then Patch(ViewOf(s, n), op.pa % 64, op.kind.bytes) else ViewOf(s, n)
  {
    hide Placed, Windowed, Coherent, Proj, Step, LineAfter, Tracks, View, Patch;
    var n := op.pa / 64;
    StepIsAction(s, op);
    L1WayProj(s, op.core, op.kind.Fetching?, n);
    ActionWorks(Proj(s, n), op, HeldBy(s, op));
    L1WayProj(Step(s, op).value.0, op.core, op.kind.Fetching?, n);
  }

  /** The lines that the call prefetches if it misses L2. */
  function Prefetched(s: State, op: Op): seq<nat>
    requires op.Fits(|s.cores|)
  {
    if op.kind.Fetching? then NextLine(s, op.pa / 64) else StreamLines(s, op.core, op.pa / 64)
  }

  /** The call misses L2, and its line or one that it prefetches goes to a full L2 set whose
      PLRU victim holds bytes that memory has not got and no write-back will save. */
  predicate Loses(s: State, op: Op)
    requires op.Fits(|s.cores|)
  {
    LosesOn(s, op.pa / 64, Prefetched(s, op))
  }

  /** So it is told before the call whether the call loses bytes. */
  lemma StepLoses(s: State, op: Op)
    requires Good(s) && op.Fits(|s.cores|) && Step(s, op).Done?
    ensures Step(s, op).value.0.lossless <==> s.lossless && !Loses(s, op)
  {
    hide Inv, Windowed, Proj, Read, Write, Fetch, LosesOn;
    var s0 := s.(stamp := op.stamp);
    Restamped(s, op.stamp);
    RestampedLoses(s, s0, op.pa / 64, Prefetched(s, op));
    assert Prefetched(s0, op) == Prefetched(s, op);
    match op.kind {
      case Load(size) => ReadLoses(s0, op.core, op.pa, size);
      case Store(bytes) => WriteLoses(s0, op.core, op.pa, bytes);
      case Fetching(size) => FetchLoses(s0, op.core, op.pa, size);
    }
  }

  lemma RestampedLoses(s: State, s0: State, n: nat, lines: seq<nat>)
    requires s0.l2 == s.l2 && forall m: nat :: Proj(s0, m) == Proj(s, m)
    ensures LosesOn(s0, n, lines) == LosesOn(s, n, lines)
  {
    hide Proj, Stale, Plru.VictimFrom;
    forall k: nat | k < L2_SETS ensures Drops(s0, k) == Drops(s, k) {}
    forall i | 0 <= i < |lines| ensures LosesFor(s0, lines[i]) == LosesFor(s, lines[i]) {}
  }

  /** A call returns and stores what flat memory would. From a state that has lost
      nothing, the caches still stand for flat memory afterwards exactly when the call is
      none that loses bytes. */
  lemma StepRefinesFlat(s: State, op: Op)
    requires Good(s) && op.Fits(|s.cores|) && Step(s, op).Done?
    ensures op.pa + op.Width() <= |s.mem|
    ensures var (s', out) := Step(s, op).value;
            && Good(s') && |s'.cores| == |s.cores| && |s'.mem| == |s.mem|
            && out == FlatStep(Bytes(s), op).1
            && (s.lossless ==> (Bytes(s') == FlatStep(Bytes(s), op).0 <==> !Loses(s, op)))
            && (s'.lossless <==> s.lossless && !Loses(s, op))
  {
    hide Placed, Windowed, Coherent, Proj, Step, LineAfter, Tracks, View, Patch, HeldBy, FetchesModified, Stored, Loses;
    var n := op.pa / 64;
    StepIsAction(s, op);
    StepKeepsDemandedLine(s, op);
    StepLoses(s, op);
    var (s', out) := Step(s, op).value;
    var s0 := s.(stamp := op.stamp);
    var bytes := if op.kind.Store? then op.kind.bytes else [];
    BytesOfLine(s, op.pa, op.Width());
    Restamped(s, op.stamp);
    SameBytes(s, s0);
    PatchNothing(ViewOf(s, n), op.pa % 64);
    StoredNothing(Bytes(s), op.pa);
    StepOutput(s, op);
    BytesChange(s0, s', op.pa, bytes);
    TracksBytes(s0, s', n);
  }

  lemma StepOutput(s: State, op: Op)
    requires op.Fits(|s.cores|) && Step(s, op).Done?
    ensures op.kind.Store? ==> Step(s, op).value.1 == []
  {
    hide Write;
  }

  lemma SameBytes(s: State, s0: State)
    requires s0.mem == s.mem && forall m: nat :: Proj(s0, m) == Proj(s, m)
    ensures Bytes(s0) == Bytes(s) && forall m: nat :: ViewOf(s0, m) == ViewOf(s, m)
  {
  }

  /** From a lossless state, lossless is the same as: every other line's view stayed. */
  lemma TracksBytes(s: State, s': State, n: nat)
    requires Tracks(s, s', n)
    ensures s'.lossless ==> s.lossless
    ensures s.lossless ==> (s'.lossless <==> forall m: nat :: m != n ==> ViewOf(s', m) == ViewOf(s, m))
  {
    hide Proj, View, Stale;
  }

  lemma StepIsCall(s: State, op: Op)
    requires op.Fits(|s.cores|) && op.stamp == s.stamp
    ensures match op.kind
            case Load(size) => Step(s, op) == Read(s, op.core, op.pa, size)
            case Store(bytes) =>
              var r := Write(s, op.core, op.pa, bytes);
              Step(s, op).Done? == r.Done? && (r.Done? ==> Step(s, op).value.0 == r.value)
            case Fetching(size) => Step(s, op) == Fetch(s, op.core, op.pa, size)
  {
    hide Read, Write, Fetch;
    assert s.(stamp := s.stamp) == s;
  }

  /** The same, call by call. */
  lemma LoadReturnsBytes(s: State, c: nat, pa: nat, size: nat)
    requires Good(s) && c < |s.cores| && pa % 64 + size <= LINE_SIZE
    ensures var r := Read(s, c, pa, size);
            && (r.Done? <==> InMemory(s.mem, pa / 64))
            && (r.Done? ==> Good(r.value.0) && pa + size <= |s.mem| && r.value.1 == Bytes(s)[pa..pa + size])
  {
    hide Good, Bytes, LineAfter, Step, Read;
    var op := Op(c, pa, Load(size), s.stamp);
    StepIsCall(s, op);
    StepIsAction(s, op);
    if Step(s, op).Done? { StepRefinesFlat(s, op); }
  }

  lemma StoreChangesBytes(s: State, c: nat, pa: nat, bytes: seq<byte>)
    requires Good(s) && c < |s.cores| && pa % 64 + |bytes| <= LINE_SIZE
    ensures var r := Write(s, c, pa, bytes);
            && (r.Done? <==> InMemory(s.mem, pa / 64))
            && (r.Done? ==> Good(r.value) && pa + |bytes| <= |s.mem|
                            && (s.lossless ==>
                                  (Bytes(r.value) == Stored(Bytes(s), pa, bytes)
                                   <==> !LosesOn(s, pa / 64, StreamLines(s, c, pa / 64)))))
  {
    hide Good, Bytes, LineAfter, Stored, Step, Write, LosesOn;
    var op := Op(c, pa, Store(bytes), s.stamp);
    StepIsCall(s, op);
    StepIsAction(s, op);
    if Step(s, op).Done? { StepRefinesFlat(s, op); }
  }

  lemma FetchReturnsBytes(s: State, c: nat, pa: nat, size: nat)
    requires Good(s) && c < |s.cores| && pa % 64 + size <= LINE_SIZE
    ensures var r := Fetch(s, c, pa, size);
            && (r.Done? <==> InMemory(s.mem, pa / 64) && !FetchesModified(s, Op(c, pa, Fetching(size), s.stamp)))
            && (r.Done? ==> Good(r.value.0) && pa + size <= |s.mem| && r.value.1 == Bytes(s)[pa..pa + size])
  {
    hide Good, Bytes, LineAfter, Step, Fetch;
    var op := Op(c, pa, Fetching(size), s.stamp);
    StepIsCall(s, op);
    StepIsAction(s, op);
    if Step(s, op).Done? { StepRefinesFlat(s, op); }
  }

  // ---------------------------------------------------------------------------
  // When bytes can be lost
  // ---------------------------------------------------------------------------

  /** No L2 way holds bytes that only a write-back it will never get could save. */
  ghost predicate AllClean(s: State) { forall m: nat :: !StaleIn(s, m) }

  /** A load that another core's copy turns SHARED while memory has not got the bytes:
      snoop_downgrade_peers makes the L2 way SHARED without writing memory. */
  predicate DirtyDowngrade(s: State, op: Op)
    requires op.Fits(|s.cores|)
  {
    var x := Proj(s, op.pa / 64);
    op.kind.Load? && !HeldBy(s, op) && x.l2.InL2? && OthersShare(x, op.core) && View(x) != x.mem
  }

  /** From a clean state no call loses anything; the state stays clean exactly when the
      call is not a dirty downgrade. */
  lemma CleanStep(s: State, op: Op)
    requires Good(s) && AllClean(s) && s.lossless && op.Fits(|s.cores|) && Step(s, op).Done?
    ensures var s' := Step(s, op).value.0;
            s'.lossless && (AllClean(s') <==> !DirtyDowngrade(s, op))
  {
    hide Placed, Windowed, Coherent, Proj, Step, LineAfter, View, Stale, Tracks, AllClean;
    var n := op.pa / 64;
    var s0, s' := s.(stamp := op.stamp), Step(s, op).value.0;
    StepIsAction(s, op);
    StepKeepsDemandedLine(s, op);
    Restamped(s, op.stamp);
    SameClean(s, s0);
    CleanAt(s, n);
    TracksClean(s0, s', n);
    L1WayProj(s, op.core, op.kind.Fetching?, n);
    ActionStale(Proj(s, n), op, HeldBy(s, op));
    assert StaleIn(s', n) == Stale(Proj(s', n));
  }

  lemma CleanAt(s: State, n: nat)
    requires AllClean(s)
    ensures !Stale(Proj(s, n))
  {
    hide Proj, Stale;
    assert !StaleIn(s, n);
  }

  lemma SameClean(s: State, s0: State)
    requires AllClean(s) && forall m: nat :: Proj(s0, m) == Proj(s, m)
    ensures AllClean(s0)
  {
    hide Proj, Stale;
    forall m: nat ensures !StaleIn(s0, m) { assert !StaleIn(s, m); }
  }

  lemma TracksClean(s: State, s': State, n: nat)
    requires AllClean(s) && s.lossless && Tracks(s, s', n)
    ensures s'.lossless && (AllClean(s') <==> !StaleIn(s', n))
  {
    hide ViewOf, StaleIn, Calm, Proj;
  }

  lemma ActionStale(x: LineState, op: Op, held: bool)
    requires Coherent(x) && !Stale(x) && op.core < |x.d| && op.pa % 64 + op.Width() <= LINE_SIZE
    requires held == if op.kind.Fetching? then Holds(x.i, op.core) else Holds(x.d, op.core)
    requires op.kind.Fetching? && !held ==> !InState(x.l2, Modified)
    ensures Stale(LineAfter(x, op, held)) <==>
            op.kind.Load? && !held && x.l2.InL2? && OthersShare(x, op.core) && View(x) != x.mem
  {
    hide View, Patch;
    match op.kind {
      case Load(_) =>
        if !held {
          if x.l2.InL2? { ReadSharedKeeps(x, op.core); } else { FillDKeeps(x, op.core, x.mem, Exclusive); }
        }
      case Store(bytes) =>
        if x.l2.InL2? { OwnedByKeeps(x, op.core, Patch(View(x), op.pa % 64, bytes)); }
        else { FillDKeeps(x, op.core, Patch(x.mem, op.pa % 64, bytes), Modified); }
      case Fetching(_) =>
        if !held {
          if x.l2.InL2? { FetchSharedKeeps(x, op.core); } else { FillIKeeps(x, op.core); }
        }
    }
  }
}
