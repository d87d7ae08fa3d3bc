/** The two-thread ring buffer of benchmarks/producer_consumer.cpp: every interleaving of
    its loads and stores, on flat memory and on the cached machine. */
module RingBuffer {
  import opened Types
  import opened Paging
  import C = Caches
  import M = Machine
  import R = Runs
  import W = WorkingSet

  /** Where the queue is: head at base, tail after it, the slots one line later. */
  datatype Layout = Layout(base: nat, slots: nat, items: nat) {
    function Head(): nat { base }
    function Tail(): nat { base + 4 }
    function Slot(k: nat): nat { base + LINE_SIZE + 4 * k }

    /** The slot number of item k, and the index after k. */
    function Cell(k: nat): nat
      requires slots > 0
    {
      k % slots
    }

    function Next(k: nat): nat
      requires slots > 0
    {
      (k + 1) % slots
    }

    predicate Sound() {
      base % LINE_SIZE == 0 && 2 <= slots && slots < 0x1_0000_0000 && items <= 0x1_0000_0000
    }

    predicate Ok(size: nat) { Sound() && base + LINE_SIZE + 4 * slots <= size }

    /** The pages of the queue. */
    function Pages(): set<nat> { W.Window(base / PAGE_SIZE, (LINE_SIZE + 4 * slots) / PAGE_SIZE + 2) }
  }

  datatype ProducerAt = ReadTail | AwaitSpace | WriteSlot | WriteTail

  datatype ConsumerAt = ReadHead | TailFirst | CheckTail | ReadSlot | WriteHead

  /** `i` and `j` are the loop counters; `tail`, `head` and `seen` the local variables. */
  datatype Threads = Threads(pAt: ProducerAt, i: nat, tail: nat,
                             cAt: ConsumerAt, j: nat, head: nat, seen: nat, consumed: seq<nat>)

  /** Which thread moves. The source leaves it open which of its two loads the consumer's
      spin condition does first. */
  datatype Turn = Producer | Consumer(tailFirst: bool)

  function Start(): Threads { Threads(ReadTail, 0, 0, ReadHead, 0, 0, 0, []) }

  predicate Finished(at: Layout, t: Threads, turn: Turn) {
    if turn.Producer? then t.i == at.items else t.j == at.items
  }

  function LoadWord(core: nat, pa: nat): M.Op { M.Op(core, pa, M.Load(4), 0) }

  function StoreWord(core: nat, pa: nat, value: nat): M.Op { M.Op(core, pa, M.Store(WordBytes(value, 4)), 0) }

  /** The thread's next access to memory. */
  function Issue(at: Layout, t: Threads, turn: Turn): M.Op
    requires at.slots > 0
  {
    if turn.Producer? then
      match t.pAt
      case ReadTail => LoadWord(0, at.Tail())
      case AwaitSpace => LoadWord(0, at.Head())
      case WriteSlot => StoreWord(0, at.Slot(at.Cell(t.tail)), t.i)
      case WriteTail => StoreWord(0, at.Tail(), at.Next(t.tail))
    else
      match t.cAt
      case ReadHead => LoadWord(1, if turn.tailFirst then at.Tail() else at.Head())
      case TailFirst => LoadWord(1, at.Head())
      case CheckTail => LoadWord(1, at.Tail())
      case ReadSlot => LoadWord(1, at.Slot(at.Cell(t.head)))
      case WriteHead => StoreWord(1, at.Head(), at.Next(t.head))
  }

  /** The thread after its access came back with these bytes. */
  function Resume(at: Layout, t: Threads, turn: Turn, bytes: seq<byte>): Threads
    requires at.slots > 0
  {
    var word := Word(bytes);
    if turn.Producer? then
      match t.pAt
      case ReadTail => t.(pAt := AwaitSpace, tail := word)
      case AwaitSpace => if at.Next(t.tail) == word then t else t.(pAt := WriteSlot)
      case WriteSlot => t.(pAt := WriteTail)
      case WriteTail => t.(pAt := ReadTail, i := t.i + 1)
    else
      match t.cAt
      case ReadHead => if turn.tailFirst then t.(cAt := TailFirst, seen := word) else t.(cAt := CheckTail, head := word)
      case TailFirst => t.(cAt := if word == t.seen then ReadHead else ReadSlot, head := word)
      case CheckTail => t.(cAt := if t.head == word then ReadHead else ReadSlot)
      case ReadSlot => t.(cAt := WriteHead, consumed := t.consumed + [word])
      case WriteHead => t.(cAt := ReadHead, j := t.j + 1)
  }

  // ---------------------------------------------------------------------------
  // On flat memory
  // ---------------------------------------------------------------------------

  function WordAt(mem: seq<byte>, a: nat): nat
    requires a + 4 <= |mem|
  {
    Word(mem[a..a + 4])
  }

  /** One turn; a finished thread does nothing. */
  function Turned(at: Layout, mem: seq<byte>, t: Threads, turn: Turn): (r: (seq<byte>, Threads))
    requires at.Ok(|mem|)
    ensures |r.0| == |mem|
  {
    if Finished(at, t, turn) then (mem, t) else
    var op := Issue(at, t, turn);
    IssueFits(at, t, turn, |mem|);
    var (mem', out) := M.FlatStep(mem, op);
    (mem', Resume(at, t, turn, out))
  }

  lemma IssueFits(at: Layout, t: Threads, turn: Turn, size: nat)
    requires at.Ok(size)
    ensures var op := Issue(at, t, turn); op.Fits(2) && op.pa + op.Width() <= size && op.Width() == 4
  {
    IssueInQueue(at, t, turn);
  }

  lemma IssueInQueue(at: Layout, t: Threads, turn: Turn)
    requires at.Sound()
    ensures var op := Issue(at, t, turn);
            && op.Fits(2) && op.Width() == 4
            && at.base <= op.pa && op.pa + 4 <= at.base + LINE_SIZE + 4 * at.slots
  {
    hide WordBytes, Layout.Cell, Layout.Next, Layout.Slot;
    Cells(at, t.tail);
    Cells(at, t.head);
    SlotFits(at, at.Cell(t.tail));
    SlotFits(at, at.Cell(t.head));
  }

  lemma SlotFits(at: Layout, k: nat)
    requires at.Sound() && k < at.slots
    ensures at.base <= at.Slot(k) && at.Slot(k) + 4 <= at.base + LINE_SIZE + 4 * at.slots
    ensures at.Slot(k) % 64 + 4 <= LINE_SIZE
  {
    var q, r := k / 16, k % 16;
    assert k == 16 * q + r;
    assert at.Slot(k) == 64 * (at.base / 64 + 1 + q) + 4 * r;
  }

  function TurnAll(at: Layout, mem: seq<byte>, t: Threads, turns: seq<Turn>): (r: (seq<byte>, Threads))
    requires at.Ok(|mem|)
    ensures |r.0| == |mem|
    decreases |turns|
  {
    if turns == [] then (mem, t) else
    var (mem1, t1) := Turned(at, mem, t, turns[0]);
    TurnAll(at, mem1, t1, turns[1..])
  }

  /** Items j to i - 1 are in the buffer, each in its slot; the locals are up to date. */
  ghost predicate RingOk(at: Layout, mem: seq<byte>, t: Threads) {
    && at.Ok(|mem|) && t.j <= t.i <= at.items && t.i <= t.j + at.slots - 1
    && WordAt(mem, at.Tail()) == at.Cell(t.i) && WordAt(mem, at.Head()) == at.Cell(t.j)
    && (forall m: nat :: t.j <= m < t.i ==> WordAt(mem, at.Slot(at.Cell(m))) == m)
    && (t.pAt != ReadTail ==> t.i < at.items && t.tail == at.Cell(t.i))
    && (t.pAt == WriteSlot || t.pAt == WriteTail ==> t.i < t.j + at.slots - 1)
    && (t.pAt == WriteTail ==> WordAt(mem, at.Slot(at.Cell(t.i))) == t.i)
    && (t.cAt == TailFirst ==> exists m: nat :: t.j <= m <= t.i && t.seen == at.Cell(m))
    && (t.cAt == CheckTail || t.cAt == ReadSlot || t.cAt == WriteHead ==> t.head == at.Cell(t.j))
    && (t.cAt == ReadSlot || t.cAt == WriteHead ==> t.j < t.i)
    && |t.consumed| == t.j + (if t.cAt == WriteHead then 1 else 0)
    && forall m :: 0 <= m < |t.consumed| ==> t.consumed[m] == m
  }

  lemma WordStored(mem: seq<byte>, a: nat, v: nat, b: nat)
    requires a + 4 <= |mem| && b + 4 <= |mem| && v < 0x1_0000_0000 && (a + 4 <= b || b + 4 <= a || a == b)
    ensures |WordBytes(v, 4)| == 4
    ensures WordAt(M.Stored(mem, a, WordBytes(v, 4)), b) == if b == a then v else WordAt(mem, b)
  {
    hide Word, WordBytes;
    assert Pow256(4) == 0x1_0000_0000;
    var mem' := M.Stored(mem, a, WordBytes(v, 4));
    if b == a {
      WordRoundTrip(v, 4);
      assert mem'[a..a + 4] == WordBytes(v, 4);
    } else {
      assert mem'[b..b + 4] == mem[b..b + 4];
    }
  }

  lemma Cells(at: Layout, m: nat)
    requires at.slots > 0
    ensures at.Cell(m) < at.slots && at.Cell(at.Cell(m)) == at.Cell(m)
    ensures at.Next(at.Cell(m)) == at.Cell(m + 1) < at.slots
  {
    var n, q, r := at.slots, m / at.slots, m % at.slots;
    assert m == n * q + r;
    if r + 1 < n { Modulo(m + 1, n, q, r + 1); Modulo(r + 1, n, 0, r + 1); }
    else { Modulo(m + 1, n, q + 1, 0); Modulo(n, n, 1, 0); }
    Modulo(r, n, 0, r);
  }

  lemma Modulo(a: nat, n: nat, q: nat, r: nat)
    requires n > 0 && a == n * q + r && r < n
    ensures a % n == r
  {
    var k := a / n - q;
    assert a == n * (a / n) + a % n;
    assert n * k == n * (a / n) - n * q;
    SmallMultiple(n, k, r - a % n);
  }

  lemma SmallMultiple(n: int, k: int, d: int)
    requires -n < d < n && d == n * k
    ensures k == 0
  {
    Grows(n, k);
  }

  lemma Grows(n: int, k: int)
    requires n > 0
    ensures k >= 1 ==> n * k >= n
    ensures k <= -1 ==> n * k <= -n
  {
  }

  /** Two items fewer than `slots` apart are in the same slot only if they are the same. */
  lemma CellsApart(at: Layout, a: nat, b: nat)
    requires at.slots > 0 && a <= b < a + at.slots
    ensures at.Cell(a) == at.Cell(b) <==> a == b
  {
    var n := at.slots;
    if at.Cell(a) == at.Cell(b) {
      assert a == n * (a / n) + a % n && b == n * (b / n) + b % n;
      assert b - a == n * (b / n - a / n);
      SmallMultiple(n, b / n - a / n, b - a);
    }
  }

  /** A store to one word of the queue and what the others hold then. */
  ghost predicate OneWord(at: Layout, mem: seq<byte>, mem': seq<byte>, a: nat, v: nat) {
    && |mem'| == |mem| && a + 4 <= |mem|
    && WordAt(mem', a) == v
    && (at.Head() + 4 <= |mem| && at.Head() != a ==> WordAt(mem', at.Head()) == WordAt(mem, at.Head()))
    && (at.Tail() + 4 <= |mem| && at.Tail() != a ==> WordAt(mem', at.Tail()) == WordAt(mem, at.Tail()))
    && forall k: nat :: at.Slot(k) + 4 <= |mem| && at.Slot(k) != a ==>
        WordAt(mem', at.Slot(k)) == WordAt(mem, at.Slot(k))
  }

  lemma StoreIsOneWord(at: Layout, mem: seq<byte>, a: nat, v: nat)
    requires at.Ok(|mem|) && v < 0x1_0000_0000
    requires a == at.Head() || a == at.Tail() || exists k: nat :: k < at.slots && a == at.Slot(k)
    ensures a + 4 <= |mem| && |WordBytes(v, 4)| == 4
    ensures OneWord(at, mem, M.Stored(mem, a, WordBytes(v, 4)), a, v)
  {
    hide WordAt, WordBytes, M.Stored;
    WordStored(mem, a, v, a);
    var mem' := M.Stored(mem, a, WordBytes(v, 4));
    if at.Head() != a { WordStored(mem, a, v, at.Head()); }
    if at.Tail() != a { WordStored(mem, a, v, at.Tail()); }
    forall k: nat | at.Slot(k) + 4 <= |mem| && at.Slot(k) != a
      ensures WordAt(mem', at.Slot(k)) == WordAt(mem, at.Slot(k))
    {
      WordStored(mem, a, v, at.Slot(k));
    }
  }

  /** The slot about to be written holds no item that is still to be read. */
  lemma NothingOverwritten(at: Layout, mem: seq<byte>, t: Threads)
    requires RingOk(at, mem, t) && t.pAt == WriteSlot
    ensures Issue(at, t, Producer).pa == at.Slot(at.Cell(t.i))
    ensures forall m: nat :: t.j <= m < t.i ==> at.Slot(at.Cell(m)) != Issue(at, t, Producer).pa
  {
    hide Layout.Cell, WordAt;
    Cells(at, t.i);
    forall m: nat | t.j <= m < t.i ensures at.Cell(m) != at.Cell(t.i) { CellsApart(at, m, t.i); }
  }

  lemma ProducerKeeps(at: Layout, mem: seq<byte>, t: Threads)
    requires RingOk(at, mem, t) && t.i < at.items
    ensures var (mem', t') := Turned(at, mem, t, Producer); RingOk(at, mem', t')
  {
    hide Word, WordBytes, M.Stored, Layout.Cell, Layout.Next;
    IssueFits(at, t, Producer, |mem|);
    Cells(at, t.i);
    match t.pAt {
      case ReadTail =>
      case AwaitSpace =>
        Full(at, t.i, t.j);
      case WriteSlot =>
        StoreIsOneWord(at, mem, at.Slot(at.Cell(t.i)), t.i);
        NothingOverwritten(at, mem, t);
        forall m: nat | t.j <= m < t.i ensures at.Cell(m) < at.slots { Cells(at, m); }
      case WriteTail =>
        StoreIsOneWord(at, mem, at.Tail(), at.Next(t.tail));
        forall m: nat ensures at.Cell(m) < at.slots { Cells(at, m); }
    }
  }

  /** The producer's test sees a full buffer exactly when slots - 1 items are in it. */
  lemma Full(at: Layout, i: nat, j: nat)
    requires at.slots > 0 && j <= i <= j + at.slots - 1
    ensures at.Next(at.Cell(i)) == at.Cell(j) <==> i == j + at.slots - 1
  {
    hide Layout.Cell, Layout.Next;
    Cells(at, i);
    CellsApart(at, j + 1, i + 1);
    CellWraps(at, j);
    if i + 1 < j + at.slots { CellsApart(at, j, i + 1); }
  }

  lemma CellWraps(at: Layout, j: nat)
    requires at.slots > 0
    ensures at.Cell(j + at.slots) == at.Cell(j)
  {
    var n := at.slots;
    Modulo(j + n, n, j / n + 1, j % n);
  }

  lemma ConsumerKeeps(at: Layout, mem: seq<byte>, t: Threads, tailFirst: bool)
    requires RingOk(at, mem, t) && t.j < at.items
    ensures var (mem', t') := Turned(at, mem, t, Consumer(tailFirst)); RingOk(at, mem', t')
  {
    hide Word, WordBytes, M.Stored, Layout.Cell, Layout.Next;
    IssueFits(at, t, Consumer(tailFirst), |mem|);
    Cells(at, t.j);
    match t.cAt {
      case ReadHead =>
        assert t.j <= t.i <= t.i;
      case TailFirst =>
        var m: nat :| t.j <= m <= t.i && t.seen == at.Cell(m);
        CellsApart(at, t.j, m);
      case CheckTail =>
        CellsApart(at, t.j, t.i);
      case ReadSlot =>
      case WriteHead =>
        StoreIsOneWord(at, mem, at.Head(), at.Next(t.head));
        forall m: nat ensures at.Cell(m) < at.slots { Cells(at, m); }
    }
  }

  // ---------------------------------------------------------------------------
  // Every interleaving
  // ---------------------------------------------------------------------------

  lemma TurnKeeps(at: Layout, mem: seq<byte>, t: Threads, turn: Turn)
    requires RingOk(at, mem, t)
    ensures var (mem', t') := Turned(at, mem, t, turn); RingOk(at, mem', t')
  {
    if !Finished(at, t, turn) {
      if turn.Producer? { ProducerKeeps(at, mem, t); } else { ConsumerKeeps(at, mem, t, turn.tailFirst); }
    }
  }

  /** Both indices at zero and both threads at their start. */
  lemma StartOk(at: Layout, mem: seq<byte>)
    requires at.Ok(|mem|) && WordAt(mem, at.Head()) == 0 && WordAt(mem, at.Tail()) == 0
    ensures RingOk(at, mem, Start())
  {
    hide Word;
    Modulo(0, at.slots, 0, 0);
  }

  lemma {:induction false} TurnsKeep(at: Layout, mem: seq<byte>, t: Threads, turns: seq<Turn>)
    requires RingOk(at, mem, t)
    ensures var (mem', t') := TurnAll(at, mem, t, turns); RingOk(at, mem', t')
    decreases |turns|
  {
    hide Turned, RingOk;
    assert at.Ok(|mem|) by { OkOf(at, mem, t); }
    if turns == [] {
    } else {
      TurnKeeps(at, mem, t, turns[0]);
      var (mem1, t1) := Turned(at, mem, t, turns[0]);
      TurnsKeep(at, mem1, t1, turns[1..]);
    }
  }

  lemma OkOf(at: Layout, mem: seq<byte>, t: Threads)
    requires RingOk(at, mem, t)
    ensures at.Ok(|mem|)
  {
  }

  /** However the threads interleave, the i-th value consumed is i, and once both are
      through, every item was consumed exactly once and in order. */
  lemma ItemsArriveInOrder(at: Layout, mem: seq<byte>, turns: seq<Turn>)
    requires at.Ok(|mem|) && WordAt(mem, at.Head()) == 0 && WordAt(mem, at.Tail()) == 0
    ensures var t := TurnAll(at, mem, Start(), turns).1;
            && (forall m :: 0 <= m < |t.consumed| ==> t.consumed[m] == m)
            && |t.consumed| <= t.i <= at.items
            && (t.j == at.items ==> t.consumed == seq(at.items, m => m))
  {
    hide WordAt, Turned, TurnAll, Layout.Cell;
    StartOk(at, mem);
    TurnsKeep(at, mem, Start(), turns);
  }

  // ---------------------------------------------------------------------------
  // Spinning
  // ---------------------------------------------------------------------------

  predicate BufferFull(at: Layout, mem: seq<byte>)
    requires at.Ok(|mem|)
  {
    at.Next(WordAt(mem, at.Tail())) == WordAt(mem, at.Head())
  }

  predicate BufferEmpty(at: Layout, mem: seq<byte>)
    requires at.Ok(|mem|)
  {
    WordAt(mem, at.Head()) == WordAt(mem, at.Tail())
  }

  /** The producer spins exactly while slots - 1 items are in the buffer, the consumer
      exactly while none is; never both; and neither spins once the other has finished. */
  lemma NeverBothSpin(at: Layout, mem: seq<byte>, t: Threads)
    requires RingOk(at, mem, t)
    ensures BufferFull(at, mem) <==> t.i == t.j + at.slots - 1
    ensures BufferEmpty(at, mem) <==> t.i == t.j
    ensures !(BufferFull(at, mem) && BufferEmpty(at, mem))
    ensures t.i == at.items && t.j < at.items ==> !BufferEmpty(at, mem)
    ensures t.j == at.items ==> t.i == at.items
  {
    hide WordAt, Layout.Cell, Layout.Next;
    Full(at, t.i, t.j);
    CellsApart(at, t.j, t.i);
  }

  function Again(turn: Turn, n: nat): seq<Turn> { seq(n, _ => turn) }

  /** With room in the buffer, the producer alone gets its next item in. */
  lemma {:induction false} ProducerAdvances(at: Layout, mem: seq<byte>, t: Threads) returns (n: nat)
    requires RingOk(at, mem, t) && t.i < at.items && t.i < t.j + at.slots - 1
    ensures var t' := TurnAll(at, mem, t, Again(Producer, n)).1; t'.i == t.i + 1 && t'.j == t.j
    decreases match t.pAt case ReadTail => 3 case AwaitSpace => 2 case WriteSlot => 1 case WriteTail => 0
  {
    hide Word, M.Stored, WordBytes, Layout.Cell, Layout.Next, TurnAll;
    ProducerKeeps(at, mem, t);
    var (mem1, t1) := Turned(at, mem, t, Producer);
    NeverBothSpin(at, mem, t);
    IssueFits(at, t, Producer, |mem|);
    if t.pAt == WriteTail {
      n := 1;
      NoTurns(at, mem1, t1);
      MoreTurns(at, mem, t, Producer, 0);
    } else {
      var rest := ProducerAdvances(at, mem1, t1);
      n := rest + 1;
      MoreTurns(at, mem, t, Producer, rest);
    }
  }

  lemma NoTurns(at: Layout, mem: seq<byte>, t: Threads)
    requires at.Ok(|mem|)
    ensures forall turn :: TurnAll(at, mem, t, Again(turn, 0)) == (mem, t)
  {
  }

  lemma MoreTurns(at: Layout, mem: seq<byte>, t: Threads, turn: Turn, n: nat)
    requires at.Ok(|mem|)
    ensures var (mem1, t1) := Turned(at, mem, t, turn);
            TurnAll(at, mem, t, Again(turn, n + 1)) == TurnAll(at, mem1, t1, Again(turn, n))
  {
    hide Turned;
    assert Again(turn, n + 1)[1..] == Again(turn, n);
  }

  /** Turns that the consumer still needs, at most, if it gets no reason to spin again. */
  function ConsumerWork(at: Layout, t: Threads): nat
    requires at.slots > 0
  {
    match t.cAt
    case ReadHead => 3
    case TailFirst => if t.seen == at.Cell(t.j) then 4 else 2
    case CheckTail => 2
    case ReadSlot => 1
    case WriteHead => 0
  }

  /** With an item in the buffer, the consumer alone gets it out. */
  lemma {:induction false} ConsumerAdvances(at: Layout, mem: seq<byte>, t: Threads) returns (n: nat)
    requires RingOk(at, mem, t) && t.j < t.i
    ensures var t' := TurnAll(at, mem, t, Again(Consumer(false), n)).1; t'.i == t.i && t'.j == t.j + 1
    decreases ConsumerWork(at, t)
  {
    hide Word, M.Stored, WordBytes, Layout.Cell, Layout.Next, TurnAll;
    ConsumerKeeps(at, mem, t, false);
    var turn := Consumer(false);
    var (mem1, t1) := Turned(at, mem, t, turn);
    NeverBothSpin(at, mem, t);
    IssueFits(at, t, turn, |mem|);
    if t.cAt == WriteHead {
      n := 1;
      NoTurns(at, mem1, t1);
      MoreTurns(at, mem, t, turn, 0);
    } else {
      var rest := ConsumerAdvances(at, mem1, t1);
      n := rest + 1;
      MoreTurns(at, mem, t, turn, rest);
    }
  }

  lemma {:induction false} TurnsThenTurns(at: Layout, mem: seq<byte>, t: Threads, a: seq<Turn>, b: seq<Turn>)
    requires at.Ok(|mem|)
    ensures var (mem1, t1) := TurnAll(at, mem, t, a);
            TurnAll(at, mem, t, a + b) == TurnAll(at, mem1, t1, b)
    decreases |a|
  {
    hide Turned;
    if a == [] {
      assert a + b == b;
    } else {
      assert (a + b)[1..] == a[1..] + b;
      var (mem1, t1) := Turned(at, mem, t, a[0]);
      TurnsThenTurns(at, mem1, t1, a[1..], b);
    }
  }

  /** No interleaving gets stuck: from every reachable state both threads can finish. */
  lemma {:induction false} CanFinish(at: Layout, mem: seq<byte>, t: Threads) returns (turns: seq<Turn>)
    requires RingOk(at, mem, t)
    ensures var t' := TurnAll(at, mem, t, turns).1; t'.i == at.items && t'.j == at.items
    decreases 2 * at.items - t.i - t.j
  {
    hide Turned, TurnAll, Layout.Cell, WordAt;
    if t.j == at.items {
      turns := [];
      NoTurns(at, mem, t);
      assert Again(Producer, 0) == [];
    } else {
      var turn := if t.i < at.items && t.i < t.j + at.slots - 1 then Producer else Consumer(false);
      var n;
      if turn.Producer? { n := ProducerAdvances(at, mem, t); } else { n := ConsumerAdvances(at, mem, t); }
      var (mem1, t1) := TurnAll(at, mem, t, Again(turn, n));
      TurnsKeep(at, mem, t, Again(turn, n));
      var rest := CanFinish(at, mem1, t1);
      TurnsThenTurns(at, mem, t, Again(turn, n), rest);
      turns := Again(turn, n) + rest;
    }
  }

  // ---------------------------------------------------------------------------
  // On the cached machine
  // ---------------------------------------------------------------------------

  /** A turn whose access goes through the caches. */
  function CachedTurn(at: Layout, s: C.State, t: Threads, turn: Turn): (r: Outcome<(C.State, Threads)>)
    requires at.Sound() && |s.cores| >= 2
    ensures r.Done? ==> |r.value.0.cores| == |s.cores|
  {
    if Finished(at, t, turn) then Done((s, t)) else
    IssueInQueue(at, t, turn);
    var (s', out) :- M.Step(s, Issue(at, t, turn));
    Done((s', Resume(at, t, turn, out)))
  }

  function CachedTurns(at: Layout, s: C.State, t: Threads, turns: seq<Turn>): (r: Outcome<(C.State, Threads)>)
    requires at.Sound() && |s.cores| >= 2
    ensures r.Done? ==> |r.value.0.cores| == |s.cores|
    decreases |turns|
  {
    if turns == [] then Done((s, t)) else
    var (s1, t1) :- CachedTurn(at, s, t, turns[0]);
    CachedTurns(at, s1, t1, turns[1..])
  }

  /** Caches that have lost nothing and hold lines of these pages only. */
  ghost predicate Tidy(s: C.State, pages: set<nat>) {
    M.Good(s) && s.lossless && W.Confined(s, pages) && |s.cores| >= 2 && |s.mem| % LINE_SIZE == 0
  }

  /** The queue's pages are among pages that fit L2. */
  ghost predicate Within(at: Layout, pages: set<nat>) { at.Pages() <= pages && W.FitsL2(pages) }

  lemma AccessIsFlat(s: C.State, op: M.Op, pages: set<nat>)
    requires Tidy(s, pages) && W.FitsL2(pages) && op.Fits(|s.cores|) && op.pa / PAGE_SIZE in pages
    requires op.pa + op.Width() <= |s.mem| && op.Width() > 0 && !op.kind.Fetching?
    ensures var r := M.Step(s, op);
            && r.Done?
            && Tidy(r.value.0, pages) && |r.value.0.mem| == |s.mem| && |r.value.0.cores| == |s.cores|
            && (M.Bytes(r.value.0), r.value.1) == M.FlatStep(M.Bytes(s), op)
  {
    hide M.Good, M.Bytes, M.Step, M.LineAfter, M.Loses, W.Confined, W.FitsL2;
    assert C.InMemory(s.mem, op.pa / 64);
    M.StepIsAction(s, op);
    M.StepRefinesFlat(s, op);
    W.ConfinedStep(s, op, pages);
  }

  lemma InPages(at: Layout, pa: nat)
    requires at.Sound() && at.base <= pa < at.base + LINE_SIZE + 4 * at.slots
    ensures pa / PAGE_SIZE in at.Pages()
  {
  }

  /** Each turn completes, and is a turn on flat memory. */
  lemma CachedTurnIsFlat(at: Layout, s: C.State, t: Threads, turn: Turn, pages: set<nat>)
    requires at.Ok(|s.mem|) && Within(at, pages) && Tidy(s, pages)
    ensures var r := CachedTurn(at, s, t, turn);
            && r.Done?
            && var (s', t') := r.value;
               Tidy(s', pages) && |s'.mem| == |s.mem| && (M.Bytes(s'), t') == Turned(at, M.Bytes(s), t, turn)
  {
    hide M.Bytes, Word, M.FlatStep, Resume, M.Step, W.FitsL2, W.Confined, M.Good, Layout.Pages;
    if !Finished(at, t, turn) {
      IssueInQueue(at, t, turn);
      var op := Issue(at, t, turn);
      InPages(at, op.pa);
      AccessIsFlat(s, op, pages);
    }
  }

  lemma {:induction false} CachedTurnsAreFlat(at: Layout, s: C.State, t: Threads, turns: seq<Turn>, pages: set<nat>)
    requires at.Ok(|s.mem|) && Within(at, pages) && Tidy(s, pages)
    ensures var r := CachedTurns(at, s, t, turns);
            && r.Done?
            && var (s', t') := r.value;
               Tidy(s', pages) && |s'.mem| == |s.mem| && (M.Bytes(s'), t') == TurnAll(at, M.Bytes(s), t, turns)
    decreases |turns|
  {
    hide M.Bytes, Turned, CachedTurn, Within, M.Good, W.Confined;
    if turns == [] {
    } else {
      CachedTurnIsFlat(at, s, t, turns[0], pages);
      var (s1, t1) := CachedTurn(at, s, t, turns[0]).value;
      CachedTurnsAreFlat(at, s1, t1, turns[1..], pages);
    }
  }

  /** Through the caches, on pages that fit L2, every turn completes and, however the
      threads interleave, every item arrives once and in order. */
  lemma CachedItemsArriveInOrder(at: Layout, s: C.State, turns: seq<Turn>, pages: set<nat>)
    requires at.Ok(|s.mem|) && Within(at, pages) && Tidy(s, pages)
    requires WordAt(M.Bytes(s), at.Head()) == 0 && WordAt(M.Bytes(s), at.Tail()) == 0
    ensures var r := CachedTurns(at, s, Start(), turns);
            && r.Done?
            && var t := r.value.1;
               && (forall m :: 0 <= m < |t.consumed| ==> t.consumed[m] == m)
               && |t.consumed| <= t.i <= at.items
               && (t.j == at.items ==> t.consumed == seq(at.items, m => m))
  {
    hide M.Bytes, TurnAll, CachedTurns, WordAt, Within, Tidy;
    assert |M.Bytes(s)| == |s.mem|;
    CachedTurnsAreFlat(at, s, Start(), turns, pages);
    ItemsArriveInOrder(at, M.Bytes(s), turns);
  }

  /** A queue at physical addresses: core 0 clears head and tail, then the threads run. */
  function PhysicalRun(at: Layout, s: C.State, turns: seq<Turn>): Outcome<(C.State, Threads)>
    requires at.Sound() && |s.cores| >= 2
  {
    hide M.Step, WordBytes, CachedTurns;
    var (s1, _) :- M.Step(s, StoreWord(0, at.Head(), 0));
    var (s2, _) :- M.Step(s1, StoreWord(0, at.Tail(), 0));
    CachedTurns(at, s2, Start(), turns)
  }

  /** For such a queue of up to about four megabytes no proviso is needed at all: with any
      number of cores, whatever memory held, its items arrive once and in order, although
      its threads downgrade each other's dirty lines all the time. */
  lemma PhysicalRunDelivers(at: Layout, n: nat, mem: seq<byte>, turns: seq<Turn>)
    requires at.Ok(|mem|) && |mem| % LINE_SIZE == 0 && n >= 2
    requires LINE_SIZE + 4 * at.slots <= 1022 * PAGE_SIZE
    ensures |C.Init(n, mem).cores| == n
    ensures var r := PhysicalRun(at, C.Init(n, mem), turns);
            && r.Done?
            && var t := r.value.1;
               && (forall m :: 0 <= m < |t.consumed| ==> t.consumed[m] == m)
               && |t.consumed| <= t.i <= at.items
               && (t.j == at.items ==> t.consumed == seq(at.items, m => m))
  {
    hide M.Bytes, CachedTurns, WordAt, W.Confined, W.FitsL2, M.Good, C.Init, M.Step, Word, WordBytes, M.Stored;
    var s, pages := C.Init(n, mem), at.Pages();
    W.WindowFits(at.base / PAGE_SIZE, (LINE_SIZE + 4 * at.slots) / PAGE_SIZE + 2);
    StartsTidy(n, mem, pages);
    InPages(at, at.Head());
    InPages(at, at.Tail());
    var head, tail := StoreWord(0, at.Head(), 0), StoreWord(0, at.Tail(), 0);
    HeadAndTail(at);
    AccessIsFlat(s, head, pages);
    var s1 := M.Step(s, head).value.0;
    AccessIsFlat(s1, tail, pages);
    var s2 := M.Step(s1, tail).value.0;
    WordStored(M.Bytes(s), at.Head(), 0, at.Head());
    WordStored(M.Bytes(s1), at.Tail(), 0, at.Head());
    WordStored(M.Bytes(s1), at.Tail(), 0, at.Tail());
    CachedItemsArriveInOrder(at, s2, turns, pages);
  }

  lemma HeadAndTail(at: Layout)
    requires at.Sound()
    ensures StoreWord(0, at.Head(), 0).Fits(2) && StoreWord(0, at.Tail(), 0).Fits(2)
    ensures StoreWord(0, at.Head(), 0).Width() == 4 == StoreWord(0, at.Tail(), 0).Width()
  {
    hide WordBytes;
  }

  lemma StartsTidy(n: nat, mem: seq<byte>, pages: set<nat>)
    requires n >= 2 && |mem| % LINE_SIZE == 0
    ensures Tidy(C.Init(n, mem), pages) && C.Init(n, mem).mem == mem && |C.Init(n, mem).cores| == n
  {
    hide M.Good, C.Init;
    M.InitGood(n, mem);
    R.InitMemory(n, mem);
    W.CoresOfInit(n, mem);
  }
}
