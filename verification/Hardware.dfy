/** cpu.cpp as an object: the CPU's fields, updated in place by each routine, with every
    routine proved to compute the function of module Caches that specifies it. */
module Hardware {
  import opened Types
  import opened Coherence
  import opened Caches
  import opened Ways
  import opened Paging
  import opened Tlb
  import opened System
  import opened Snoops
  import Frames
  import Losses
  import Machine
  import Plru

  /** Physical memory, a buffer of fixed size. */
  class Memory {
    const data: array<byte>

    constructor (size: nat)
      ensures fresh(data) && data.Length == size
    {
      data := new byte[size](_ => 0);
    }

    /** memcpy of a line into memory. */
    method WriteLine(n: nat, line: Line)
      requires 64 * n + 64 <= data.Length
      modifies data
      ensures data[..] == SetMemLine(old(data[..]), n, line)
    {
      var i := 0;
      while i < LINE_SIZE
        invariant i <= LINE_SIZE
        invariant forall a :: 0 <= a < data.Length ==>
          data[a] == if 64 * n <= a < 64 * n + i then line[a - 64 * n] else old(data[a])
      {
        data[64 * n + i] := line[i];
        i := i + 1;
      }
    }

    /** memset of a frame. */
    method Clear(f: nat)
      requires f + PAGE_SIZE <= data.Length
      modifies data
      ensures data[..] == ZeroFrame(old(data[..]), f)
    {
      var i := 0;
      while i < PAGE_SIZE
        invariant i <= PAGE_SIZE
        invariant forall a :: 0 <= a < data.Length ==> data[a] == if f <= a < f + i then 0 else old(data[a])
      {
        data[f + i] := 0;
        i := i + 1;
      }
    }

    /** Assignment to a page-table entry: the eight bytes of the address, then the flag. */
    method WriteEntry(a: nat, pte: Pte)
      requires a + ENTRY_SIZE <= data.Length
      modifies data
      ensures data[..] == WritePte(old(data[..]), a, pte)
    {
      hide WordBytes;
      var bytes := WordBytes(pte.pa, 8);
      var i := 0;
      while i < 8
        invariant i <= 8
        invariant forall b :: 0 <= b < data.Length ==> data[b] == if a <= b < a + i then bytes[b - a] else old(data[b])
      {
        data[a + i] := bytes[i];
        i := i + 1;
      }
      data[a + 8] := if pte.present then 1 else 0;
    }
  }

  class Process {
    var pml4: Root

    /** process_create */
    constructor ()
      ensures pml4 == seq(PAGE_TABLE_ENTRIES, _ => Pte(0, false))
    {
      pml4 := seq(PAGE_TABLE_ENTRIES, _ => Pte(0, false));
    }
  }

  class Cpu {
    const memory: Memory
    var cores: seq<Core>
    var tlbs: seq<CoreTlbs>
    /** active_pml4, which process_switch, its only writer, sets alike on every core. */
    var active: Process?
    var l2Sets: L2Array
    var log: seq<Event>
    var stamp: nat
    ghost var lossless: bool

    /** The CPU and its memory as one value. */
    ghost function State(): (s: State)
      reads this, memory.data
    {
      Caches.State(cores, l2Sets, memory.data[..], log, stamp, lossless)
    }

    /** The CPU, its memory, its running process and an allocator as a machine of one process. */
    ghost function Whole(fa: Frames.FrameAllocator): (y: System)
      requires active != null
      reads this, memory.data, active
    {
      System(State(), [active.pml4], fa, tlbs, 0)
    }

    constructor (memory: Memory, n: nat)
      ensures this.memory == memory && State() == Caches.Init(n, memory.data[..])
      ensures |tlbs| == n && active == null
    {
      this.memory := memory;
      active := null;
      tlbs := seq(n, _ => CoreTlbs(seq(L1_DTLB_SETS, _ => EmptyTlbSet()), seq(L2_DTLB_SETS, _ => EmptyTlbSet()),
                                   seq(ITLB_SETS, _ => EmptyTlbSet())));
      cores := seq(n, _ => EmptyCore());
      l2Sets := seq(L2_SETS, _ => EmptyL2());
      log, stamp, lossless := [], 0, true;
    }

    // -------------------------------------------------------------------------
    // Assignments to one set, and the callback
    // -------------------------------------------------------------------------

    method SetL1(c: nat, instr: bool, i: nat, l1: L1Set)
      requires c < |cores| && i < L1_SETS
      modifies `cores
      ensures State() == PutL1(old(State()), c, instr, i, l1)
    {
      var core := cores[c];
      if instr {
        cores := cores[c := core.(l1i := core.l1i[i := l1])];
      } else {
        cores := cores[c := core.(l1d := core.l1d[i := l1])];
      }
    }

    method SetL2(k: nat, l2: L2Set)
      requires k < L2_SETS
      modifies `l2Sets
      ensures State() == PutL2(old(State()), k, l2)
    {
      l2Sets := l2Sets[k := l2];
    }

    /** g_cpu_callback */
    method Callback(etype: EventType, core: nat, level: nat, index: nat, way: nat, address: nat,
                    oldState: Mesi, newState: Mesi, data: Option<Line>)
      modifies `log
      ensures State() == Emit(old(State()), etype, core, level, index, way, address, oldState, newState, data)
    {
      log := log + [Event(etype, core, level, index, way, address, oldState, newState, data, stamp)];
    }

    // -------------------------------------------------------------------------
    // Snoops
    // -------------------------------------------------------------------------

    method SnoopDowngradePeers(sharers: set<nat>, n: nat, w2: nat, line: Line) returns (line': Line)
      requires w2 < NUM_L2_WAYS
      modifies `cores, `l2Sets, `log
      ensures (State(), line') == Caches.SnoopDowngradePeers(old(State()), sharers, n, w2, line)
    {
      var k := n % 4096;
      SetL2(k, l2Sets[k].(state := l2Sets[k].state[w2 := Shared]));
      line' := line;
      var rest := sharers;
      while rest != {}
        invariant DowngradePeers(State(), rest, n, w2, line')
            == Caches.SnoopDowngradePeers(old(State()), sharers, n, w2, line)
        decreases rest
      {
        var c := LowestBit(rest);
        line' := DowngradePeer(c, n, w2, line');
        rest := rest - {c};
      }
    }

    method DowngradePeer(c: nat, n: nat, w2: nat, line: Line) returns (line': Line)
      requires w2 < NUM_L2_WAYS
      modifies `cores, `l2Sets, `log
      ensures (State(), line') == Caches.DowngradePeer(old(State()), c, n, w2, line)
    {
      line' := line;
      if c < |cores| {
        var l1 := cores[c].l1d[n % 64];
        var w := FindL1Way(l1, n / 64);
        if w < NUM_L1_WAYS {
          if l1.state[w] == Modified {
            line' := l1.data[w];
            var l2 := l2Sets[n % 4096];
            SetL2(n % 4096, l2.(data := l2.data[w2 := l1.data[w]]));
          }
          Callback(SnoopDowngrade, c, 1, n % 64, w, 0, l1.state[w], Shared, Some(l1.data[w]));
          SetL1(c, false, n % 64, l1.(state := l1.state[w := Shared]));
        }
      }
    }

    method SnoopInvalidatePeers(sharers: set<nat>, n: nat, w2: nat, line: Line) returns (line': Line)
      requires w2 < NUM_L2_WAYS
      modifies `cores, `l2Sets, `log
      ensures (State(), line') == InvalidatePeers(old(State()), sharers, n, w2, line)
    {
      line' := line;
      var rest := sharers;
      while rest != {}
        invariant InvalidatePeers(State(), rest, n, w2, line') == InvalidatePeers(old(State()), sharers, n, w2, line)
        decreases rest
      {
        var c := LowestBit(rest);
        line' := InvalidatePeer(c, n, w2, line');
        rest := rest - {c};
      }
    }

    method InvalidatePeer(c: nat, n: nat, w2: nat, line: Line) returns (line': Line)
      requires w2 < NUM_L2_WAYS
      modifies `cores, `l2Sets, `log
      ensures (State(), line') == Caches.InvalidatePeer(old(State()), c, n, w2, line)
    {
      line' := line;
      var l2 := l2Sets[n % 4096];
      SetL2(n % 4096, l2.(dm := l2.dm[w2 := l2.dm[w2] - {c}]));
      if c < |cores| {
        var l1 := cores[c].l1d[n % 64];
        var w := FindL1Way(l1, n / 64);
        if w < NUM_L1_WAYS {
          if l1.state[w] == Modified {
            line' := l1.data[w];
          }
          Callback(SnoopInvalidate, c, 1, n % 64, w, 0, l1.state[w], Invalid, Some(l1.data[w]));
          SetL1(c, false, n % 64, l1.(state := l1.state[w := Invalid]));
        }
      }
    }

    method SnoopInvalidatePeersI(sharers: set<nat>, n: nat)
      modifies `cores, `log
      ensures State() == InvalidatePeersI(old(State()), sharers, n)
    {
      var rest := sharers;
      while rest != {}
        invariant InvalidatePeersI(State(), rest, n) == InvalidatePeersI(old(State()), sharers, n)
        decreases rest
      {
        var c := LowestBit(rest);
        rest := rest - {c};
        ghost var before := State();
        if c < |cores| {
          var l1 := cores[c].l1i[n % 64];
          var w := FindL1Way(l1, n / 64);
          if w < NUM_L1_WAYS {
            Callback(L1iSnoopInvalidate, c, 1, n % 64, w, 0, l1.state[w], Invalid, None);
            SetL1(c, true, n % 64, l1.(state := l1.state[w := Invalid]));
          }
        }
        assert State() == InvalidatePeerI(before, c, n);
      }
    }

    // -------------------------------------------------------------------------
    // Evictions; `ok` is false where the source calls std::abort
    // -------------------------------------------------------------------------

    /** Where the invariants hold no eviction aborts, and they hold again after it. */
    static lemma EvictL1Safe(s: State, c: nat, instr: bool, i: nat)
      requires c < |s.cores| && i < L1_SETS
      ensures var r := Caches.EvictL1(s, c, instr, i);
              Inv(s) ==> r.Done? && Inv(r.value.0) && GetL1(r.value.0, c, instr, i).state[r.value.1] == Invalid
    {
      hide Inv, Caches.EvictL1;
      if Inv(s) { EvictL1Moves(s, c, instr, i); }
    }

    static lemma EvictL2Safe(s: State, k: nat)
      requires k < L2_SETS
      ensures var r := Caches.EvictL2(s, k);
              Inv(s) ==> r.Done? && Inv(r.value.0) && r.value.0.l2[k].state[r.value.1] == Invalid
    {
      hide Inv, Caches.EvictL2;
      if Inv(s) { EvictL2Moves(s, k); }
    }

    /** evict_l1<IS_INSTR> */
    method EvictL1(c: nat, instr: bool, i: nat) returns (ok: bool, way: nat)
      requires c < |cores| && i < L1_SETS
      modifies `cores, `l2Sets, `log
      ensures var r := Caches.EvictL1(old(State()), c, instr, i);
              ok == r.Done? && (ok ==> (State(), way) == r.value)
      ensures old(Inv(State())) ==>
                ok && Inv(State()) && GetL1(State(), c, instr, i).state[way] == Invalid
    {
      hide Inv;
      EvictL1Safe(State(), c, instr, i);
      hide L2WriteBack, L2Release, Plru.VictimFrom;
      var l1 := if instr then cores[c].l1i[i] else cores[c].l1d[i];
      way := InvalidWay(l1.state);
      if way < NUM_L1_WAYS {
        return true, way;
      }
      way := Plru.PlruVictim(l1.plru);
      ok := EvictWay(c, instr, i, way);
    }

    /** evict_l1 from the choice of its victim on. */
    method EvictWay(c: nat, instr: bool, i: nat, v: nat) returns (ok: bool)
      requires c < |cores| && i < L1_SETS && v < NUM_L1_WAYS
      modifies `cores, `l2Sets, `log
      ensures var s := old(State());
              var l1 := GetL1(s, c, instr, i);
              var n := l1.tag[v] * 64 + i;
              var l2 := s.l2[n % 4096];
              var w2 := Find(l2.tag, l2.state, n / 4096);
              var l2' := if w2 == NUM_L2_WAYS then l2
                         else if !instr && l1.state[v] == Modified then L2WriteBack(l2, c, w2, l1.data[v])
                         else L2Release(l2, c, w2, instr);
              var s1 := Emit(PutL2(s, n % 4096, l2'), L1dEvict, c, 1, i, v, 64 * n, l1.state[v], Invalid,
                             Some(l1.data[v]));
              && ok == (w2 < NUM_L2_WAYS)
              && (ok ==> State() == PutL1(s1, c, instr, i, L1Drop(l1, v)))
    {
      hide L2WriteBack, L2Release;
      var l1 := if instr then cores[c].l1i[i] else cores[c].l1d[i];
      var n := l1.tag[v] * 64 + i;
      var l2 := l2Sets[n % 4096];
      var w2 := L2FindWay(l2, n / 4096);
      if w2 == NUM_L2_WAYS {
        return false;
      }
      if !instr && l1.state[v] == Modified {
        SetL2(n % 4096, L2WriteBack(l2, c, w2, l1.data[v]));
      } else {
        SetL2(n % 4096, L2Release(l2, c, w2, instr));
      }
      Callback(L1dEvict, c, 1, i, v, 64 * n, l1.state[v], Invalid, Some(l1.data[v]));
      SetL1(c, instr, i, l1.(state := l1.state[v := Invalid]));
      ok := true;
    }

    method BackInvalidateD(c: nat, n: nat, v: nat) returns (ok: bool)
      requires v < NUM_L2_WAYS
      modifies `cores, `l2Sets, `log
      ensures var r := Caches.BackInvalidateD(old(State()), c, n, v);
              ok == r.Done? && (ok ==> State() == r.value)
    {
      if c >= |cores| {
        return false;
      }
      var l1 := cores[c].l1d[n % 64];
      var w := FindL1Way(l1, n / 64);
      if w == NUM_L1_WAYS {
        return false;
      }
      if l1.state[w] == Modified {
        var l2 := l2Sets[n % 4096];
        SetL2(n % 4096, l2.(data := l2.data[v := l1.data[w]], state := l2.state[v := Modified]));
      }
      Callback(SnoopInvalidate, c, 1, n % 64, w, 64 * n, l1.state[w], Invalid, Some(l1.data[w]));
      SetL1(c, false, n % 64, l1.(state := l1.state[w := Invalid]));
      ok := true;
    }

    method BackInvalidateI(c: nat, n: nat) returns (ok: bool)
      modifies `cores, `log
      ensures var r := Caches.BackInvalidateI(old(State()), c, n);
              ok == r.Done? && (ok ==> State() == r.value)
    {
      if c >= |cores| {
        return false;
      }
      var l1 := cores[c].l1i[n % 64];
      var w := FindL1Way(l1, n / 64);
      if w == NUM_L1_WAYS {
        return false;
      }
      Callback(L1iSnoopInvalidate, c, 1, n % 64, w, 64 * n, l1.state[w], Invalid, None);
      SetL1(c, true, n % 64, l1.(state := l1.state[w := Invalid]));
      ok := true;
    }

    /** evict_l2 */
    method EvictL2(k: nat) returns (ok: bool, way: nat)
      requires k < L2_SETS
      modifies `cores, `l2Sets, `log, `lossless, memory.data
      ensures var r := Caches.EvictL2(old(State()), k);
              ok == r.Done? && (ok ==> (State(), way) == r.value)
      ensures old(Inv(State())) ==> ok && Inv(State()) && l2Sets[k].state[way] == Invalid
    {
      hide Inv;
      EvictL2Safe(State(), k);
      hide Caches.RetireL2, Caches.BackInvalidateD, Caches.BackInvalidateI, Plru.VictimFrom;
      way := InvalidWay(l2Sets[k].state);
      if way < NUM_L2_WAYS {
        return true, way;
      }
      way := Plru.PlruVictim(l2Sets[k].plru);
      var n := l2Sets[k].tag[way] * 4096 + k;
      var validD, validI := l2Sets[k].dm[way], l2Sets[k].im[way];
      var all := validD + validI;
      assert n % 4096 == k;
      ghost var whole := BackInvalidate(old(State()), all, validD, validI, n, way);
      while all != {}
        invariant |cores| == old(|cores|) && memory.data[..] == old(memory.data[..])
        invariant BackInvalidate(State(), all, validD, validI, n, way) == whole
        decreases all
      {
        var c := LowestBit(all);
        all := all - {c};
        if c in validD {
          ok := BackInvalidateD(c, n, way);
          if !ok {
            return;
          }
        }
        if c in validI {
          ok := BackInvalidateI(c, n);
          if !ok {
            return;
          }
        }
      }
      ok := RetireL2(n, way);
    }

    /** The end of evict_l2: write back if MODIFIED, report, clear the way. */
    method RetireL2(n: nat, v: nat) returns (ok: bool)
      requires v < NUM_L2_WAYS
      modifies `l2Sets, `log, `lossless, memory.data
      ensures var r := Caches.RetireL2(old(State()), n, v);
              ok == r.Done? && (ok ==> State() == r.value)
    {
      var l2 := l2Sets[n % 4096];
      if l2.state[v] == Modified {
        if 64 * n + 64 > memory.data.Length {
          return false;
        }
        memory.WriteLine(n, l2.data[v]);
      } else {
        lossless := lossless && l2.data[v] == MemLine(memory.data[..], n);
      }
      Callback(L2Evict, 0, 2, n % 4096, v, 64 * n, l2.state[v], Invalid, Some(l2.data[v]));
      SetL2(n % 4096, l2.(dm := l2.dm[v := {}], im := l2.im[v := {}], state := l2.state[v := Invalid]));
      ok := true;
    }

    // -------------------------------------------------------------------------
    // Prefetching
    // -------------------------------------------------------------------------

    /** pf_fill_l2; `filled` is its result. */
    method PfFillL2(from: int, next: int) returns (ok: bool, filled: bool)
      modifies `cores, `l2Sets, `log, `lossless, memory.data
      ensures var r := PfFill(old(State()), from, next);
              ok == r.Done? && (ok ==> (State(), filled) == r.value)
    {
      hide Inv;
      ok, filled := true, false;
      if next / 4096 != from / 4096 {
        return;
      }
      if next < LINE_SIZE || next + LINE_SIZE > memory.data.Length {
        return;
      }
      var n: nat := next / 64;
      var found := L2FindWay(l2Sets[n % 4096], n / 4096);
      if found < NUM_L2_WAYS {
        filled := true;
        return;
      }
      var way;
      ok, way := EvictL2(n % 4096);
      if !ok {
        return;
      }
      var line := MemLine(memory.data[..], n);
      ok := L2CacheFill(n, way, line, Exclusive, {}, {});
      if !ok {
        return;
      }
      Callback(PrefetchL2, 0, 2, n % 4096, way, 64 * n, Invalid, Exclusive, Some(line));
      filled := true;
    }

    /** Both overloads of l2_cache_fill. */
    method L2CacheFill(n: nat, way: nat, line: Line, state: Mesi, dm: set<nat>, im: set<nat>) returns (ok: bool)
      requires way < NUM_L2_WAYS
      modifies `l2Sets
      ensures var r := L2Install(old(l2Sets)[n % 4096], n / 4096, way, line, state, dm, im);
              ok == r.Done? && (ok ==> State() == PutL2(old(State()), n % 4096, r.value))
    {
      var l2 := l2Sets[n % 4096];
      if l2.dm[way] != {} || l2.im[way] != {} {
        return false;
      }
      var plru := Plru.PlruUpdate(l2.plru, way);
      SetL2(n % 4096, L2Ways(l2.tag[way := n / 4096], l2.state[way := state], l2.dm[way := dm], l2.im[way := im],
                             l2.data[way := line], plru));
      ok := true;
    }

    /** The burst loop of pf_stream_on_miss from `head` on. */
    method PfBurst(head: int, miss: int, stride: int) returns (ok: bool, head': int, blocked: bool)
      modifies `cores, `l2Sets, `log, `lossless, memory.data
      ensures var r := RunBurst(old(State()), head, miss, stride, PREFETCH_DISTANCE + 1);
              ok == r.Done? && (ok ==> Burst(State(), head', blocked) == r.value)
    {
      hide PfFill;
      ok, head', blocked := true, head, false;
      var issued := 0;
      ghost var whole := RunBurst(State(), head, miss, stride, PREFETCH_DISTANCE + 1);
      while issued < PREFETCH_DISTANCE + 1
        invariant issued <= PREFETCH_DISTANCE + 1
        invariant RunBurst(State(), head', miss, stride, PREFETCH_DISTANCE + 1 - issued) == whole
      {
        if (head' - miss) * stride >= PREFETCH_DISTANCE * LINE_SIZE {
          return;
        }
        var next := head' + stride * LINE_SIZE;
        var filled;
        ok, filled := PfFillL2(head', next);
        if !ok {
          return;
        }
        if !filled {
          blocked := true;
          return;
        }
        head' := next;
        issued := issued + 1;
      }
    }

    /** pf_stream_on_miss. The entry is held in a local while its burst runs and stored
        back after it; the burst does not look at the table. */
    method PfStreamOnMiss(c: nat, miss: int) returns (ok: bool)
      requires c < |cores|
      modifies `cores, `l2Sets, `log, `lossless, memory.data
      ensures var r := StreamOnMiss(old(State()), c, miss);
              ok == r.Done? && (ok ==> State() == r.value)
    {
      hide RunBurst, PutPf, StreamMatches, Advanced;
      var pf := cores[c].pf;
      var i := 0;
      while i < NUM_STREAMS
        invariant i <= NUM_STREAMS
        invariant State() == old(State())
        invariant MatchFrom(pf.streams, miss, i) == MatchFrom(pf.streams, miss, 0)
      {
        var matched, stream := PfMatch(pf.streams[i], miss);
        if matched {
          ok := PfMatched(c, i, stream, miss);
          return;
        }
        i := i + 1;
      }
      var victim := PfLruEvict(pf.age);
      StoreStream(c, victim, Stream(miss, miss, Unknown, Training));
      ok := true;
    }

    /** Whether an entry matches the miss, and the entry trained by it. */
    static method PfMatch(stream: Stream, miss: int) returns (matched: bool, trained: Stream)
      ensures matched == StreamMatches(stream, miss)
      ensures matched ==> trained == Advanced(stream, miss)
    {
      matched, trained := false, stream;
      if stream.confidence == Unused {
        return;
      }
      if stream.confidence == Training {
        if miss == stream.lastLine + LINE_SIZE {
          trained := stream.(direction := Forward, confidence := Steady, prefetchHead := miss);
        } else if miss == stream.lastLine - LINE_SIZE {
          trained := stream.(direction := Backward, confidence := Steady, prefetchHead := miss);
        } else {
          return;
        }
      } else {
        var dir := stream.direction.Sign();
        var fromLast, fromHead := (miss - stream.lastLine) * dir, (miss - stream.prefetchHead) * dir;
        if fromLast < LINE_SIZE || fromHead > LINE_SIZE {
          return;
        }
      }
      matched := true;
      trained := trained.(lastLine := miss);
    }

    /** The burst of a matched stream, and the stream after it. */
    method PfMatched(c: nat, i: nat, stream: Stream, miss: int) returns (ok: bool)
      requires c < |cores| && i < NUM_STREAMS
      modifies `cores, `l2Sets, `log, `lossless, memory.data
      ensures var stride := stream.direction.Sign();
              var r := RunBurst(old(State()), stream.prefetchHead, miss, stride, PREFETCH_DISTANCE + 1);
              && ok == r.Done?
              && (ok ==> State() == PutPf(r.value.state, c, i, Settled(stream, r.value.head, r.value.blocked)))
    {
      var head, blocked;
      ok, head, blocked := PfBurst(stream.prefetchHead, miss, stream.direction.Sign());
      if !ok {
        return;
      }
      if blocked {
        StoreStream(c, i, Stream(stream.lastLine, head, Unknown, Training));
      } else {
        StoreStream(c, i, stream.(prefetchHead := head));
      }
    }

    method StoreStream(c: nat, i: nat, stream: Stream)
      requires c < |cores| && i < NUM_STREAMS
      modifies `cores
      ensures State() == PutPf(old(State()), c, i, stream)
    {
      var pf := cores[c].pf;
      var age := PfLruUpdate(pf.age, i);
      cores := cores[c := cores[c].(pf := PfState(pf.streams[i := stream], age))];
    }

    method CountPmc(c: nat, pmc: Pmc)
      requires c < |cores|
      modifies `cores
      ensures State() == Count(old(State()), c, pmc)
    {
      cores := cores[c := cores[c].(pmc := pmc)];
    }

    // -------------------------------------------------------------------------
    // cpu_read after translation
    // -------------------------------------------------------------------------

    method L1CacheFill(c: nat, instr: bool, n: nat, way: nat, line: Line, state: Mesi)
      requires c < |cores| && way < NUM_L1_WAYS
      modifies `cores
      ensures var l1 := GetL1(old(State()), c, instr, n % 64);
              State() == PutL1(old(State()), c, instr, n % 64, L1Fill(l1, n / 64, way, line, state))
    {
      var l1 := if instr then cores[c].l1i[n % 64] else cores[c].l1d[n % 64];
      var plru := Plru.PlruUpdate(l1.plru, way);
      SetL1(c, instr, n % 64, L1Ways(l1.tag[way := n / 64], l1.state[way := state], l1.data[way := line], plru));
    }

    method L1Touched(c: nat, instr: bool, i: nat, way: nat)
      requires c < |cores| && i < L1_SETS && way < NUM_L1_WAYS
      modifies `cores
      ensures State() == PutL1(old(State()), c, instr, i, L1Touch(GetL1(old(State()), c, instr, i), way))
    {
      var l1 := if instr then cores[c].l1i[i] else cores[c].l1d[i];
      var plru := Plru.PlruUpdate(l1.plru, way);
      SetL1(c, instr, i, l1.(plru := plru));
    }

    /** l2_cache_read_way and the snoop of the other sharers. */
    method L2CacheRead(c: nat, instr: bool, n: nat, w2: nat) returns (line: Line, shared: bool)
      requires c < |cores| && w2 < NUM_L2_WAYS
      modifies `cores, `l2Sets, `log
      ensures (State(), line, shared) == ReadL2Way(old(State()), c, instr, n, w2)
    {
      var l2 := l2Sets[n % 4096];
      line := l2.data[w2];
      var plru := Plru.PlruUpdate(l2.plru, w2);
      if instr {
        SetL2(n % 4096, l2.(plru := plru, im := l2.im[w2 := l2.im[w2] + {c}]));
      } else {
        SetL2(n % 4096, l2.(plru := plru, dm := l2.dm[w2 := l2.dm[w2] + {c}]));
      }
      var dSharers, iSharers := l2Sets[n % 4096].dm[w2] - {c}, l2Sets[n % 4096].im[w2] - {c};
      SharersSame(l2.dm[w2], l2.im[w2], c);
      shared := dSharers + iSharers != {};
      if shared {
        line := SnoopDowngradePeers(dSharers, n, w2, line);
      }
    }

    static lemma SharersSame(dm: set<nat>, im: set<nat>, c: nat)
      ensures (dm + {c}) - {c} == dm - {c} && (im + {c}) - {c} == im - {c}
    {
    }

    method ReadAt(c: nat, pa: nat, size: nat) returns (ok: bool, data: seq<byte>)
      requires c < |cores| && pa % 64 + size <= LINE_SIZE
      modifies `cores, `l2Sets, `log, `lossless, memory.data
      ensures var r := Read(old(State()), c, pa, size);
              ok == r.Done? && (ok ==> (State(), data) == r.value)
    {
      var n, offset := pa / 64, pa % 64;
      data := [];
      var l1 := cores[c].l1d[n % 64];
      var way := FindL1Way(l1, n / 64);
      if way < NUM_L1_WAYS {
        Callback(L1dHit, c, 1, n % 64, way, pa, l1.state[way], l1.state[way], Some(l1.data[way]));
        CountPmc(c, cores[c].pmc.(l1dHits := cores[c].pmc.l1dHits + 1));
        L1Touched(c, false, n % 64, way);
        return true, l1.data[way][offset..offset + size];
      }
      var l2Hit := L2FindWay(l2Sets[n % 4096], n / 4096);
      var line;
      if l2Hit < NUM_L2_WAYS {
        ok, line := ReadFromL2(c, pa, l2Hit);
      } else {
        ok, line := ReadFromMemory(c, pa);
      }
      if ok {
        data := line[offset..offset + size];
      }
    }

    method ReadFromL2(c: nat, pa: nat, w2: nat) returns (ok: bool, line: Line)
      requires c < |cores| && w2 < NUM_L2_WAYS
      modifies `cores, `l2Sets, `log
      ensures var r := Caches.ReadFromL2(old(State()), c, pa, w2);
              ok == r.Done? && (ok ==> (State(), line) == r.value)
    {
      hide Caches.EvictL1, ReadL2Way, L1Fill, Inv;
      var n := pa / 64;
      line := ZeroLine();
      var state := l2Sets[n % 4096].state[w2];
      Callback(L2Hit, c, 2, n % 4096, w2, pa, state, state, None);
      var victim;
      ok, victim := EvictL1(c, false, n % 64);
      if !ok {
        return;
      }
      var shared;
      line, shared := L2CacheRead(c, false, n, w2);
      var fill := if shared then Shared else Exclusive;
      CountPmc(c, cores[c].pmc.(l2Hits := cores[c].pmc.l2Hits + 1));
      L1CacheFill(c, false, n, victim, line, fill);
      Callback(L1dFill, c, 1, n % 64, victim, pa, Invalid, fill, Some(line));
    }

    /** evict_l2, evict_l1, l2_cache_fill and l1_cache_fill: of the given line, or of the
        line as memory holds it once the evictions are done. */
    method FillBoth(c: nat, instr: bool, n: nat, given: Option<Line>, state: Mesi) returns (ok: bool)
      requires c < |cores|
      modifies `cores, `l2Sets, `log, `lossless, memory.data
      ensures var room := MakeRoom(old(State()), c, instr, n);
              if room.Abort? then !ok else
              var line := if given.Some? then given.value else MemLine(room.value.0.mem, n);
              var r := InstallBoth(room.value.0, c, instr, n, room.value.1, room.value.2, line, state);
              ok == r.Done? && (ok ==> State() == r.value)
    {
      hide Caches.EvictL1, Caches.EvictL2, Plru.Update, Inv;
      var w2, w1;
      ok, w2 := EvictL2(n % 4096);
      if !ok {
        return;
      }
      ok, w1 := EvictL1(c, instr, n % 64);
      if !ok {
        return;
      }
      var line := if given.Some? then given.value else MemLine(memory.data[..], n);
      ok := L2CacheFill(n, w2, line, state, if instr then {} else {c}, if instr then {c} else {});
      if !ok {
        return;
      }
      if instr {
        L1CacheFill(c, true, n, w1, line, Shared);
      } else {
        Callback(L2Fill, c, 2, n % 4096, w2, 64 * n, Invalid, state, Some(line));
        L1CacheFill(c, false, n, w1, line, state);
        Callback(L1dFill, c, 1, n % 64, w1, 64 * n, Invalid, state, Some(line));
        Callback(MemFetch, c, 3, 0, 0, 64 * n, Invalid, Invalid, Some(line));
      }
    }

    method ReadFromMemory(c: nat, pa: nat) returns (ok: bool, line: Line)
      requires c < |cores|
      modifies `cores, `l2Sets, `log, `lossless, memory.data
      ensures var r := Caches.ReadFromMemory(old(State()), c, pa);
              ok == r.Done? && (ok ==> (State(), line) == r.value)
    {
      hide MakeRoom, InstallBoth, StreamOnMiss;
      var n := pa / 64;
      line := ZeroLine();
      if 64 * n + 64 > memory.data.Length {
        return false, line;
      }
      ok := FillBoth(c, false, n, None, Exclusive);
      if !ok {
        return;
      }
      ok := PfStreamOnMiss(c, 64 * n);
      if !ok {
        return;
      }
      CountPmc(c, cores[c].pmc.(memFetches := cores[c].pmc.memFetches + 1));
      line := MemLine(memory.data[..], n);
    }

    // -------------------------------------------------------------------------
    // cpu_write after translation
    // -------------------------------------------------------------------------

    method WriteAt(c: nat, pa: nat, bytes: seq<byte>) returns (ok: bool)
      requires c < |cores| && pa % 64 + |bytes| <= LINE_SIZE
      modifies `cores, `l2Sets, `log, `lossless, memory.data
      ensures var r := Write(old(State()), c, pa, bytes);
              ok == r.Done? && (ok ==> State() == r.value)
    {
      var n := pa / 64;
      var way := FindL1Way(cores[c].l1d[n % 64], n / 64);
      if way < NUM_L1_WAYS {
        ok := WriteHit(c, pa, way, bytes);
        return;
      }
      var l2Hit := L2FindWay(l2Sets[n % 4096], n / 4096);
      if l2Hit < NUM_L2_WAYS {
        ok := WriteFromL2(c, pa, l2Hit, bytes);
      } else {
        ok := WriteFromMemory(c, pa, bytes);
      }
    }

    /** The store takes the L2 way over. */
    method TakeOver(c: nat, n: nat, w2: nat, touch: bool)
      requires w2 < NUM_L2_WAYS
      modifies `cores, `l2Sets, `log
      ensures var s := InvalidatePeersI(old(State()), old(State()).l2[n % 4096].im[w2], n);
              var l2 := L2Own(s.l2[n % 4096], c, w2);
              State() == PutL2(s, n % 4096, if touch then L2Touch(l2, w2) else l2)
    {
      hide InvalidatePeersI, Plru.Update;
      SnoopInvalidatePeersI(l2Sets[n % 4096].im[w2], n);
      var l2 := l2Sets[n % 4096];
      l2 := l2.(im := l2.im[w2 := {}]);
      l2 := l2.(dm := l2.dm[w2 := {c}]);
      l2 := l2.(state := l2.state[w2 := Modified]);
      if touch {
        var plru := Plru.PlruUpdate(l2.plru, w2);
        l2 := l2.(plru := plru);
      }
      SetL2(n % 4096, l2);
    }

    method WriteHit(c: nat, pa: nat, way: nat, bytes: seq<byte>) returns (ok: bool)
      requires c < |cores| && way < NUM_L1_WAYS && pa % 64 + |bytes| <= LINE_SIZE
      modifies `cores, `l2Sets, `log
      ensures var r := Caches.WriteHit(old(State()), c, pa, way, bytes);
              ok == r.Done? && (ok ==> State() == r.value)
    {
      hide Upgrade, InvalidatePeersI, L1Write, L2Own, Emit, Count;
      var n := pa / 64;
      var w2 := L2FindWay(l2Sets[n % 4096], n / 4096);
      if w2 == NUM_L2_WAYS {
        return false;
      }
      var was := cores[c].l1d[n % 64].state[way];
      if was == Shared {
        UpgradeShared(c, n, w2);
      }
      TakeOver(c, n, w2, false);
      StoreHit(c, pa, way, was, bytes);
      ok := true;
    }

    /** The last lines of the write-hit branch: count, write, report. */
    method StoreHit(c: nat, pa: nat, way: nat, was: Mesi, bytes: seq<byte>)
      requires c < |cores| && way < NUM_L1_WAYS && pa % 64 + |bytes| <= LINE_SIZE
      modifies `cores, `log
      ensures var i, s := pa / 64 % 64, CountL1d(old(State()), c);
              var l1 := L1Write(s.cores[c].l1d[i], way, pa % 64, bytes);
              State() == Emit(PutL1(s, c, false, i, l1), L1dHit, c, 1, i, way, pa, was, Modified, Some(l1.data[way]))
    {
      hide L1Write;
      var i := pa / 64 % 64;
      CountPmc(c, cores[c].pmc.(l1dHits := cores[c].pmc.l1dHits + 1));
      L1CacheWrite(c, i, way, pa % 64, bytes);
      Callback(L1dHit, c, 1, i, way, pa, was, Modified, Some(cores[c].l1d[i].data[way]));
    }

    /** A store to a SHARED copy: clear the other data caches and touch the L2 way. */
    method UpgradeShared(c: nat, n: nat, w2: nat)
      requires w2 < NUM_L2_WAYS
      modifies `cores, `l2Sets, `log
      ensures State() == Upgrade(old(State()), c, n, w2)
    {
      hide InvalidatePeers, Plru.Update;
      var _ := SnoopInvalidatePeers(l2Sets[n % 4096].dm[w2] - {c}, n, w2, ZeroLine());
      var plru := Plru.PlruUpdate(l2Sets[n % 4096].plru, w2);
      SetL2(n % 4096, l2Sets[n % 4096].(plru := plru));
    }

    /** l1_cache_write_way */
    method L1CacheWrite(c: nat, i: nat, way: nat, offset: nat, bytes: seq<byte>)
      requires c < |cores| && i < L1_SETS && way < NUM_L1_WAYS && offset + |bytes| <= LINE_SIZE
      modifies `cores
      ensures State() == PutL1(old(State()), c, false, i, L1Write(old(State()).cores[c].l1d[i], way, offset, bytes))
    {
      hide Plru.Update, Patch;
      var l1 := cores[c].l1d[i];
      var line := Patch(l1.data[way], offset, bytes);
      var plru := Plru.PlruUpdate(l1.plru, way);
      SetL1(c, false, i, l1.(data := l1.data[way := line], plru := plru, state := l1.state[way := Modified]));
    }

    method WriteFromL2(c: nat, pa: nat, w2: nat, bytes: seq<byte>) returns (ok: bool)
      requires c < |cores| && w2 < NUM_L2_WAYS && pa % 64 + |bytes| <= LINE_SIZE
      modifies `cores, `l2Sets, `log
      ensures var r := Caches.WriteFromL2(old(State()), c, pa, w2, bytes);
              ok == r.Done? && (ok ==> State() == r.value)
    {
      hide InvalidatePeers, InvalidatePeersI, Plru.Update, Patch, Caches.EvictL1, Inv;
      var n := pa / 64;
      var l2 := l2Sets[n % 4096];
      Callback(L2Hit, c, 2, n % 4096, w2, pa, l2.state[w2], l2.state[w2], None);
      var line := SnoopInvalidatePeers(l2.dm[w2] - {c}, n, w2, l2.data[w2]);
      line := Patch(line, pa % 64, bytes);
      var victim;
      ok, victim := EvictL1(c, false, n % 64);
      if !ok {
        return;
      }
      L1CacheFill(c, false, n, victim, line, Modified);
      Callback(L1dFill, c, 1, n % 64, victim, pa, Invalid, Modified, Some(line));
      TakeOver(c, n, w2, true);
      CountPmc(c, cores[c].pmc.(l2Hits := cores[c].pmc.l2Hits + 1));
    }

    method WriteFromMemory(c: nat, pa: nat, bytes: seq<byte>) returns (ok: bool)
      requires c < |cores| && pa % 64 + |bytes| <= LINE_SIZE
      modifies `cores, `l2Sets, `log, `lossless, memory.data
      ensures var r := Caches.WriteFromMemory(old(State()), c, pa, bytes);
              ok == r.Done? && (ok ==> State() == r.value)
    {
      hide MakeRoom, InstallBoth, StreamOnMiss, Patch;
      var n := pa / 64;
      if 64 * n + 64 > memory.data.Length {
        return false;
      }
      var line := Patch(MemLine(memory.data[..], n), pa % 64, bytes);
      ok := FillBoth(c, false, n, Some(line), Modified);
      if !ok {
        return;
      }
      ok := PfStreamOnMiss(c, 64 * n);
      if !ok {
        return;
      }
      CountPmc(c, cores[c].pmc.(memFetches := cores[c].pmc.memFetches + 1));
    }

    // -------------------------------------------------------------------------
    // cpu_fetch after translation
    // -------------------------------------------------------------------------

    method FetchAt(c: nat, pa: nat, size: nat) returns (ok: bool, data: seq<byte>)
      requires c < |cores| && pa % 64 + size <= LINE_SIZE
      modifies `cores, `l2Sets, `log, `lossless, memory.data
      ensures var r := Fetch(old(State()), c, pa, size);
              ok == r.Done? && (ok ==> (State(), data) == r.value)
    {
      hide MakeRoom, InstallBoth, PfFill, ReadL2Way, Caches.EvictL1, Plru.Update;
      var n, offset := pa / 64, pa % 64;
      data := [];
      var l1 := cores[c].l1i[n % 64];
      var way := FindL1Way(l1, n / 64);
      if way < NUM_L1_WAYS {
        CountPmc(c, cores[c].pmc.(l1iHits := cores[c].pmc.l1iHits + 1));
        L1Touched(c, true, n % 64, way);
        return true, l1.data[way][offset..offset + size];
      }
      var line;
      var w2 := L2FindWay(l2Sets[n % 4096], n / 4096);
      if w2 < NUM_L2_WAYS {
        ok, line := FetchFromL2(c, n, w2);
      } else {
        ok, line := FetchFromMemory(c, n);
      }
      if ok {
        data := line[offset..offset + size];
      }
    }

    method FetchFromL2(c: nat, n: nat, w2: nat) returns (ok: bool, line: Line)
      requires c < |cores| && w2 < NUM_L2_WAYS
      modifies `cores, `l2Sets, `log
      ensures var r := Caches.FetchFromL2(old(State()), c, n, w2);
              ok == r.Done? && (ok ==> (State(), line) == r.value)
    {
      hide ReadL2Way, Caches.EvictL1, Plru.Update, Inv;
      line := ZeroLine();
      if l2Sets[n % 4096].state[w2] == Modified {
        return false, line;
      }
      var victim;
      ok, victim := EvictL1(c, true, n % 64);
      if !ok {
        return;
      }
      var shared;
      line, shared := L2CacheRead(c, true, n, w2);
      L1CacheFill(c, true, n, victim, line, Shared);
      CountPmc(c, cores[c].pmc.(l2Hits := cores[c].pmc.l2Hits + 1));
    }

    method FetchFromMemory(c: nat, n: nat) returns (ok: bool, line: Line)
      requires c < |cores|
      modifies `cores, `l2Sets, `log, `lossless, memory.data
      ensures var r := Caches.FetchFromMemory(old(State()), c, n);
              ok == r.Done? && (ok ==> (State(), line) == r.value)
    {
      hide MakeRoom, InstallBoth, PfFill;
      line := ZeroLine();
      if 64 * n + 64 > memory.data.Length {
        return false, line;
      }
      ok := FillBoth(c, true, n, None, Exclusive);
      if !ok {
        return;
      }
      var filled;
      ok, filled := PfFillL2(64 * n, 64 * n + 64);
      if !ok {
        return;
      }
      CountPmc(c, cores[c].pmc.(memFetches := cores[c].pmc.memFetches + 1));
      line := MemLine(memory.data[..], n);
    }

    // -------------------------------------------------------------------------
    // Translation
    // -------------------------------------------------------------------------

    /** page_walk */
    static method PageWalk(pml4: Root, mem: Memory, va: nat) returns (pa: Option<nat>)
      ensures pa == Paging.PageWalk(pml4, mem.data[..], va)
    {
      var v := va / 4096;
      var entry := pml4[Idx(v, 3)];
      var level := 3;
      while level > 0
        invariant level <= 3
        invariant Walk(pml4, mem.data[..], v) ==
                  if !entry.present then None
                  else if level == 0 then Some(entry.pa)
                  else WalkFrom(mem.data[..], entry.pa, level - 1, v)
      {
        if !entry.present {
          return None;
        }
        if mem.data.Length < TABLE_SIZE || entry.pa > mem.data.Length - TABLE_SIZE {
          return None;
        }
        level := level - 1;
        entry := ReadPte(mem.data[..], entry.pa + ENTRY_SIZE * Idx(v, level));
      }
      if !entry.present {
        return None;
      }
      pa := Some(OrOffset(entry.pa, va % 4096));
    }

    /** translate with the instruction TLB alone */
    method TranslateCode(core: nat, va: nat, ghost fa: Frames.FrameAllocator) returns (pa: Option<nat>)
      requires active != null && core < |tlbs|
      modifies `tlbs
      ensures (Whole(fa), pa) == Translated(old(Whole(fa)), core, va, true)
    {
      hide Tlb.Lookup, Tlb.Fill, Paging.PageWalk;
      var vpn := va / 4096;
      var tlb := tlbs[core].itlb;
      var i := SetOf(tlb, vpn);
      var t, frame := TlbLookup(tlb[i], vpn);
      tlb := tlb[i := t];
      if frame.Some? {
        pa := Some(ToAddress(frame.value, va % 4096));
      } else {
        pa := PageWalk(active.pml4, memory, va);
        if pa.Some? {
          t := TlbFill(t, vpn, ToFrame(pa.value));
          tlb := tlb[i := t];
        }
      }
      tlbs := tlbs[core := tlbs[core].(itlb := tlb)];
    }

    /** translate with both data TLBs */
    method TranslateData(core: nat, va: nat, ghost fa: Frames.FrameAllocator) returns (pa: Option<nat>)
      requires active != null && core < |tlbs|
      modifies `tlbs
      ensures (Whole(fa), pa) == Translated(old(Whole(fa)), core, va, false)
    {
      hide Tlb.Lookup, Tlb.Fill, Paging.PageWalk;
      var vpn := va / 4096;
      var l1, l2 := tlbs[core].l1d, tlbs[core].l2d;
      var i, j := SetOf(l1, vpn), SetOf(l2, vpn);
      var t1, frame := TlbLookup(l1[i], vpn);
      l1 := l1[i := t1];
      if frame.Some? {
        pa := Some(ToAddress(frame.value, va % 4096));
      } else {
        var t2;
        t2, frame := TlbLookup(l2[j], vpn);
        l2 := l2[j := t2];
        if frame.Some? {
          pa := Some(ToAddress(frame.value, va % 4096));
          t1 := TlbFill(t1, vpn, frame.value);
          l1 := l1[i := t1];
        } else {
          pa := PageWalk(active.pml4, memory, va);
          if pa.Some? {
            t1 := TlbFill(t1, vpn, ToFrame(pa.value));
            t2 := TlbFill(t2, vpn, ToFrame(pa.value));
            l1, l2 := l1[i := t1], l2[j := t2];
          }
        }
      }
      tlbs := tlbs[core := tlbs[core].(l1d := l1, l2d := l2)];
    }

    // -------------------------------------------------------------------------
    // cpu_read, cpu_write, cpu_fetch; None is a page fault
    // -------------------------------------------------------------------------

    /** Where the system's invariants hold, an access keeps them, so that afterwards too every
        TLB agrees with page_walk; it faults exactly where the page is not mapped. */
    static lemma AccessSafe(y: System, own: Frames.Owners, call: Call)
      requires Fits(y, call) && call.Access?
      ensures var r := Step(y, call);
              SysOk(y, own) && Paging.Small(call.va / 4096) && r.Done? ==>
                && SysOk(r.value.0, own)
                && (r.value.1 == Fault <==> Physical(OsOf(y), y.active, call.va).None?)
    {
      hide SysOk, Step, Paging.Small, Paging.Walk;
      if SysOk(y, own) && Paging.Small(call.va / 4096) { AccessKeeps(y, own, call); }
    }

    method CpuRead(core: nat, va: nat, size: nat, ghost fa: Frames.FrameAllocator, ghost own: Frames.Owners)
      returns (ok: bool, data: Option<seq<byte>>)
      requires active != null && core < |cores| == |tlbs| && va % 64 + size <= LINE_SIZE
      modifies `cores, `tlbs, `l2Sets, `log, `lossless, memory.data
      ensures var r := Step(old(Whole(fa)), Access(core, va, Machine.Load(size), old(stamp)));
              && ok == r.Done?
              && (ok ==> Whole(fa) == r.value.0 && r.value.1 == if data.Some? then Got(data.value) else Fault)
      ensures old(SysOk(Whole(fa), own)) && Paging.Small(va / 4096) && ok ==>
                && SysOk(Whole(fa), own)
                && (data.None? <==> Physical(OsOf(old(Whole(fa))), 0, va).None?)
      ensures old(Machine.Good(State())) && ok && data.Some? ==>
                var pa := Translated(old(Whole(fa)), core, va, false).1;
                && Machine.Good(State()) && pa.Some? && pa.value + size <= memory.data.Length
                && data.value == old(Machine.Bytes(State()))[pa.value..pa.value + size]
    {
      hide Read, Translated, Machine.Good, Machine.Bytes, SysOk, Paging.Small, Physical;
      ghost var before := State();
      AccessSafe(Whole(fa), own, Access(core, va, Machine.Load(size), stamp));
      ok, data := true, None;
      var pa := TranslateData(core, va, fa);
      if pa.None? {
        return;
      }
      if pa.value % 64 + size > LINE_SIZE {
        return false, None;
      }
      if Machine.Good(before) { Machine.LoadReturnsBytes(before, core, pa.value, size); }
      var bytes;
      ok, bytes := ReadAt(core, pa.value, size);
      data := Some(bytes);
    }

    method CpuWrite(core: nat, va: nat, bytes: seq<byte>, ghost fa: Frames.FrameAllocator, ghost own: Frames.Owners)
      returns (ok: bool, done: bool)
      requires active != null && core < |cores| == |tlbs| && va % 64 + |bytes| <= LINE_SIZE
      modifies `cores, `tlbs, `l2Sets, `log, `lossless, memory.data
      ensures var r := Step(old(Whole(fa)), Access(core, va, Machine.Store(bytes), old(stamp)));
              && ok == r.Done?
              && (ok ==> Whole(fa) == r.value.0 && r.value.1 == if done then Got([]) else Fault)
      ensures old(SysOk(Whole(fa), own)) && Paging.Small(va / 4096) && ok ==>
                && SysOk(Whole(fa), own)
                && (!done <==> Physical(OsOf(old(Whole(fa))), 0, va).None?)
      ensures old(Machine.Good(State())) && ok && done ==>
                var pa := Translated(old(Whole(fa)), core, va, false).1;
                && Machine.Good(State()) && pa.Some? && pa.value + |bytes| <= memory.data.Length
                && (old(lossless) ==>
                      var flat := Machine.Stored(old(Machine.Bytes(State())), pa.value, bytes);
                      var n, s := pa.value / 64, old(State());
                      Machine.Bytes(State()) == flat <==> !Losses.LosesOn(s, n, Losses.StreamLines(s, core, n)))
    {
      hide Write, Translated, Machine.Good, Machine.Bytes, Machine.Stored, SysOk, Paging.Small, Physical,
           Losses.LosesOn;
      ghost var before := State();
      AccessSafe(Whole(fa), own, Access(core, va, Machine.Store(bytes), stamp));
      ok, done := true, false;
      var pa := TranslateData(core, va, fa);
      if pa.None? {
        return;
      }
      if pa.value % 64 + |bytes| > LINE_SIZE {
        return false, false;
      }
      if Machine.Good(before) { Machine.StoreChangesBytes(before, core, pa.value, bytes); }
      ok := WriteAt(core, pa.value, bytes);
      done := true;
    }

    method CpuFetch(core: nat, va: nat, size: nat, ghost fa: Frames.FrameAllocator, ghost own: Frames.Owners)
      returns (ok: bool, data: Option<seq<byte>>)
      requires active != null && core < |cores| == |tlbs| && va % 64 + size <= LINE_SIZE
      modifies `cores, `tlbs, `l2Sets, `log, `lossless, memory.data
      ensures var r := Step(old(Whole(fa)), Access(core, va, Machine.Fetching(size), old(stamp)));
              && ok == r.Done?
              && (ok ==> Whole(fa) == r.value.0 && r.value.1 == if data.Some? then Got(data.value) else Fault)
      ensures old(SysOk(Whole(fa), own)) && Paging.Small(va / 4096) && ok ==>
                && SysOk(Whole(fa), own)
                && (data.None? <==> Physical(OsOf(old(Whole(fa))), 0, va).None?)
      ensures old(Machine.Good(State())) && ok && data.Some? ==>
                var pa := Translated(old(Whole(fa)), core, va, true).1;
                && Machine.Good(State()) && pa.Some? && pa.value + size <= memory.data.Length
                && data.value == old(Machine.Bytes(State()))[pa.value..pa.value + size]
    {
      hide Fetch, Translated, Machine.Good, Machine.Bytes, SysOk, Paging.Small, Physical;
      ghost var before := State();
      AccessSafe(Whole(fa), own, Access(core, va, Machine.Fetching(size), stamp));
      ok, data := true, None;
      var pa := TranslateCode(core, va, fa);
      if pa.None? {
        return;
      }
      if pa.value % 64 + size > LINE_SIZE {
        return false, None;
      }
      if Machine.Good(before) { Machine.FetchReturnsBytes(before, core, pa.value, size); }
      var bytes;
      ok, bytes := FetchAt(core, pa.value, size);
      data := Some(bytes);
    }

    // -------------------------------------------------------------------------
    // process_switch
    // -------------------------------------------------------------------------

    /** One invalidation loop nest of tlb_flush. */
    static method FlushTlb(tlb: TlbArray) returns (tlb': TlbArray)
      ensures tlb' == Flush(tlb)
    {
      tlb' := tlb;
      var s := 0;
      while s < |tlb|
        invariant s <= |tlb| == |tlb'|
        invariant forall i :: 0 <= i < s ==> tlb'[i] == Flush(tlb)[i]
        invariant forall i :: s <= i < |tlb| ==> tlb'[i] == tlb[i]
      {
        var valid := tlb[s].valid;
        var w := 0;
        while w < NUM_TLB_WAYS
          invariant w <= NUM_TLB_WAYS == |valid|
          invariant forall v :: 0 <= v < w ==> !valid[v]
        {
          valid := valid[w := false];
          w := w + 1;
        }
        assert valid == seq(NUM_TLB_WAYS, _ => false);
        tlb' := tlb'[s := tlb[s].(valid := valid)];
        s := s + 1;
      }
    }

    /** process_switch: every core gets the process's tables and empty TLBs. */
    method ProcessSwitch(proc: Process)
      modifies `tlbs, `active
      ensures active == proc && tlbs == FlushAll(old(tlbs))
    {
      active := proc;
      var c := 0;
      while c < |tlbs|
        invariant c <= |tlbs| == old(|tlbs|) && active == proc
        invariant forall b :: 0 <= b < c ==> tlbs[b] == FlushAll(old(tlbs))[b]
        invariant forall b :: c <= b < |tlbs| ==> tlbs[b] == old(tlbs)[b]
      {
        var l1d := FlushTlb(tlbs[c].l1d);
        var l2d := FlushTlb(tlbs[c].l2d);
        var itlb := FlushTlb(tlbs[c].itlb);
        tlbs := tlbs[c := CoreTlbs(l1d, l2d, itlb)];
        c := c + 1;
      }
    }
  }
}
