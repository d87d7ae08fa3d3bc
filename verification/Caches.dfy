/** The state of the cache hierarchy and what each routine of cpu.cpp, core.cpp and
    uncore.cpp does to it, as functions from state to state.

    The bit masks core_valid_d and core_valid_i are sets of core numbers; memory is a
    sequence of bytes; the events handed to the callback are appended to `log`. */
module Caches {
  import opened Types
  import opened Coherence
  import Plru

  // ---------------------------------------------------------------------------
  // State
  // ---------------------------------------------------------------------------

  datatype L1Ways = L1Ways(tag: seq<nat>, state: seq<Mesi>, data: seq<Line>, plru: seq<bool>)

  type L1Set = s: L1Ways |
      |s.tag| == |s.state| == |s.data| == NUM_L1_WAYS && |s.plru| == NUM_L1_WAYS - 1
    witness EmptyL1()

  function EmptyL1(): L1Ways {
    L1Ways(seq(NUM_L1_WAYS, _ => 0), seq(NUM_L1_WAYS, _ => Invalid),
                           seq(NUM_L1_WAYS, _ => ZeroLine()), seq(NUM_L1_WAYS - 1, _ => false))
  }

  datatype L2Ways = L2Ways(tag: seq<nat>, state: seq<Mesi>, dm: seq<set<nat>>, im: seq<set<nat>>,
                           data: seq<Line>, plru: seq<bool>)

  type L2Set = s: L2Ways |
      && |s.tag| == |s.state| == |s.dm| == |s.im| == |s.data| == NUM_L2_WAYS
      && |s.plru| == NUM_L2_WAYS - 1
    witness EmptyL2()

  function EmptyL2(): L2Ways {
    L2Ways(seq(NUM_L2_WAYS, _ => 0), seq(NUM_L2_WAYS, _ => Invalid),
                           seq(NUM_L2_WAYS, _ => {}), seq(NUM_L2_WAYS, _ => {}),
                           seq(NUM_L2_WAYS, _ => ZeroLine()), seq(NUM_L2_WAYS - 1, _ => false))
  }

  type L1Array = a: seq<L1Set> | |a| == L1_SETS witness seq(L1_SETS, _ => EmptyL1())

  type L2Array = a: seq<L2Set> | |a| == L2_SETS witness seq(L2_SETS, _ => EmptyL2())

  const NUM_STREAMS: nat := 8
  const PREFETCH_DISTANCE: nat := 8

  datatype Direction = Unknown | Forward | Backward {
    function Sign(): int { if Forward? then 1 else if Backward? then -1 else 0 }
  }

  datatype Confidence = Unused | Training | Steady

  /** lastLine and prefetchHead are byte addresses, as in the source. */
  datatype Stream = Stream(lastLine: int, prefetchHead: int, direction: Direction, confidence: Confidence)

  datatype PfState = PfState(streams: seq<Stream>, age: seq<nat>)

  type Prefetcher = p: PfState | |p.streams| == |p.age| == NUM_STREAMS witness EmptyPf()

  function EmptyPf(): PfState {
    PfState(seq(NUM_STREAMS, _ => Stream(0, 0, Unknown, Unused)),
                            seq(NUM_STREAMS, i requires 0 <= i < NUM_STREAMS => NUM_STREAMS - 1 - i))
  }

  datatype Pmc = Pmc(l1dHits: nat, l1iHits: nat, l2Hits: nat, memFetches: nat)

  datatype Core = Core(l1d: L1Array, l1i: L1Array, pf: Prefetcher, pmc: Pmc)

  datatype EventType =
    | L1dHit | L1dFill | L1dEvict | L2Hit | L2Fill | L2Evict
    | SnoopDowngrade | SnoopInvalidate | PrefetchL2 | MemFetch | L1iSnoopInvalidate

  datatype Event = Event(etype: EventType, core: nat, level: nat, index: nat, way: nat, address: nat,
                         oldState: Mesi, newState: Mesi, data: Option<Line>, seqno: nat)

  /** `stamp` is the calling thread's current_seq. `lossless` is a history variable: it
      turns false when an L2 eviction drops bytes that memory does not have. */
  datatype State = State(cores: seq<Core>, l2: L2Array, mem: seq<byte>,
                         log: seq<Event>, stamp: nat, lossless: bool)

  function EmptyCore(): Core {
    Core(seq(L1_SETS, _ => EmptyL1()), seq(L1_SETS, _ => EmptyL1()), EmptyPf(), Pmc(0, 0, 0, 0))
  }

  /** A zero-initialised CPU with n cores in front of the given memory. */
  function Init(n: nat, mem: seq<byte>): State {
    State(seq(n, _ => EmptyCore()), seq(L2_SETS, _ => EmptyL2()), mem, [], 0, true)
  }

  // ---------------------------------------------------------------------------
  // Searching a set
  // ---------------------------------------------------------------------------

  predicate Match(tags: seq<nat>, states: seq<Mesi>, tag: nat, w: nat)
    requires |tags| == |states| && w < |tags|
  {
    tags[w] == tag && states[w] != Invalid
  }

  /** The first way from w on that holds the tag; |tags| on a miss. */
  function FindFrom(tags: seq<nat>, states: seq<Mesi>, tag: nat, w: nat): (r: nat)
    requires |tags| == |states| && w <= |tags|
    ensures w <= r <= |tags|
    ensures r < |tags| ==> Match(tags, states, tag, r)
    ensures forall i :: w <= i < r ==> !Match(tags, states, tag, i)
    decreases |tags| - w
  {
    if w == |tags| || Match(tags, states, tag, w) then w else FindFrom(tags, states, tag, w + 1)
  }

  function Find(tags: seq<nat>, states: seq<Mesi>, tag: nat): (r: nat)
    requires |tags| == |states|
    ensures r <= |tags|
    ensures r < |tags| ==> Match(tags, states, tag, r)
    ensures forall i :: 0 <= i < r ==> !Match(tags, states, tag, i)
  {
    FindFrom(tags, states, tag, 0)
  }

  /** The first INVALID way from w on; |states| if every way is valid. */
  function FreeFrom(states: seq<Mesi>, w: nat): (r: nat)
    requires w <= |states|
    ensures w <= r <= |states|
    ensures r < |states| ==> states[r] == Invalid
    ensures forall i :: w <= i < r ==> states[i] != Invalid
    decreases |states| - w
  {
    if w == |states| || states[w] == Invalid then w else FreeFrom(states, w + 1)
  }

  /** std::countr_zero of a non-empty mask. */
  function LowestBit(mask: set<nat>): (c: nat)
    requires mask != {}
    ensures c in mask && forall b :: b in mask ==> c <= b
  {
    assert exists c :: c in mask && forall b :: b in mask ==> c <= b by {
      var c := LowestBitExists(mask);
    }
    var c :| c in mask && forall b :: b in mask ==> c <= b;
    c
  }

  lemma {:induction false} LowestBitExists(mask: set<nat>) returns (c: nat)
    requires mask != {}
    ensures c in mask && forall b :: b in mask ==> c <= b
    decreases mask
  {
    c :| c in mask;
    var rest := mask - {c};
    assert mask == rest + {c};
    if rest == {} {
    } else {
      var d := LowestBitExists(rest);
      if d < c { c := d; }
    }
  }

  // ---------------------------------------------------------------------------
  // Parts of the state
  // ---------------------------------------------------------------------------

  function GetL1(s: State, c: nat, instr: bool, i: nat): L1Set
    requires c < |s.cores| && i < L1_SETS
  {
    if instr then s.cores[c].l1i[i] else s.cores[c].l1d[i]
  }

  function PutL1(s: State, c: nat, instr: bool, i: nat, l1: L1Set): (r: State)
    requires c < |s.cores| && i < L1_SETS
    ensures |r.cores| == |s.cores|
  {
    var core := s.cores[c];
    s.(cores := s.cores[c := if instr then core.(l1i := core.l1i[i := l1]) else core.(l1d := core.l1d[i := l1])])
  }

  function PutL2(s: State, k: nat, l2: L2Set): State
    requires k < L2_SETS
  {
    s.(l2 := s.l2[k := l2])
  }

  function Emit(s: State, etype: EventType, core: nat, level: nat, index: nat, way: nat, address: nat,
                oldState: Mesi, newState: Mesi, data: Option<Line>): State {
    s.(log := s.log + [Event(etype, core, level, index, way, address, oldState, newState, data, s.stamp)])
  }

  predicate InMemory(mem: seq<byte>, n: nat) { 64 * n + 64 <= |mem| }

  /** Line n of memory; only lines that lie in memory are ever read. */
  function MemLine(mem: seq<byte>, n: nat): Line {
    if InMemory(mem, n) then mem[64 * n..64 * n + 64] else ZeroLine()
  }

  function SetMemLine(mem: seq<byte>, n: nat, line: Line): (r: seq<byte>)
    requires InMemory(mem, n)
    ensures |r| == |mem|
  {
    mem[..64 * n] + line + mem[64 * n + 64..]
  }

  // ---------------------------------------------------------------------------
  // core.cpp and uncore.cpp: one set
  // ---------------------------------------------------------------------------

  function L1Touch(l1: L1Set, w: nat): L1Set
    requires w < NUM_L1_WAYS
  {
    l1.(plru := Plru.Update(l1.plru, w))
  }

  function L1Write(l1: L1Set, w: nat, offset: nat, bytes: seq<byte>): L1Set
    requires w < NUM_L1_WAYS && offset + |bytes| <= LINE_SIZE
  {
    l1.(data := l1.data[w := Patch(l1.data[w], offset, bytes)],
        plru := Plru.Update(l1.plru, w),
        state := l1.state[w := Modified])
  }

  function L1Fill(l1: L1Set, tag: nat, w: nat, line: Line, state: Mesi): L1Set
    requires w < NUM_L1_WAYS
  {
    l1.(tag := l1.tag[w := tag], state := l1.state[w := state], data := l1.data[w := line],
        plru := Plru.Update(l1.plru, w))
  }

  function L1Drop(l1: L1Set, w: nat): L1Set
    requires w < NUM_L1_WAYS
  {
    l1.(state := l1.state[w := Invalid])
  }

  function L2Touch(l2: L2Set, w: nat): L2Set
    requires w < NUM_L2_WAYS
  {
    l2.(plru := Plru.Update(l2.plru, w))
  }

  /** l2_cache_read_way: touch the way and record the reader. */
  function L2Read(l2: L2Set, c: nat, w: nat, instr: bool): L2Set
    requires w < NUM_L2_WAYS
  {
    if instr then L2Touch(l2, w).(im := l2.im[w := l2.im[w] + {c}])
    else L2Touch(l2, w).(dm := l2.dm[w := l2.dm[w] + {c}])
  }

  /** l2_cache_write_way: a dirty L1D victim comes back. */
  function L2WriteBack(l2: L2Set, c: nat, w: nat, line: Line): L2Set
    requires w < NUM_L2_WAYS
  {
    l2.(data := l2.data[w := line], state := l2.state[w := Modified], dm := l2.dm[w := l2.dm[w] - {c}])
  }

  /** A clean L1 victim: clear its bit; the last sharer out of a SHARED way leaves it EXCLUSIVE. */
  function L2Release(l2: L2Set, c: nat, w: nat, instr: bool): L2Set
    requires w < NUM_L2_WAYS
  {
    var cleared: L2Set := if instr then l2.(im := l2.im[w := l2.im[w] - {c}])
                          else l2.(dm := l2.dm[w := l2.dm[w] - {c}]);
    if cleared.dm[w] == {} && cleared.im[w] == {} && cleared.state[w] == Shared
    then cleared.(state := cleared.state[w := Exclusive])
    else cleared
  }

  /** Both overloads of l2_cache_fill: the masks of the way must be empty. */
  function L2Install(l2: L2Set, tag: nat, w: nat, line: Line, state: Mesi, dm: set<nat>, im: set<nat>): Outcome<L2Set>
    requires w < NUM_L2_WAYS
  {
    if l2.dm[w] != {} || l2.im[w] != {} then Abort
    else Done(l2.(tag := l2.tag[w := tag], state := l2.state[w := state], data := l2.data[w := line],
                  dm := l2.dm[w := dm], im := l2.im[w := im], plru := Plru.Update(l2.plru, w)))
  }

  /** A store takes the line over: no instruction copies, no other data copies. */
  function L2Own(l2: L2Set, c: nat, w: nat): L2Set
    requires w < NUM_L2_WAYS
  {
    l2.(im := l2.im[w := {}], dm := l2.dm[w := {c}], state := l2.state[w := Modified])
  }

  // ---------------------------------------------------------------------------
  // Snoops
  // ---------------------------------------------------------------------------

  /** One turn of the loop of snoop_downgrade_peers. */
  function DowngradePeer(s: State, c: nat, n: nat, w2: nat, line: Line): (r: (State, Line))
    requires w2 < NUM_L2_WAYS
    ensures |r.0.cores| == |s.cores|
  {
    if c >= |s.cores| then (s, line) else
    var l1 := s.cores[c].l1d[n % 64];
    var w := Find(l1.tag, l1.state, n / 64);
    if w == NUM_L1_WAYS then (s, line) else
    var l2 := s.l2[n % 4096];
    var dirty := l1.state[w] == Modified;
    var s1 := if dirty then PutL2(s, n % 4096, l2.(data := l2.data[w2 := l1.data[w]])) else s;
    var s2 := Emit(s1, SnoopDowngrade, c, 1, n % 64, w, 0, l1.state[w], Shared, Some(l1.data[w]));
    (PutL1(s2, c, false, n % 64, l1.(state := l1.state[w := Shared])), if dirty then l1.data[w] else line)
  }

  function DowngradePeers(s: State, sharers: set<nat>, n: nat, w2: nat, line: Line): (r: (State, Line))
    requires w2 < NUM_L2_WAYS
    ensures |r.0.cores| == |s.cores|
    decreases sharers
  {
    if sharers == {} then (s, line) else
    var c := LowestBit(sharers);
    var (s1, line1) := DowngradePeer(s, c, n, w2, line);
    DowngradePeers(s1, sharers - {c}, n, w2, line1)
  }

  function SetL2State(s: State, k: nat, w: nat, state: Mesi): State
    requires k < L2_SETS && w < NUM_L2_WAYS
  {
    PutL2(s, k, s.l2[k].(state := s.l2[k].state[w := state]))
  }

  function SnoopDowngradePeers(s: State, sharers: set<nat>, n: nat, w2: nat, line: Line): (r: (State, Line))
    requires w2 < NUM_L2_WAYS
    ensures |r.0.cores| == |s.cores|
  {
    DowngradePeers(SetL2State(s, n % 4096, w2, Shared), sharers, n, w2, line)
  }

  function InvalidatePeer(s: State, c: nat, n: nat, w2: nat, line: Line): (r: (State, Line))
    requires w2 < NUM_L2_WAYS
    ensures |r.0.cores| == |s.cores|
  {
    var l2 := s.l2[n % 4096];
    var s0 := PutL2(s, n % 4096, l2.(dm := l2.dm[w2 := l2.dm[w2] - {c}]));
    if c >= |s.cores| then (s0, line) else
    var l1 := s.cores[c].l1d[n % 64];
    var w := Find(l1.tag, l1.state, n / 64);
    if w == NUM_L1_WAYS then (s0, line) else
    var s1 := Emit(s0, SnoopInvalidate, c, 1, n % 64, w, 0, l1.state[w], Invalid, Some(l1.data[w]));
    (PutL1(s1, c, false, n % 64, L1Drop(l1, w)), if l1.state[w] == Modified then l1.data[w] else line)
  }

  /** snoop_invalidate_peers; a caller that passes nullptr ignores the line. */
  function InvalidatePeers(s: State, sharers: set<nat>, n: nat, w2: nat, line: Line): (r: (State, Line))
    requires w2 < NUM_L2_WAYS
    ensures |r.0.cores| == |s.cores|
    decreases sharers
  {
    if sharers == {} then (s, line) else
    var c := LowestBit(sharers);
    var (s1, line1) := InvalidatePeer(s, c, n, w2, line);
    InvalidatePeers(s1, sharers - {c}, n, w2, line1)
  }

  function InvalidatePeerI(s: State, c: nat, n: nat): (r: State)
    ensures |r.cores| == |s.cores|
  {
    if c >= |s.cores| then s else
    var l1 := s.cores[c].l1i[n % 64];
    var w := Find(l1.tag, l1.state, n / 64);
    if w == NUM_L1_WAYS then s else
    var s1 := Emit(s, L1iSnoopInvalidate, c, 1, n % 64, w, 0, l1.state[w], Invalid, None);
    PutL1(s1, c, true, n % 64, L1Drop(l1, w))
  }

  function InvalidatePeersI(s: State, sharers: set<nat>, n: nat): (r: State)
    ensures |r.cores| == |s.cores|
    decreases sharers
  {
    if sharers == {} then s else
    var c := LowestBit(sharers);
    InvalidatePeersI(InvalidatePeerI(s, c, n), sharers - {c}, n)
  }

  // ---------------------------------------------------------------------------
  // Evictions
  // ---------------------------------------------------------------------------

  /** evict_l1<IS_INSTR>: the freed way of core c's set i. */
  function EvictL1(s: State, c: nat, instr: bool, i: nat): (r: Outcome<(State, nat)>)
    requires c < |s.cores| && i < L1_SETS
    ensures r.Done? ==> |r.value.0.cores| == |s.cores| && r.value.1 < NUM_L1_WAYS
  {
    var l1 := GetL1(s, c, instr, i);
    var free := FreeFrom(l1.state, 0);
    if free < NUM_L1_WAYS then Done((s, free)) else
    var v := Plru.Victim(l1.plru);
    var n := l1.tag[v] * 64 + i;
    var l2 := s.l2[n % 4096];
    var w2 := Find(l2.tag, l2.state, n / 4096);
    if w2 == NUM_L2_WAYS then Abort else
    var l2' := if !instr && l1.state[v] == Modified then L2WriteBack(l2, c, w2, l1.data[v])
               else L2Release(l2, c, w2, instr);
    var s1 := Emit(PutL2(s, n % 4096, l2'), L1dEvict, c, 1, i, v, 64 * n, l1.state[v], Invalid, Some(l1.data[v]));
    Done((PutL1(s1, c, instr, i, L1Drop(l1, v)), v))
  }

  function BackInvalidateD(s: State, c: nat, n: nat, v: nat): (r: Outcome<State>)
    requires v < NUM_L2_WAYS
    ensures r.Done? ==> |r.value.cores| == |s.cores|
  {
    if c >= |s.cores| then Abort else
    var l1 := s.cores[c].l1d[n % 64];
    var w := Find(l1.tag, l1.state, n / 64);
    if w == NUM_L1_WAYS then Abort else
    var l2 := s.l2[n % 4096];
    var s1 := if l1.state[w] == Modified
              then PutL2(s, n % 4096, l2.(data := l2.data[v := l1.data[w]], state := l2.state[v := Modified]))
              else s;
    var s2 := Emit(s1, SnoopInvalidate, c, 1, n % 64, w, 64 * n, l1.state[w], Invalid, Some(l1.data[w]));
    Done(PutL1(s2, c, false, n % 64, L1Drop(l1, w)))
  }

  function BackInvalidateI(s: State, c: nat, n: nat): (r: Outcome<State>)
    ensures r.Done? ==> |r.value.cores| == |s.cores|
  {
    if c >= |s.cores| then Abort else
    var l1 := s.cores[c].l1i[n % 64];
    var w := Find(l1.tag, l1.state, n / 64);
    if w == NUM_L1_WAYS then Abort else
    var s1 := Emit(s, L1iSnoopInvalidate, c, 1, n % 64, w, 64 * n, l1.state[w], Invalid, None);
    Done(PutL1(s1, c, true, n % 64, L1Drop(l1, w)))
  }

  /** One turn of the loop of evict_l2. */
  function BackInvalidateCore(s: State, c: nat, dm: set<nat>, im: set<nat>, n: nat, v: nat): (r: Outcome<State>)
    requires v < NUM_L2_WAYS
    ensures r.Done? ==> |r.value.cores| == |s.cores|
  {
    var s1 :- if c in dm then BackInvalidateD(s, c, n, v) else Done(s);
    if c in im then BackInvalidateI(s1, c, n) else Done(s1)
  }

  /** The loop of evict_l2 over the cores in `all`. */
  function BackInvalidate(s: State, all: set<nat>, dm: set<nat>, im: set<nat>, n: nat, v: nat): (r: Outcome<State>)
    requires v < NUM_L2_WAYS
    ensures r.Done? ==> |r.value.cores| == |s.cores|
    decreases all
  {
    if all == {} then Done(s) else
    var c := LowestBit(all);
    var s1 :- BackInvalidateCore(s, c, dm, im, n, v);
    BackInvalidate(s1, all - {c}, dm, im, n, v)
  }

  /** The end of evict_l2: write back if MODIFIED, report, clear the way. */
  function RetireL2(s: State, n: nat, v: nat): (r: Outcome<State>)
    requires v < NUM_L2_WAYS
    ensures r.Done? ==> |r.value.cores| == |s.cores| && |r.value.mem| == |s.mem|
  {
    var l2 := s.l2[n % 4096];
    var dirty := l2.state[v] == Modified;
    if dirty && !InMemory(s.mem, n) then Abort else
    var s1 := s.(mem := if dirty then SetMemLine(s.mem, n, l2.data[v]) else s.mem,
                 lossless := s.lossless && (dirty || l2.data[v] == MemLine(s.mem, n)));
    var s2 := Emit(s1, L2Evict, 0, 2, n % 4096, v, 64 * n, l2.state[v], Invalid, Some(l2.data[v]));
    Done(PutL2(s2, n % 4096, l2.(dm := l2.dm[v := {}], im := l2.im[v := {}], state := l2.state[v := Invalid])))
  }

  /** evict_l2: the freed way of set k. */
  function EvictL2(s: State, k: nat): (r: Outcome<(State, nat)>)
    requires k < L2_SETS
    ensures r.Done? ==> |r.value.0.cores| == |s.cores| && r.value.1 < NUM_L2_WAYS
  {
    var l2 := s.l2[k];
    var free := FreeFrom(l2.state, 0);
    if free < NUM_L2_WAYS then Done((s, free)) else
    var v := Plru.Victim(l2.plru);
    var n := l2.tag[v] * 4096 + k;
    var s1 :- BackInvalidate(s, l2.dm[v] + l2.im[v], l2.dm[v], l2.im[v], n, v);
    var s2 :- RetireL2(s1, n, v);
    Done((s2, v))
  }

  // ---------------------------------------------------------------------------
  // Prefetching
  // ---------------------------------------------------------------------------

  /** pf_fill_l2: bring the line at address `next` into L2 unless it leaves the 4 KB
      page of `from` or memory. */
  function PfFill(s: State, from: int, next: int): (r: Outcome<(State, bool)>)
    ensures r.Done? ==> |r.value.0.cores| == |s.cores|
  {
    if next / 4096 != from / 4096 then Done((s, false)) else
    if next < LINE_SIZE || next + LINE_SIZE > |s.mem| then Done((s, false)) else
    var n: nat := next / 64;
    var l2 := s.l2[n % 4096];
    if Find(l2.tag, l2.state, n / 4096) < NUM_L2_WAYS then Done((s, true)) else
    var (s1, w) :- EvictL2(s, n % 4096);
    var line := MemLine(s1.mem, n);
    var l2' :- L2Install(s1.l2[n % 4096], n / 4096, w, line, Exclusive, {}, {});
    var s2 := PutL2(s1, n % 4096, l2');
    Done((Emit(s2, PrefetchL2, 0, 2, n % 4096, w, 64 * n, Invalid, Exclusive, Some(line)), true))
  }

  datatype Burst = Burst(state: State, head: int, blocked: bool)

  /** The burst loop of pf_stream_on_miss with `left` iterations to go. */
  function RunBurst(s: State, head: int, miss: int, stride: int, left: nat): (r: Outcome<Burst>)
    ensures r.Done? ==> |r.value.state.cores| == |s.cores|
    decreases left
  {
    if left == 0 || (head - miss) * stride >= PREFETCH_DISTANCE * LINE_SIZE then Done(Burst(s, head, false)) else
    var next := head + stride * LINE_SIZE;
    var (s1, ok) :- PfFill(s, head, next);
    if !ok then Done(Burst(s1, head, true))
    else RunBurst(s1, next, miss, stride, left - 1)
  }

  predicate StreamMatches(stream: Stream, miss: int) {
    match stream.confidence
    case Unused => false
    case Training => miss == stream.lastLine + LINE_SIZE || miss == stream.lastLine - LINE_SIZE
    case Steady =>
      var dir := stream.direction.Sign();
      (miss - stream.lastLine) * dir >= LINE_SIZE && (miss - stream.prefetchHead) * dir <= LINE_SIZE
  }

  /** The matched stream before its burst. */
  function Advanced(stream: Stream, miss: int): Stream {
    if stream.confidence == Training then
      Stream(miss, miss, if miss == stream.lastLine + LINE_SIZE then Forward else Backward, Steady)
    else stream.(lastLine := miss)
  }

  /** The matched stream after its burst; a blocked one starts training again. */
  function Settled(stream: Stream, head: int, blocked: bool): Stream {
    if blocked then Stream(stream.lastLine, head, Unknown, Training) else stream.(prefetchHead := head)
  }

  function MatchFrom(streams: seq<Stream>, miss: int, i: nat): (r: nat)
    requires i <= |streams|
    ensures i <= r <= |streams|
    ensures r < |streams| ==> StreamMatches(streams[r], miss)
    ensures forall j :: i <= j < r ==> !StreamMatches(streams[j], miss)
    decreases |streams| - i
  {
    if i == |streams| || StreamMatches(streams[i], miss) then i else MatchFrom(streams, miss, i + 1)
  }

  /** pf_lru_update */
  function TouchAge(age: seq<nat>, index: nat): (r: seq<nat>)
    requires index < |age|
    ensures |r| == |age|
  {
    seq(|age|, i requires 0 <= i < |age| =>
          if i == index then 0 else if age[i] < age[index] then age[i] + 1 else age[i])
  }

  /** pf_lru_evict: the first of the entries with the greatest age. */
  function OldestFrom(age: seq<nat>, best: nat, i: nat): (r: nat)
    requires best < i <= |age|
    ensures r < |age|
    decreases |age| - i
  {
    if i == |age| then best else OldestFrom(age, if age[i] > age[best] then i else best, i + 1)
  }

  function PutPf(s: State, c: nat, i: nat, stream: Stream): (r: State)
    requires c < |s.cores| && i < NUM_STREAMS
    ensures |r.cores| == |s.cores|
  {
    var pf := s.cores[c].pf;
    s.(cores := s.cores[c := s.cores[c].(pf := pf.(streams := pf.streams[i := stream], age := TouchAge(pf.age, i)))])
  }

  /** pf_stream_on_miss for the line at address `miss`. */
  function StreamOnMiss(s: State, c: nat, miss: int): (r: Outcome<State>)
    requires c < |s.cores|
    ensures r.Done? ==> |r.value.cores| == |s.cores|
  {
    var pf := s.cores[c].pf;
    var i := MatchFrom(pf.streams, miss, 0);
    if i < NUM_STREAMS then
      var stream := Advanced(pf.streams[i], miss);
      var b :- RunBurst(s, stream.prefetchHead, miss, stream.direction.Sign(), PREFETCH_DISTANCE + 1);
      Done(PutPf(b.state, c, i, Settled(stream, b.head, b.blocked)))
    else
      Done(PutPf(s, c, OldestFrom(pf.age, 0, 1), Stream(miss, miss, Unknown, Training)))
  }

  // ---------------------------------------------------------------------------
  // cpu_read, cpu_write and cpu_fetch after translation
  // ---------------------------------------------------------------------------

  function Count(s: State, c: nat, pmc: Pmc): (r: State)
    requires c < |s.cores|
    ensures |r.cores| == |s.cores|
  {
    s.(cores := s.cores[c := s.cores[c].(pmc := pmc)])
  }

  function CountL1d(s: State, c: nat): State
    requires c < |s.cores|
  {
    Count(s, c, s.cores[c].pmc.(l1dHits := s.cores[c].pmc.l1dHits + 1))
  }

  function CountL1i(s: State, c: nat): State
    requires c < |s.cores|
  {
    Count(s, c, s.cores[c].pmc.(l1iHits := s.cores[c].pmc.l1iHits + 1))
  }

  function CountL2(s: State, c: nat): State
    requires c < |s.cores|
  {
    Count(s, c, s.cores[c].pmc.(l2Hits := s.cores[c].pmc.l2Hits + 1))
  }

  function CountMem(s: State, c: nat): State
    requires c < |s.cores|
  {
    Count(s, c, s.cores[c].pmc.(memFetches := s.cores[c].pmc.memFetches + 1))
  }

  function L2WayOf(s: State, n: nat): (w: nat)
    ensures w <= NUM_L2_WAYS
  {
    Find(s.l2[n % 4096].tag, s.l2[n % 4096].state, n / 4096)
  }

  function L1WayOf(s: State, c: nat, instr: bool, n: nat): (w: nat)
    requires c < |s.cores|
    ensures w <= NUM_L1_WAYS
  {
    var l1 := GetL1(s, c, instr, n % 64);
    Find(l1.tag, l1.state, n / 64)
  }

  /** A miss in L1 and L2 alike: make room in L2, then in L1. */
  function MakeRoom(s: State, c: nat, instr: bool, n: nat): (r: Outcome<(State, nat, nat)>)
    requires c < |s.cores|
    ensures r.Done? ==> |r.value.0.cores| == |s.cores| && r.value.1 < NUM_L2_WAYS && r.value.2 < NUM_L1_WAYS
  {
    var (s1, w2) :- EvictL2(s, n % 4096);
    var (s2, w1) :- EvictL1(s1, c, instr, n % 64);
    Done((s2, w2, w1))
  }

  /** Fill L2 and L1 with a line that came from memory. */
  function InstallBoth(s: State, c: nat, instr: bool, n: nat, w2: nat, w1: nat, line: Line,
                       state: Mesi): (r: Outcome<State>)
    requires c < |s.cores| && w2 < NUM_L2_WAYS && w1 < NUM_L1_WAYS
    ensures r.Done? ==> |r.value.cores| == |s.cores|
  {
    var l2 :- L2Install(s.l2[n % 4096], n / 4096, w2, line, state,
                        if instr then {} else {c}, if instr then {c} else {});
    var s1 := PutL2(s, n % 4096, l2);
    var s2 := if instr then s1 else Emit(s1, L2Fill, c, 2, n % 4096, w2, 64 * n, Invalid, state, Some(line));
    var s3 := PutL1(s2, c, instr, n % 64,
                    L1Fill(GetL1(s2, c, instr, n % 64), n / 64, w1, line, if instr then Shared else state));
    Done(if instr then s3 else
         Emit(Emit(s3, L1dFill, c, 1, n % 64, w1, 64 * n, Invalid, state, Some(line)),
              MemFetch, c, 3, 0, 0, 64 * n, Invalid, Invalid, Some(line)))
  }

  function ReadHit(s: State, c: nat, pa: nat, w: nat): (r: State)
    requires c < |s.cores| && w < NUM_L1_WAYS
    ensures |r.cores| == |s.cores|
  {
    var n := pa / 64;
    var l1 := s.cores[c].l1d[n % 64];
    var s1 := Emit(s, L1dHit, c, 1, n % 64, w, pa, l1.state[w], l1.state[w], Some(l1.data[w]));
    PutL1(CountL1d(s1, c), c, false, n % 64, L1Touch(l1, w))
  }

  /** The L2-hit tail shared by loads and fetches: record the reader, snoop, fill L1. */
  function ReadL2Way(s: State, c: nat, instr: bool, n: nat, w2: nat): (r: (State, Line, bool))
    requires c < |s.cores| && w2 < NUM_L2_WAYS
    ensures |r.0.cores| == |s.cores|
  {
    var line := s.l2[n % 4096].data[w2];
    var l2 := L2Read(s.l2[n % 4096], c, w2, instr);
    var s1 := PutL2(s, n % 4096, l2);
    var dSharers, iSharers := l2.dm[w2] - {c}, l2.im[w2] - {c};
    if dSharers + iSharers != {} then
      var (s2, line2) := SnoopDowngradePeers(s1, dSharers, n, w2, line);
      (s2, line2, true)
    else (s1, line, false)
  }

  function ReadFromL2(s: State, c: nat, pa: nat, w2: nat): (r: Outcome<(State, Line)>)
    requires c < |s.cores| && w2 < NUM_L2_WAYS
    ensures r.Done? ==> |r.value.0.cores| == |s.cores|
  {
    var n := pa / 64;
    var state := s.l2[n % 4096].state[w2];
    var s0 := Emit(s, L2Hit, c, 2, n % 4096, w2, pa, state, state, None);
    var (s1, w1) :- EvictL1(s0, c, false, n % 64);
    var (s2, line, shared) := ReadL2Way(s1, c, false, n, w2);
    var fill := if shared then Shared else Exclusive;
    var s3 := PutL1(CountL2(s2, c), c, false, n % 64, L1Fill(s2.cores[c].l1d[n % 64], n / 64, w1, line, fill));
    Done((Emit(s3, L1dFill, c, 1, n % 64, w1, pa, Invalid, fill, Some(line)), line))
  }

  function ReadFromMemory(s: State, c: nat, pa: nat): (r: Outcome<(State, Line)>)
    requires c < |s.cores|
    ensures r.Done? ==> |r.value.0.cores| == |s.cores|
  {
    var n := pa / 64;
    if !InMemory(s.mem, n) then Abort else
    var (s1, w2, w1) :- MakeRoom(s, c, false, n);
    var s2 :- InstallBoth(s1, c, false, n, w2, w1, MemLine(s1.mem, n), Exclusive);
    var s3 :- StreamOnMiss(s2, c, 64 * n);
    Done((CountMem(s3, c), MemLine(s3.mem, n)))
  }

  /** cpu_read at physical address pa. */
  function Read(s: State, c: nat, pa: nat, size: nat): (r: Outcome<(State, seq<byte>)>)
    requires c < |s.cores| && pa % 64 + size <= LINE_SIZE
    ensures r.Done? ==> |r.value.0.cores| == |s.cores| && |r.value.1| == size
  {
    var n, offset := pa / 64, pa % 64;
    var w := L1WayOf(s, c, false, n);
    if w < NUM_L1_WAYS then
      Done((ReadHit(s, c, pa, w), s.cores[c].l1d[n % 64].data[w][offset..offset + size]))
    else
      var w2 := L2WayOf(s, n);
      var (s1, line) :- if w2 < NUM_L2_WAYS then ReadFromL2(s, c, pa, w2) else ReadFromMemory(s, c, pa);
      Done((s1, line[offset..offset + size]))
  }

  /** A store to a SHARED copy first clears the other data caches. */
  function Upgrade(s: State, c: nat, n: nat, w2: nat): (r: State)
    requires w2 < NUM_L2_WAYS
    ensures |r.cores| == |s.cores|
  {
    var s1 := InvalidatePeers(s, s.l2[n % 4096].dm[w2] - {c}, n, w2, ZeroLine()).0;
    PutL2(s1, n % 4096, L2Touch(s1.l2[n % 4096], w2))
  }

  function WriteHit(s: State, c: nat, pa: nat, w: nat, bytes: seq<byte>): (r: Outcome<State>)
    requires c < |s.cores| && w < NUM_L1_WAYS && pa % 64 + |bytes| <= LINE_SIZE
    ensures r.Done? ==> |r.value.cores| == |s.cores|
  {
    var n := pa / 64;
    var w2 := L2WayOf(s, n);
    if w2 == NUM_L2_WAYS then Abort else
    var was := s.cores[c].l1d[n % 64].state[w];
    var s1 := if was == Shared then Upgrade(s, c, n, w2) else s;
    var s2 := InvalidatePeersI(s1, s1.l2[n % 4096].im[w2], n);
    var s3 := CountL1d(PutL2(s2, n % 4096, L2Own(s2.l2[n % 4096], c, w2)), c);
    var l1 := L1Write(s3.cores[c].l1d[n % 64], w, pa % 64, bytes);
    Done(Emit(PutL1(s3, c, false, n % 64, l1),
              L1dHit, c, 1, n % 64, w, pa, was, Modified, Some(l1.data[w])))
  }

  function WriteFromL2(s: State, c: nat, pa: nat, w2: nat, bytes: seq<byte>): (r: Outcome<State>)
    requires c < |s.cores| && w2 < NUM_L2_WAYS && pa % 64 + |bytes| <= LINE_SIZE
    ensures r.Done? ==> |r.value.cores| == |s.cores|
  {
    var n := pa / 64;
    var l2 := s.l2[n % 4096];
    var s0 := Emit(s, L2Hit, c, 2, n % 4096, w2, pa, l2.state[w2], l2.state[w2], None);
    var (s1, newest) := InvalidatePeers(s0, l2.dm[w2] - {c}, n, w2, l2.data[w2]);
    var line := Patch(newest, pa % 64, bytes);
    var (s2, w1) :- EvictL1(s1, c, false, n % 64);
    var s3 := PutL1(s2, c, false, n % 64, L1Fill(s2.cores[c].l1d[n % 64], n / 64, w1, line, Modified));
    var s4 := Emit(s3, L1dFill, c, 1, n % 64, w1, pa, Invalid, Modified, Some(line));
    var s5 := InvalidatePeersI(s4, s4.l2[n % 4096].im[w2], n);
    Done(CountL2(PutL2(s5, n % 4096, L2Touch(L2Own(s5.l2[n % 4096], c, w2), w2)), c))
  }

  function WriteFromMemory(s: State, c: nat, pa: nat, bytes: seq<byte>): (r: Outcome<State>)
    requires c < |s.cores| && pa % 64 + |bytes| <= LINE_SIZE
    ensures r.Done? ==> |r.value.cores| == |s.cores|
  {
    var n := pa / 64;
    if !InMemory(s.mem, n) then Abort else
    var line := Patch(MemLine(s.mem, n), pa % 64, bytes);
    var (s1, w2, w1) :- MakeRoom(s, c, false, n);
    var s2 :- InstallBoth(s1, c, false, n, w2, w1, line, Modified);
    var s3 :- StreamOnMiss(s2, c, 64 * n);
    Done(CountMem(s3, c))
  }

  /** cpu_write at physical address pa. */
  function Write(s: State, c: nat, pa: nat, bytes: seq<byte>): (r: Outcome<State>)
    requires c < |s.cores| && pa % 64 + |bytes| <= LINE_SIZE
    ensures r.Done? ==> |r.value.cores| == |s.cores|
  {
    var w := L1WayOf(s, c, false, pa / 64);
    if w < NUM_L1_WAYS then WriteHit(s, c, pa, w, bytes) else
    var w2 := L2WayOf(s, pa / 64);
    if w2 < NUM_L2_WAYS then WriteFromL2(s, c, pa, w2, bytes) else WriteFromMemory(s, c, pa, bytes)
  }

  function FetchFromL2(s: State, c: nat, n: nat, w2: nat): (r: Outcome<(State, Line)>)
    requires c < |s.cores| && w2 < NUM_L2_WAYS
    ensures r.Done? ==> |r.value.0.cores| == |s.cores|
  {
    if s.l2[n % 4096].state[w2] == Modified then Abort else
    var (s1, w1) :- EvictL1(s, c, true, n % 64);
    var (s2, line, _) := ReadL2Way(s1, c, true, n, w2);
    var s3 := PutL1(s2, c, true, n % 64, L1Fill(s2.cores[c].l1i[n % 64], n / 64, w1, line, Shared));
    Done((CountL2(s3, c), line))
  }

  function FetchFromMemory(s: State, c: nat, n: nat): (r: Outcome<(State, Line)>)
    requires c < |s.cores|
    ensures r.Done? ==> |r.value.0.cores| == |s.cores|
  {
    if !InMemory(s.mem, n) then Abort else
    var (s1, w2, w1) :- MakeRoom(s, c, true, n);
    var s2 :- InstallBoth(s1, c, true, n, w2, w1, MemLine(s1.mem, n), Exclusive);
    var (s3, _) :- PfFill(s2, 64 * n, 64 * n + 64);
    Done((CountMem(s3, c), MemLine(s3.mem, n)))
  }

  /** cpu_fetch at physical address pa. */
  function Fetch(s: State, c: nat, pa: nat, size: nat): (r: Outcome<(State, seq<byte>)>)
    requires c < |s.cores| && pa % 64 + size <= LINE_SIZE
    ensures r.Done? ==> |r.value.0.cores| == |s.cores| && |r.value.1| == size
  {
    var n, offset := pa / 64, pa % 64;
    var w := L1WayOf(s, c, true, n);
    if w < NUM_L1_WAYS then
      var l1 := s.cores[c].l1i[n % 64];
      Done((PutL1(CountL1i(s, c), c, true, n % 64, L1Touch(l1, w)), l1.data[w][offset..offset + size]))
    else
      var w2 := L2WayOf(s, n);
      var (s1, line) :- if w2 < NUM_L2_WAYS then FetchFromL2(s, c, n, w2) else FetchFromMemory(s, c, n);
      Done((s1, line[offset..offset + size]))
  }
}
