/** The linked trace of event.h and the stepping of renderer.cpp as objects: nodes, a
    cursor that follows their pointers, and a shadow state written in place. */
module Viewer {
  import opened Types
  import opened Caches
  import opened Shadow
  import opened Stepping

  /** An event with its links. */
  class Node {
    var prev: Node?
    var next: Node?
    const event: Event

    constructor (event: Event, prev: Node?)
      ensures this.event == event && this.prev == prev && next == null
    {
      this.event, this.prev, next := event, prev, null;
    }
  }

  /** Node i, null outside the trace. */
  ghost function At(nodes: seq<Node>, i: int): Node? { if 0 <= i < |nodes| then nodes[i] else null }

  ghost function EventsOf(nodes: seq<Node>): (log: seq<Event>)
    ensures |log| == |nodes|
  {
    seq(|nodes|, i requires 0 <= i < |nodes| => nodes[i].event)
  }

  class EventQueue {
    var first: Node?
    var last: Node?
    var nextSeq: nat
    var count: nat
    ghost var nodes: seq<Node>

    /** The nodes in order, each linked to its neighbours. */
    ghost predicate Valid()
      reads this, nodes
    {
      && count == |nodes|
      && (forall i, j :: 0 <= i < j < |nodes| ==> nodes[i] != nodes[j])
      && first == At(nodes, 0) && last == At(nodes, |nodes| - 1)
      && (forall i :: 0 <= i < |nodes| ==> nodes[i].prev == At(nodes, i - 1) && nodes[i].next == At(nodes, i + 1))
    }

    /** The trace. */
    ghost function Events(): (log: seq<Event>)
      reads this
      ensures |log| == |nodes|
    {
      EventsOf(nodes)
    }

    constructor ()
      ensures Valid() && Events() == [] && nextSeq == 0
    {
      first, last, nextSeq, count, nodes := null, null, 0, 0, [];
    }

    /** begin_step, on a 32-bit counter. */
    method BeginStep() returns (s: nat)
      requires Valid()
      modifies `nextSeq
      ensures Valid() && Events() == old(Events())
      ensures s == old(nextSeq) && nextSeq == (old(nextSeq) + 1) % 0x1_0000_0000
    {
      s := nextSeq;
      nextSeq := (nextSeq + 1) % 0x1_0000_0000;
    }

    static lemma EventsMore(nodes: seq<Node>, e: Node)
      ensures EventsOf(nodes + [e]) == EventsOf(nodes) + [e.event]
    {
    }

    /** push */
    method Push(event: Event) returns (e: Node)
      requires Valid()
      modifies this, if last == null then {} else {last}
      ensures Valid() && fresh(e) && nodes == old(nodes) + [e] && nextSeq == old(nextSeq)
      ensures Events() == old(Events()) + [event]
    {
      hide EventsOf;
      ghost var was := nodes;
      e := new Node(event, last);
      if last != null {
        last.next := e;
      } else {
        first := e;
      }
      last := e;
      count := count + 1;
      nodes := nodes + [e];
      EventsMore(was, e);
      assert forall i :: 0 <= i < |was| ==> nodes[i] == was[i] != e;
      forall i | 0 <= i < |nodes| ensures nodes[i].prev == At(nodes, i - 1) && nodes[i].next == At(nodes, i + 1) {
        if i < |was| { assert was[i].prev == At(was, i - 1); }
        if i < |was| - 1 { assert was[i] != was[|was| - 1]; }
      }
    }
  }

  class Renderer {
    const queue: EventQueue
    var cursor: Node?
    var shadow: ShadowState
    var currentSeq: nat
    ghost var pos: nat

    /** The cursor is on the last event applied, or null before the first. */
    ghost predicate Valid()
      reads this, queue, queue.nodes
    {
      && queue.Valid() && pos <= |queue.nodes|
      && cursor == At(queue.nodes, pos - 1)
      && AllEventsFit(queue.Events(), |shadow.l1d|)
    }

    ghost function View(): Replayer
      reads this
    {
      Replayer(pos, shadow, currentSeq)
    }

    /** renderer_init */
    constructor (queue: EventQueue, cores: nat)
      requires queue.Valid() && AllEventsFit(queue.Events(), cores)
      ensures this.queue == queue && Valid() && View() == Replayer(0, InitShadow(cores), 0)
    {
      this.queue := queue;
      cursor, currentSeq, pos := null, 0, 0;
      shadow := InitShadow(cores);
    }

    // -------------------------------------------------------------------------
    // The shadow
    // -------------------------------------------------------------------------

    /** update_counters_forward with delta 1, update_counters_backward with delta -1. */
    method UpdateCounters(e: Event, delta: int)
      modifies `shadow
      ensures shadow == old(shadow).(counters := Counted(old(shadow).counters, e, delta))
    {
      if e.core < |shadow.counters| {
        var c := shadow.counters[e.core];
        match e.etype {
          case L1dHit => c := c.(l1dHits := c.l1dHits + delta);
          case L2Hit => c := c.(l2Hits := c.l2Hits + delta);
          case MemFetch => c := c.(memFetches := c.memFetches + delta);
          case SnoopDowngrade => c := c.(snoops := c.snoops + delta);
          case SnoopInvalidate => c := c.(snoops := c.snoops + delta);
          case PrefetchL2 => c := c.(prefetches := c.prefetches + delta);
          case _ =>
        }
        shadow := shadow.(counters := shadow.counters[e.core := c]);
      }
    }

    /** recompute_l2_dominant */
    method RecomputeL2Dominant(k: nat)
      requires k < L2_SETS
      modifies `shadow
      ensures shadow == old(shadow).(dominant := old(shadow).dominant[k := Dominant(old(shadow).l2[k].state)])
    {
      var states := shadow.l2[k].state;
      var dom, best, w := Invalid, 0, 0;
      while w < NUM_L2_WAYS
        invariant w <= NUM_L2_WAYS && best == Priority(dom)
        invariant DominantFrom(states, w, dom) == Dominant(states)
      {
        if Priority(states[w]) > best {
          best, dom := Priority(states[w]), states[w];
        }
        w := w + 1;
      }
      shadow := shadow.(dominant := shadow.dominant[k := dom]);
    }

    /** apply_event_forward */
    method ApplyEventForward(e: Event)
      requires EventFits(e, |shadow.l1d|)
      modifies `shadow
      ensures shadow == ApplyForward(old(shadow), e)
    {
      UpdateCounters(e, 1);
      if e.level == 1 {
        var set0: ShadowL1 := shadow.l1d[e.core][e.index];
        match e.etype {
          case L1dFill =>
            set0 := set0.(tag := set0.tag[e.way := e.address], state := set0.state[e.way := e.newState]);
            if e.data.Some? {
              set0 := set0.(data := set0.data[e.way := e.data.value]);
            }
          case L1dEvict =>
            set0 := set0.(state := set0.state[e.way := Invalid]);
          case SnoopInvalidate =>
            set0 := set0.(state := set0.state[e.way := Invalid]);
          case L1dHit =>
            set0 := ShownIn(set0, e);
          case SnoopDowngrade =>
            set0 := ShownIn(set0, e);
          case _ =>
        }
        shadow := shadow.(l1d := shadow.l1d[e.core := shadow.l1d[e.core][e.index := set0]]);
      } else if e.level == 2 {
        var set0: ShadowL2 := shadow.l2[e.index];
        match e.etype {
          case L2Fill =>
            set0 := FilledIn(set0, e);
          case PrefetchL2 =>
            set0 := FilledIn(set0, e);
          case L2Evict =>
            set0 := set0.(state := set0.state[e.way := Invalid]);
          case L2Hit =>
            set0 := set0.(state := set0.state[e.way := e.newState]);
          case _ =>
        }
        shadow := shadow.(l2 := shadow.l2[e.index := set0]);
        RecomputeL2Dominant(e.index);
      }
    }

    static method ShownIn(set0: ShadowL1, e: Event) returns (set1: ShadowL1)
      requires e.way < NUM_L1_WAYS
      ensures set1 == SetData(SetWay(set0, e.way, e.newState), e.way, e.data)
    {
      set1 := set0.(state := set0.state[e.way := e.newState]);
      if e.data.Some? {
        set1 := set1.(data := set1.data[e.way := e.data.value]);
      }
    }

    static method FilledIn(set0: ShadowL2, e: Event) returns (set1: ShadowL2)
      requires e.way < NUM_L2_WAYS
      ensures set1 == SetData(SetWay(SetTag(set0, e.way, e.address), e.way, e.newState), e.way, e.data)
    {
      set1 := set0.(tag := set0.tag[e.way := e.address], state := set0.state[e.way := e.newState]);
      if e.data.Some? {
        set1 := set1.(data := set1.data[e.way := e.data.value]);
      }
    }

    /** apply_event_backward */
    method ApplyEventBackward(e: Event)
      requires EventFits(e, |shadow.l1d|)
      modifies `shadow
      ensures shadow == ApplyBackward(old(shadow), e)
    {
      UpdateCounters(e, -1);
      if e.level == 1 {
        var set0: ShadowL1 := shadow.l1d[e.core][e.index];
        match e.etype {
          case L1dFill =>
            set0 := set0.(state := set0.state[e.way := Invalid]);
          case L1dEvict =>
            set0 := set0.(state := set0.state[e.way := e.oldState]);
            if e.data.Some? {
              set0 := set0.(tag := set0.tag[e.way := e.address], data := set0.data[e.way := e.data.value]);
            }
          case SnoopInvalidate =>
            set0 := set0.(state := set0.state[e.way := e.oldState]);
          case SnoopDowngrade =>
            set0 := set0.(state := set0.state[e.way := e.oldState]);
          case L1dHit =>
            set0 := set0.(state := set0.state[e.way := e.oldState]);
          case _ =>
        }
        shadow := shadow.(l1d := shadow.l1d[e.core := shadow.l1d[e.core][e.index := set0]]);
      } else if e.level == 2 {
        var set0: ShadowL2 := shadow.l2[e.index];
        match e.etype {
          case L2Fill =>
            set0 := set0.(state := set0.state[e.way := Invalid]);
          case PrefetchL2 =>
            set0 := set0.(state := set0.state[e.way := Invalid]);
          case L2Evict =>
            set0 := set0.(state := set0.state[e.way := e.oldState]);
            if e.data.Some? {
              set0 := set0.(tag := set0.tag[e.way := e.address], data := set0.data[e.way := e.data.value]);
            }
          case L2Hit =>
            set0 := set0.(state := set0.state[e.way := e.oldState]);
          case _ =>
        }
        shadow := shadow.(l2 := shadow.l2[e.index := set0]);
        RecomputeL2Dominant(e.index);
      }
    }

    // -------------------------------------------------------------------------
    // The cursor
    // -------------------------------------------------------------------------

    static lemma StaysInStep(log: seq<Event>, r: Replayer)
      requires Fits(log, r)
      ensures InStep(log, r) ==> InStep(log, Stepping.StepForward(log, r)) && InStep(log, Stepping.StepBackward(log, r))
    {
      hide InStep, Stepping.StepForward, Stepping.StepBackward;
      if InStep(log, r) {
        ForwardInStep(log, r);
        BackwardInStep(log, r);
      }
    }

    /** What the cursor and its neighbours are. */
    lemma Neighbours()
      requires Valid()
      ensures pos <= |queue.Events()| && AllEventsFit(queue.Events(), |shadow.l1d|)
      ensures cursor == null <==> pos == 0
      ensures cursor != null ==> cursor.event == queue.Events()[pos - 1] && cursor.next == At(queue.nodes, pos)
      ensures queue.first == At(queue.nodes, 0)
      ensures pos < |queue.Events()| ==>
                At(queue.nodes, pos) != null && At(queue.nodes, pos).event == queue.Events()[pos]
      ensures pos == |queue.Events()| ==> At(queue.nodes, pos) == null
    {
    }

    /** Move on to the next node and apply its event. */
    method GoTo(node: Node)
      requires Valid() && node == At(queue.nodes, pos)
      modifies `cursor, `shadow, `pos
      ensures old(pos) < |queue.Events()| && node.event == queue.Events()[old(pos)]
      ensures EventFits(node.event, |old(shadow).l1d|)
      ensures Valid() && View() == Replayer(old(pos) + 1, ApplyForward(old(shadow), node.event), currentSeq)
    {
      hide ApplyForward;
      assert node.event == queue.Events()[pos];
      cursor := node;
      ApplyEventForward(node.event);
      pos := pos + 1;
    }

    /** Take the cursor's event back and move to the node before it. */
    method GoBack()
      requires Valid() && cursor != null
      modifies `cursor, `shadow, `pos
      ensures 0 < old(pos) <= |queue.Events()| && old(cursor).event == queue.Events()[old(pos) - 1]
      ensures EventFits(old(cursor).event, |old(shadow).l1d|)
      ensures Valid() && View() == Replayer(old(pos) - 1, ApplyBackward(old(shadow), old(cursor).event), currentSeq)
    {
      hide ApplyBackward;
      assert cursor.event == queue.Events()[pos - 1];
      ApplyEventBackward(cursor.event);
      cursor := cursor.prev;
      pos := pos - 1;
    }

    /** The loop of step_forward: follow `next` while the sequence number stays `q`. */
    method Follow(q: nat)
      requires Valid() && cursor != null
      modifies `cursor, `shadow, `pos
      ensures Valid() && View() == Advance(queue.Events(), old(View()), q)
    {
      hide ApplyForward, Valid, At, EventsOf;
      ghost var log := queue.Events();
      Neighbours();
      ghost var whole := Advance(log, View(), q);
      while cursor.next != null && cursor.next.event.seqno == q
        invariant Valid() && cursor != null && currentSeq == old(currentSeq)
        invariant Fits(log, View()) && Advance(log, View(), q) == whole
        decreases |log| - pos
      {
        Neighbours();
        GoTo(cursor.next);
        Neighbours();
      }
      Neighbours();
    }

    method SetSeq(q: nat)
      requires Valid()
      modifies `currentSeq
      ensures Valid() && View() == old(View()).(currentSeq := q)
    {
      currentSeq := q;
    }

    /** step_forward */
    method StepForward()
      requires Valid()
      modifies `cursor, `shadow, `currentSeq, `pos
      ensures Valid() && View() == Stepping.StepForward(queue.Events(), old(View()))
      ensures InStep(queue.Events(), old(View())) ==> InStep(queue.Events(), View())
    {
      hide InStep, ApplyForward, Advance, Valid, At, EventsOf;
      Neighbours();
      StaysInStep(queue.Events(), View());
      var q;
      if cursor == null {
        if queue.first == null {
          return;
        }
        q := queue.first.event.seqno;
        First(q);
      } else {
        if cursor.next == null {
          return;
        }
        q := cursor.next.event.seqno;
        Follow(q);
      }
      SetSeq(q);
    }

    /** The first branch of step_forward. */
    method First(q: nat)
      requires Valid() && cursor == null && queue.first != null && q == queue.first.event.seqno
      modifies `cursor, `shadow, `pos
      ensures Valid() && View() == Advance(queue.Events(), old(View()), q)
    {
      hide ApplyForward, Valid, At, EventsOf;
      Neighbours();
      GoTo(queue.first);
      Neighbours();
      Follow(q);
    }

    /** One turn of the loop of step_backward, or its end. */
    static lemma OneTurnBack(log: seq<Event>, r: Replayer, q: nat)
      requires Fits(log, r)
      ensures if r.pos > 0 && log[r.pos - 1].seqno == q then
                Retreat(log, r, q)
                    == Retreat(log, Replayer(r.pos - 1, ApplyBackward(r.shadow, log[r.pos - 1]), r.currentSeq), q)
              else Retreat(log, r, q) == r
    {
      hide ApplyBackward;
    }

    /** The loop of step_backward. */
    method Retrace(q: nat)
      requires Valid()
      modifies `cursor, `shadow, `pos
      ensures Valid() && View() == Retreat(queue.Events(), old(View()), q)
    {
      hide ApplyBackward, Valid, At, EventsOf, Retreat;
      ghost var log := queue.Events();
      Neighbours();
      ghost var whole := Retreat(log, View(), q);
      while cursor != null && cursor.event.seqno == q
        invariant Valid() && currentSeq == old(currentSeq)
        invariant Fits(log, View()) && Retreat(log, View(), q) == whole
        decreases pos
      {
        Neighbours();
        OneTurnBack(log, View(), q);
        GoBack();
        Neighbours();
      }
      Neighbours();
      OneTurnBack(log, View(), q);
    }

    /** step_backward */
    method StepBackward()
      requires Valid()
      modifies `cursor, `shadow, `currentSeq, `pos
      ensures Valid() && View() == Stepping.StepBackward(queue.Events(), old(View()))
      ensures InStep(queue.Events(), old(View())) ==> InStep(queue.Events(), View())
    {
      hide InStep, ApplyBackward, Retreat, Valid, At, EventsOf;
      Neighbours();
      StaysInStep(queue.Events(), View());
      if cursor == null {
        return;
      }
      Retrace(cursor.event.seqno);
      Neighbours();
      if cursor != null {
        SetSeq(cursor.event.seqno);
      } else {
        SetSeq(0);
      }
    }
  }
}
