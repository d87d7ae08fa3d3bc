/** The stream prefetcher: its window, and what a burst leaves alone. */
module Prefetch {
  import opened Types
  import opened Coherence
  import opened Caches
  import opened Projection
  import opened Snoops
  import opened Flat

  /** A STEADY stream has fetched exactly PREFETCH_DISTANCE lines past its last miss, in
      the same 4 KB page. */
  predicate StreamOk(stream: Stream) {
    && stream.lastLine % LINE_SIZE == 0 && stream.prefetchHead % LINE_SIZE == 0
    && (stream.confidence == Steady ==>
          && stream.direction != Unknown
          && stream.prefetchHead == stream.lastLine + stream.direction.Sign() * (PREFETCH_DISTANCE * LINE_SIZE)
          && stream.prefetchHead / PAGE_SIZE == stream.lastLine / PAGE_SIZE)
  }

  ghost predicate PfOk(pf: Prefetcher) {
    forall i: nat :: i < NUM_STREAMS ==> StreamOk(pf.streams[i])
  }

  ghost predicate Windowed(s: State) {
    forall c: nat :: c < |s.cores| ==> PfOk(s.cores[c].pf)
  }

  lemma WindowedRest(s: State, s': State)
    requires Windowed(s) && SameRest(s, s')
    ensures Windowed(s')
  {
  }

  /** Where a burst may start: on the missed line's page, or one line short of it. */
  predicate BurstStart(head: int, miss: int, stride: int, left: nat) {
    && (stride == 1 || stride == -1) && head % LINE_SIZE == 0 && miss % LINE_SIZE == 0
    && (head / PAGE_SIZE == miss / PAGE_SIZE || head + stride * LINE_SIZE == miss)
    && -64 <= (head - miss) * stride <= PREFETCH_DISTANCE * LINE_SIZE
    && PREFETCH_DISTANCE * LINE_SIZE - (head - miss) * stride <= left * LINE_SIZE
  }

  /** The matched stream always gives such a start, with PREFETCH_DISTANCE + 1 turns. */
  lemma MatchStartsBurst(stream: Stream, miss: int)
    requires StreamOk(stream) && StreamMatches(stream, miss) && miss % LINE_SIZE == 0
    ensures var a := Advanced(stream, miss);
            BurstStart(a.prefetchHead, miss, a.direction.Sign(), PREFETCH_DISTANCE + 1)
  {
    if stream.confidence == Steady {
      if stream.direction == Forward {
        InPage(stream.lastLine, miss, stream.prefetchHead);
      } else {
        InPage(stream.prefetchHead, miss, stream.lastLine);
      }
    }
  }

  lemma InPage(lo: int, x: int, hi: int)
    requires lo / PAGE_SIZE == hi / PAGE_SIZE
    ensures lo <= x <= hi ==> x / PAGE_SIZE == lo / PAGE_SIZE
  {
  }

  /** One more turn keeps the start condition if it stays on the page it was on. */
  lemma BurstTurn(head: int, miss: int, stride: int, left: nat)
    requires BurstStart(head, miss, stride, left)
    ensures head % LINE_SIZE == 0 && (head + stride * LINE_SIZE) % LINE_SIZE == 0
    ensures left == 0 || (head - miss) * stride >= PREFETCH_DISTANCE * LINE_SIZE ==>
              head == miss + stride * (PREFETCH_DISTANCE * LINE_SIZE) && head / PAGE_SIZE == miss / PAGE_SIZE
    ensures left > 0 && (head - miss) * stride < PREFETCH_DISTANCE * LINE_SIZE
              && (head + stride * LINE_SIZE) / PAGE_SIZE == head / PAGE_SIZE ==>
              head / PAGE_SIZE == miss / PAGE_SIZE && BurstStart(head + stride * LINE_SIZE, miss, stride, left - 1)
  {
    if stride == 1 {
    } else {
      assert stride == -1;
    }
  }

  lemma {:induction false} BurstStretch(s: State, head: int, miss: int, stride: int, left: nat, n: nat)
    requires Inv(s) && Proj(s, n).l2.InL2? && miss == 64 * n
    requires BurstStart(head, miss, stride, left)
    ensures var r := RunBurst(s, head, miss, stride, left);
            && r.Done?
            && var b := r.value;
               && Stretch(s, b.state, n, Proj(s, n))
               && b.head % LINE_SIZE == 0
               && (!b.blocked ==> b.head == miss + stride * (PREFETCH_DISTANCE * LINE_SIZE))
               && (!b.blocked ==> b.head / PAGE_SIZE == miss / PAGE_SIZE)
    decreases left
  {
    hide Inv, Proj, Stretch, PfFill, BurstStart;
    BurstTurn(head, miss, stride, left);
    if left == 0 || (head - miss) * stride >= PREFETCH_DISTANCE * LINE_SIZE {
      StretchNone(s, n);
    } else {
      var next := head + stride * LINE_SIZE;
      PfFillStretch(s, head, next, n);
      var (s1, ok) := PfFill(s, head, next).value;
      StretchKeeps(s, s1, n);
      if ok {
        BurstStretch(s1, next, miss, stride, left - 1, n);
        var s2 := RunBurst(s1, next, miss, stride, left - 1).value.state;
        StretchTwice(s, s1, s2, n, Proj(s, n), Proj(s, n));
      }
    }
  }

  lemma StretchNone(s: State, n: nat)
    requires Inv(s)
    ensures Stretch(s, s, n, Proj(s, n))
  {
    hide Placed, Proj, Coherent;
    SameStretch(s, s, n);
  }

  lemma StretchKeeps(s: State, s': State, n: nat)
    requires Stretch(s, s', n, Proj(s, n))
    ensures Inv(s') && Proj(s', n) == Proj(s, n)
  {
  }

  /** A miss keeps every stream's window, whichever stream it trains, and leaves the
      missed line where it is. */
  lemma StreamOnMissCall(s: State, c: nat, n: nat)
    requires Inv(s) && Windowed(s) && c < |s.cores| && Proj(s, n).l2.InL2?
    ensures var r := StreamOnMiss(s, c, 64 * n);
            r.Done? && Call(s, r.value, n, Proj(s, n)) && Windowed(r.value)
            && (forall b: nat :: b < |s.cores| ==> r.value.cores[b].pmc == s.cores[b].pmc)
  {
    hide Inv, Proj, Stretch, Call, RunBurst;
    var pf := s.cores[c].pf;
    var i := MatchFrom(pf.streams, 64 * n, 0);
    if i < NUM_STREAMS {
      var stream := Advanced(pf.streams[i], 64 * n);
      MatchStartsBurst(pf.streams[i], 64 * n);
      BurstStretch(s, stream.prefetchHead, 64 * n, stream.direction.Sign(), PREFETCH_DISTANCE + 1, n);
      var b := RunBurst(s, stream.prefetchHead, 64 * n, stream.direction.Sign(), PREFETCH_DISTANCE + 1).value;
      PutPfCall(s, b.state, c, i, Settled(stream, b.head, b.blocked), n);
    } else {
      StretchNone(s, n);
      PutPfCall(s, s, c, OldestFrom(pf.age, 0, 1), Stream(64 * n, 64 * n, Unknown, Training), n);
    }
  }

  lemma PutPfCall(s: State, s1: State, c: nat, i: nat, stream: Stream, n: nat)
    requires Stretch(s, s1, n, Proj(s, n)) && Windowed(s)
    requires c < |s.cores| && c < |s1.cores| && i < NUM_STREAMS && StreamOk(stream)
    ensures Call(s, PutPf(s1, c, i, stream), n, Proj(s, n))
    ensures Windowed(PutPf(s1, c, i, stream))
    ensures forall b: nat :: b < |s.cores| ==> PutPf(s1, c, i, stream).cores[b].pmc == s.cores[b].pmc
  {
    hide Inv, Tracks, Call, Proj;
    WindowedRest(s, s1);
    SameCall(s1, PutPf(s1, c, i, stream), n);
    StretchThenCall(s, s1, PutPf(s1, c, i, stream), n, Proj(s, n), Proj(s, n));
  }
}
