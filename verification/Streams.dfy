/** Which lines the stream prefetcher asks for, and what a miss leaves in its table. */
module Streams {
  import opened Types
  import opened Coherence
  import opened Caches
  import opened Projection
  import opened Snoops
  import opened Prefetch
  import opened Losses
  import opened Machine
  import opened Arrivals

  /** A line of memory that pf_fill_l2 would fetch for a stream on line n's page. */
  predicate Fetchable(m: int, n: nat, size: nat) { m >= 1 && m / 64 == n / 64 && 64 * m + 64 <= size }

  /** Up to PREFETCH_DISTANCE lines past line n in direction d, from beyond `head` on. */
  predicate InWindow(m: int, n: nat, head: int, d: int) { (m - head) * d >= 1 && (m - n) * d <= 8 }

  /** Addresses of lines. */
  lemma InLines(head: int, n: nat, d: int)
    requires d == 1 || d == -1
    ensures 64 * head / 4096 == head / 64 && (64 * head + d * LINE_SIZE) / 4096 == (head + d) / 64
    ensures (64 * head + d * LINE_SIZE) / 64 == head + d
    ensures (64 * head - 64 * n) * d >= PREFETCH_DISTANCE * LINE_SIZE <==> (head - n) * d >= 8
  {
    if d == 1 {} else { assert d == -1; }
  }

  /** The turn that asks for the next line after `head` is the last, or not taken. */
  predicate Ends(size: nat, head: int, n: nat, d: int) {
    (head - n) * d >= 8 || (head + d) / 64 != head / 64 || head + d < 1 || 64 * (head + d) + 64 > size
  }

  /** The burst, in lines instead of bytes. */
  lemma Unrolled(size: nat, head: int, n: nat, d: int, left: nat)
    requires (d == 1 || d == -1) && left > 0
    ensures BurstLines(size, 64 * head, 64 * n, d, left)
         == if Ends(size, head, n, d) then []
            else [head + d] + BurstLines(size, 64 * (head + d), 64 * n, d, left - 1)
  {
    InLines(head, n, d);
    assert 64 * head + d * LINE_SIZE == 64 * (head + d);
  }

  /** The lines wanted from `head` on are the next one and those wanted from there on. */
  lemma WindowStep(size: nat, head: int, n: nat, d: int, m: nat)
    requires (d == 1 || d == -1) && !Ends(size, head, n, d) && (head / 64 == n / 64 || head + d == n)
    ensures head / 64 == n / 64 == (head + d) / 64 && Fetchable(head + d, n, size)
    ensures InWindow(m, n, head, d) <==> m == head + d || InWindow(m, n, head + d, d)
  {
    if d == 1 {} else { assert d == -1; }
  }

  lemma PastTheEnd(size: nat, head: int, n: nat, d: int, m: nat)
    requires d == 1 || d == -1
    requires head / 64 == n / 64 || head + d == n
    requires (head - n) * d >= -1 && 64 * n + 64 <= size && Ends(size, head, n, d)
    ensures !(head / 64 == n / 64 && Fetchable(m, n, size) && InWindow(m, n, head, d))
  {
    if d == 1 {} else { assert d == -1; }
  }

  /** The burst from `head` asks for exactly the lines of the window that are fetchable. */
  lemma {:induction false} BurstAsks(size: nat, head: int, n: nat, d: int, left: nat, m: nat)
    requires d == 1 || d == -1
    requires head / 64 == n / 64 || head + d == n
    requires (head - n) * d >= -1 && 8 - (head - n) * d <= left && 64 * n + 64 <= size
    ensures m in BurstLines(size, 64 * head, 64 * n, d, left)
            <==> head / 64 == n / 64 && Fetchable(m, n, size) && InWindow(m, n, head, d)
    decreases left
  {
    hide BurstLines, Fetchable, InWindow, Ends;
    Closer(head, n, d, left);
    if left == 0 {
      NoTurns(size, head, n, d);
      PastTheEnd(size, head, n, d, m);
    } else {
      Unrolled(size, head, n, d, left);
      if Ends(size, head, n, d) {
        PastTheEnd(size, head, n, d, m);
      } else {
        WindowStep(size, head, n, d, m);
        EndsFirst(size, head, n, d);
        BurstAsks(size, head + d, n, d, left - 1, m);
      }
    }
  }

  lemma NoTurns(size: nat, head: int, n: nat, d: int)
    requires (head - n) * d >= 8
    ensures BurstLines(size, 64 * head, 64 * n, d, 0) == [] && Ends(size, head, n, d)
  {
  }

  lemma Closer(head: int, n: nat, d: int, left: nat)
    requires (d == 1 || d == -1) && (head - n) * d >= -1 && 8 - (head - n) * d <= left
    ensures (head + d - n) * d == (head - n) * d + 1
    ensures left == 0 ==> (head - n) * d >= 8
  {
    if d == 1 {} else { assert d == -1; }
  }

  lemma EndsFirst(size: nat, head: int, n: nat, d: int)
    requires !Ends(size, head, n, d)
    ensures (head - n) * d < 8
  {
  }

  // ---------------------------------------------------------------------------
  // The stream that a miss matches
  // ---------------------------------------------------------------------------

  /** The direction in which a matched stream goes on: where the miss is from the last one
      if it is training, else its own. */
  function Heading(stream: Stream, n: nat): int {
    if stream.confidence == Training then n - stream.lastLine / 64
    else if stream.direction == Forward then 1 else -1
  }

  /** From which line on it asks for more. */
  function From(stream: Stream, n: nat): int {
    if stream.confidence == Training then n else stream.prefetchHead / 64
  }

  /** A stream in training matches the two lines next to its last miss; a steady one the nine
      lines from its last miss to one past what it has prefetched. */
  lemma MatchesWhere(stream: Stream, n: nat)
    requires StreamOk(stream)
    ensures StreamMatches(stream, 64 * n) <==>
            match stream.confidence
            case Unused => false
            case Training => Heading(stream, n) == 1 || Heading(stream, n) == -1
            case Steady => 1 <= (n - stream.lastLine / 64) * Heading(stream, n) <= 9
  {
  }

  /** The matched stream is trained in the direction of the miss, and its burst may start. */
  lemma Trains(stream: Stream, n: nat)
    requires StreamOk(stream) && StreamMatches(stream, 64 * n)
    ensures var a, d, head := Advanced(stream, 64 * n), Heading(stream, n), From(stream, n);
            && (d == 1 || d == -1) && a.direction.Sign() == d && a.confidence == Steady
            && a.prefetchHead == 64 * head && a.lastLine == 64 * n
            && (head / 64 == n / 64 || head + d == n) && (head - n) * d >= -1 && 8 - (head - n) * d <= 9
    ensures stream.confidence == Training ==> 64 * n == stream.lastLine + LINE_SIZE * Heading(stream, n)
  {
    MatchStartsBurst(stream, 64 * n);
    InLines(From(stream, n), n, Heading(stream, n));
  }

  /** Which lines a miss on line n prefetches. */
  lemma StreamAsks(s: State, c: nat, n: nat, m: nat)
    requires Windowed(s) && c < |s.cores| && InMemory(s.mem, n)
    ensures var pf := s.cores[c].pf;
            var i := MatchFrom(pf.streams, 64 * n, 0);
            m in StreamLines(s, c, n) <==>
              && i < NUM_STREAMS
              && var head, d := From(pf.streams[i], n), Heading(pf.streams[i], n);
                 head / 64 == n / 64 && Fetchable(m, n, |s.mem|) && InWindow(m, n, head, d)
  {
    hide BurstLines, StreamMatches, StreamOk, Advanced, From, Heading, Fetchable, InWindow;
    var pf := s.cores[c].pf;
    var i := MatchFrom(pf.streams, 64 * n, 0);
    if i < NUM_STREAMS {
      Trains(pf.streams[i], n);
      BurstAsks(|s.mem|, From(pf.streams[i], n), n, Heading(pf.streams[i], n), PREFETCH_DISTANCE + 1, m);
    }
  }

  // ---------------------------------------------------------------------------
  // What a miss leaves in the table
  // ---------------------------------------------------------------------------

  /** A burst gets to its target, PREFETCH_DISTANCE lines past the miss, exactly when that
      line is fetchable; else it is blocked on the way. */
  lemma {:induction false} BurstEnds(s: State, head: int, n: nat, d: int, left: nat)
    requires Inv(s) && (d == 1 || d == -1)
    requires head / 64 == n / 64 || head + d == n
    requires (head - n) * d >= -1 && 8 - (head - n) * d <= left && InMemory(s.mem, n)
    requires (head - n) * d <= 8 && ((head - n) * d == 8 ==> Fetchable(head, n, |s.mem|))
    ensures var r := RunBurst(s, 64 * head, 64 * n, d, left);
            && r.Done? && SameRest(s, r.value.state)
            && (r.value.blocked <==> !(head / 64 == n / 64 && Fetchable(n + 8 * d, n, |s.mem|)))
            && (!r.value.blocked ==> r.value.head == 64 * (n + 8 * d))
    decreases left
  {
    hide Inv, PfFill, Fetchable, Brings;
    InLines(head, n, d);
    Closer(head, n, d, left);
    if left == 0 || (head - n) * d >= 8 {
      AtTarget(head, n, d);
    } else {
      var next := 64 * head + d * LINE_SIZE;
      assert next == 64 * (head + d);
      PfFillBrings(s, 64 * head, next);
      var (s1, ok) := PfFill(s, 64 * head, next).value;
      OneTurn(s, head, n, d);
      if ok { BurstEnds(s1, head + d, n, d, left - 1); }
    }
  }

  lemma AtTarget(head: int, n: nat, d: int)
    requires (d == 1 || d == -1) && (head - n) * d == 8
    ensures head == n + 8 * d
  {
    if d == 1 {} else { assert d == -1; }
  }

  /** One turn of a burst short of its target. */
  lemma OneTurn(s: State, head: int, n: nat, d: int)
    requires (d == 1 || d == -1) && (head / 64 == n / 64 || head + d == n) && InMemory(s.mem, n)
    requires -1 <= (head - n) * d < 8
    ensures (head + d - n) * d <= 8
    ensures var next := 64 * (head + d);
            var ok := next / 4096 == 64 * head / 4096 && next >= LINE_SIZE && next + LINE_SIZE <= |s.mem|;
            && (ok ==> head / 64 == n / 64 == (head + d) / 64 && Fetchable(head + d, n, |s.mem|))
            && (!ok ==> !(head / 64 == n / 64 && Fetchable(n + 8 * d, n, |s.mem|)))
  {
    hide Fetchable;
    PagesOf(head);
    PagesOf(head + d);
    if d == 1 { TurnUp(|s.mem|, head, n); } else { TurnDown(|s.mem|, head, n); }
  }

  lemma PagesOf(line: int)
    ensures 64 * line / 4096 == line / 64
  {
  }

  lemma TurnUp(size: nat, head: int, n: nat)
    requires (head / 64 == n / 64 || head + 1 == n) && 64 * n + 64 <= size && n - 1 <= head < n + 8
    ensures var ok := (head + 1) / 64 == head / 64 && head + 1 >= 1 && 64 * (head + 1) + 64 <= size;
            && (ok ==> head / 64 == n / 64 && Fetchable(head + 1, n, size))
            && (!ok ==> !(head / 64 == n / 64 && Fetchable(n + 8, n, size)))
  {
  }

  lemma TurnDown(size: nat, head: int, n: nat)
    requires (head / 64 == n / 64 || head - 1 == n) && 64 * n + 64 <= size && n - 8 < head <= n + 1
    ensures var ok := (head - 1) / 64 == head / 64 && head - 1 >= 1 && 64 * (head - 1) + 64 <= size;
            && (ok ==> head / 64 == n / 64 && Fetchable(head - 1, n, size))
            && (!ok ==> !(head / 64 == n / 64 && Fetchable(n - 8, n, size)))
  {
  }

  lemma {:induction false} OldestIsGreatest(age: seq<nat>, best: nat, i: nat)
    requires best < i <= |age| && forall j :: 0 <= j < i ==> age[j] <= age[best]
    ensures forall j :: 0 <= j < |age| ==> age[j] <= age[OldestFrom(age, best, i)]
    decreases |age| - i
  {
    if i >= |age| {
    } else {
      OldestIsGreatest(age, if age[i] > age[best] then i else best, i + 1);
    }
  }

  ghost predicate NoneMatches(pf: Prefetcher, n: nat) {
    forall j: nat :: j < NUM_STREAMS ==> !StreamMatches(pf.streams[j], 64 * n)
  }

  /** Entry i of the table served the miss on line n: the first one that matches, which goes on
      if its target is fetchable and trains anew if not; else the oldest, which starts
      training. The entry is then the youngest; the others stay. */
  ghost predicate Serves(pf: Prefetcher, pf': Prefetcher, n: nat, size: nat, i: nat) {
    && i < NUM_STREAMS && pf'.age == TouchAge(pf.age, i)
    && (forall j: nat :: j < NUM_STREAMS && j != i ==> pf'.streams[j] == pf.streams[j])
    && pf'.streams[i].lastLine == 64 * n
    && (if NoneMatches(pf, n) then
          && (forall j: nat :: j < NUM_STREAMS ==> pf.age[j] <= pf.age[i])
          && pf'.streams[i] == Stream(64 * n, 64 * n, Unknown, Training)
        else
          && StreamMatches(pf.streams[i], 64 * n)
          && (forall j: nat :: j < i ==> !StreamMatches(pf.streams[j], 64 * n))
          && var d := Heading(pf.streams[i], n);
             if From(pf.streams[i], n) / 64 == n / 64 && Fetchable(n + 8 * d, n, size) then
               pf'.streams[i].confidence == Steady && pf'.streams[i].direction.Sign() == d
               && pf'.streams[i].prefetchHead == 64 * (n + 8 * d)
             else pf'.streams[i].confidence == Training)
  }

  lemma StreamOnMissServes(s: State, c: nat, n: nat) returns (i: nat)
    requires Inv(s) && Windowed(s) && c < |s.cores| && InMemory(s.mem, n)
    ensures var r := StreamOnMiss(s, c, 64 * n);
            && r.Done? && Serves(s.cores[c].pf, r.value.cores[c].pf, n, |s.mem|, i)
            && (forall b: nat :: b < |s.cores| && b != c ==> r.value.cores[b].pf == s.cores[b].pf)
  {
    hide Inv, RunBurst, StreamMatches, StreamOk, Advanced, TouchAge, Fetchable, From, Heading;
    var pf := s.cores[c].pf;
    i := MatchFrom(pf.streams, 64 * n, 0);
    if i < NUM_STREAMS {
      var head, d := From(pf.streams[i], n), Heading(pf.streams[i], n);
      Trains(pf.streams[i], n);
      NotPast(pf.streams[i], n, |s.mem|);
      BurstEnds(s, head, n, d, PREFETCH_DISTANCE + 1);
      assert !NoneMatches(pf, n);
    } else {
      i := OldestFrom(pf.age, 0, 1);
      OldestIsGreatest(pf.age, 0, 1);
    }
  }

  lemma NotPast(stream: Stream, n: nat, size: nat)
    requires StreamOk(stream) && StreamMatches(stream, 64 * n)
    ensures var head, d := From(stream, n), Heading(stream, n); (head - n) * d < 8
  {
    if stream.confidence == Steady { assert stream.direction == Forward || stream.direction == Backward; }
  }
}
