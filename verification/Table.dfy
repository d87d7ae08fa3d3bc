/** The prefetcher's table over runs: a new stream takes the entry unused for longest. */
module Table {
  import opened Types
  import opened Caches
  import opened Machine
  import opened Streams
  import opened Outcomes
  import opened Runs
  import opened Ways

  /** A load or store of core c that misses L2. */
  predicate Asks(s: State, op: Op, c: nat) {
    op.core == c && !op.kind.Fetching? && L2WayOf(s, op.pa / 64) == NUM_L2_WAYS
  }

  /** Which entries of core c's table served its misses, in order. */
  ghost predicate History(s: State, ops: seq<Op>, c: nat, entries: seq<nat>)
    requires AllFit(ops, |s.cores|) && Run(s, ops).Done?
    decreases |ops|
  {
    if ops == [] then entries == [] else
    var s1 := Step(s, ops[0]).value.0;
    if Asks(s, ops[0], c) then
      entries != [] && Trained(s, s1, ops[0], entries[0]) && History(s1, ops[1..], c, entries[1..])
    else History(s1, ops[1..], c, entries)
  }

  predicate InTable(entries: seq<nat>) { forall k :: 0 <= k < |entries| ==> entries[k] < NUM_STREAMS }

  lemma {:induction false} TouchFirst(age: seq<nat>, first: nat, rest: seq<nat>)
    requires first < |age| && forall k :: 0 <= k < |rest| ==> rest[k] < |age|
    ensures forall k :: 0 <= k < |[first] + rest| ==> ([first] + rest)[k] < |age|
    ensures TouchMany(age, [first] + rest) == TouchMany(TouchAge(age, first), rest)
    decreases |rest|
  {
    hide TouchAge;
    var all := [first] + rest;
    if rest == [] {
      assert all[..|all| - 1] == [];
    } else {
      var front := rest[..|rest| - 1];
      TouchFirst(age, first, front);
      assert all[..|all| - 1] == [first] + front;
    }
  }

  /** The ages record those services and nothing else. */
  lemma {:induction false} RunAges(s: State, ops: seq<Op>, c: nat) returns (entries: seq<nat>)
    requires Good(s) && c < |s.cores| && AllFit(ops, |s.cores|) && Run(s, ops).Done?
    ensures History(s, ops, c, entries) && InTable(entries)
    ensures Run(s, ops).value.0.cores[c].pf.age == TouchMany(s.cores[c].pf.age, entries)
    decreases |ops|
  {
    hide Good, Step, TouchAge, L2WayOf, CountedOnce;
    entries := [];
    if ops == [] {
    } else {
      var i := StepCounts(s, ops[0]);
      StepRefinesFlat(s, ops[0]);
      var s1 := Step(s, ops[0]).value.0;
      var rest := RunAges(s1, ops[1..], c);
      entries := rest;
      if Asks(s, ops[0], c) {
        entries := [i] + rest;
        TouchFirst(s.cores[c].pf.age, i, rest);
        assert entries[1..] == rest;
      }
    }
  }

  /** An entry of greatest age: every other one has been used since its last use. */
  lemma OldestIsUnusedLongest(age: seq<nat>, entries: seq<nat>, i: nat, p: nat, j: nat)
    requires Ranked(age) && |age| == NUM_STREAMS && InTable(entries) && i < NUM_STREAMS && j < NUM_STREAMS && j != i
    requires forall k: nat :: k < NUM_STREAMS ==> TouchMany(age, entries)[k] <= TouchMany(age, entries)[i]
    requires p < |entries| && entries[p] == i
    ensures j in entries[p + 1..]
  {
    hide TouchMany;
    var before, since := entries[..p], entries[p + 1..];
    assert entries == before + [i] + since;
    if j !in since { RecentIsYounger(age, before, i, since, j); }
  }

  /** Every entry but i has served. */
  predicate AllBut(i: nat, entries: seq<nat>) { forall j: nat :: j < NUM_STREAMS && j != i ==> j in entries }

  /** A miss that no stream matches starts one in training, at its own line, in the entry of
      its core's table that was unused for longest: after the last time that entry served,
      every other has served too. */
  lemma NewStreamTakesOldest(s: State, ops: seq<Op>, op: Op) returns (entries: seq<nat>, i: nat)
    requires Good(s) && AllFit(ops, |s.cores|) && op.Fits(|s.cores|) && Ranked(s.cores[op.core].pf.age)
    requires Run(s, ops).Done?
    requires var s1 := Run(s, ops).value.0;
             Step(s1, op).Done? && Asks(s1, op, op.core) && NoneMatches(s1.cores[op.core].pf, op.pa / 64)
    ensures History(s, ops, op.core, entries) && i < NUM_STREAMS
    ensures var n, pf' := op.pa / 64, Step(Run(s, ops).value.0, op).value.0.cores[op.core].pf;
            pf'.streams[i] == Stream(64 * n, 64 * n, Unknown, Training)
    ensures forall p: nat :: p < |entries| && entries[p] == i ==> AllBut(i, entries[p + 1..])
  {
    hide Good, Step, TouchAge, TouchMany, L2WayOf, CountedOnce, NoneMatches, Run, History, Ranked;
    var c := op.core;
    entries := RunAges(s, ops, c);
    GoodAfterRun(s, ops);
    i := StepCounts(Run(s, ops).value.0, op);
    forall p: nat | p < |entries| && entries[p] == i ensures AllBut(i, entries[p + 1..]) {
      var since := entries[p + 1..];
      forall j: nat | j < NUM_STREAMS && j != i ensures j in since {
        OldestIsUnusedLongest(s.cores[c].pf.age, entries, i, p, j);
      }
    }
  }

  lemma GoodAfterRun(s: State, ops: seq<Op>)
    requires Good(s) && AllFit(ops, |s.cores|) && Run(s, ops).Done?
    ensures Good(Run(s, ops).value.0)
  {
    hide Run, Good, NeverLoses, Bytes, FlatRun, InBounds;
    RunRefinesFlat(s, ops);
  }

  /** At power-on the ages are a ranking. */
  lemma PowerOnRanked(n: nat, mem: seq<byte>, c: nat)
    requires c < n
    ensures Ranked(Init(n, mem).cores[c].pf.age)
  {
  }
}
