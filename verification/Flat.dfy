/** What a stretch of a call may do to the lines other than the one it is about. */
module Flat {
  import opened Types
  import opened Coherence
  import opened Caches
  import opened Projection
  import opened Snoops

  function ViewOf(s: State, m: nat): Line { View(Proj(s, m)) }

  predicate StaleIn(s: State, m: nat) { Stale(Proj(s, m)) }

  /** Lines other than n: the view of a line that is not stale stays; if no bytes were
      lost every view stays; if bytes were lost, some view changed and will not change
      back. None of them is stored to or gains a copy. Outside n's page nothing enters L2. */
  ghost predicate Tracks(s: State, s': State, n: nat) {
    && (forall m: nat :: m != n && !StaleIn(s, m) ==> ViewOf(s', m) == ViewOf(s, m) && !StaleIn(s', m))
    && (forall m: nat :: m != n ==> Calm(Proj(s, m), Proj(s', m)))
    && (forall m: nat :: m / 64 != n / 64 && Proj(s', m).l2.InL2? ==> Proj(s, m).l2.InL2?)
    && (s'.lossless ==> s.lossless && forall m: nat :: m != n ==> ViewOf(s', m) == ViewOf(s, m))
    && (s.lossless && !s'.lossless ==> exists m: nat :: m != n && ViewOf(s', m) != ViewOf(s, m) && !StaleIn(s', m))
  }

  lemma TracksTwice(s: State, s1: State, s2: State, n: nat)
    requires Tracks(s, s1, n) && Tracks(s1, s2, n)
    ensures Tracks(s, s2, n)
  {
    hide ViewOf, StaleIn;
    if s.lossless && !s2.lossless {
      if s1.lossless {
        var m: nat :| m != n && ViewOf(s2, m) != ViewOf(s1, m) && !StaleIn(s2, m);
        assert ViewOf(s2, m) != ViewOf(s, m);
      } else {
        var m: nat :| m != n && ViewOf(s1, m) != ViewOf(s, m) && !StaleIn(s1, m);
        assert ViewOf(s2, m) != ViewOf(s, m) && !StaleIn(s2, m);
      }
    }
  }

  /** A stretch that kept the invariant, tracked the other lines, and left x of line n. */
  ghost predicate Stretch(s: State, s': State, n: nat, x: LineState) {
    Inv(s') && SameRest(s, s') && Tracks(s, s', n) && Proj(s', n) == x
  }

  lemma StretchTwice(s: State, s1: State, s2: State, n: nat, x: LineState, y: LineState)
    requires Stretch(s, s1, n, x) && Stretch(s1, s2, n, y)
    ensures Stretch(s, s2, n, y)
  {
    hide Inv, Tracks;
    TracksTwice(s, s1, s2, n);
  }

  /** The same over a whole call, which may also count and retrain a stream. */
  ghost predicate Call(s: State, s': State, n: nat, x: LineState) {
    Inv(s') && SameShape(s, s') && Tracks(s, s', n) && Proj(s', n) == x
  }

  lemma StretchThenCall(s: State, s1: State, s2: State, n: nat, x: LineState, y: LineState)
    requires Stretch(s, s1, n, x) && Call(s1, s2, n, y)
    ensures Call(s, s2, n, y)
  {
    hide Inv, Tracks;
    TracksTwice(s, s1, s2, n);
  }

  lemma StretchIsCall(s: State, s': State, n: nat, x: LineState)
    requires Stretch(s, s', n, x)
    ensures Call(s, s', n, x)
  {
    hide Inv, Tracks, Proj;
  }

  /** A step on line n itself. */
  lemma MovedStretch(s: State, s': State, n: nat, x: LineState)
    requires Inv(s) && Moved(s, s', n, x) && Coherent(x) && SameRest(s, s') && s'.lossless == s.lossless
    ensures Stretch(s, s', n, x)
  {
    hide Placed, Coherent, Proj;
  }

  /** A step on another line that keeps that line's view. */
  lemma OtherStretch(s: State, s': State, n: nat, m: nat, y: LineState)
    requires Inv(s) && m != n && Moved(s, s', m, y) && Coherent(y) && SameRest(s, s') && s'.lossless == s.lossless
    requires View(y) == ViewOf(s, m) && (Stale(y) ==> StaleIn(s, m)) && Calm(Proj(s, m), y)
    requires y.l2.InL2? ==> Proj(s, m).l2.InL2? || m / 64 == n / 64
    ensures Stretch(s, s', n, Proj(s, n))
  {
    hide Placed, Coherent, Proj;
  }

  lemma SameStretch(s: State, s': State, n: nat)
    requires Inv(s) && SameRest(s, s') && s'.lossless == s.lossless && s'.l2 == s.l2 && s'.mem == s.mem
    requires forall c: nat :: c < |s.cores| ==> s'.cores[c].l1d == s.cores[c].l1d && s'.cores[c].l1i == s.cores[c].l1i
    ensures Stretch(s, s', n, Proj(s, n))
  {
    hide Placed, Coherent, Proj;
    SameCaches(s, s');
  }

  /** Bookkeeping that touches no line. */
  lemma SameCall(s: State, s': State, n: nat)
    requires Inv(s) && SameShape(s, s') && s'.lossless == s.lossless && s'.l2 == s.l2 && s'.mem == s.mem
    requires forall c: nat :: c < |s.cores| ==> s'.cores[c].l1d == s.cores[c].l1d && s'.cores[c].l1i == s.cores[c].l1i
    ensures Call(s, s', n, Proj(s, n))
  {
    hide Placed, Coherent, Proj;
    SameCaches(s, s');
  }

  lemma EvictL1Stretch(s: State, c: nat, instr: bool, n: nat)
    requires Inv(s) && c < |s.cores| && L1WayOf(s, c, instr, n) == NUM_L1_WAYS
    ensures var r := EvictL1(s, c, instr, n % 64);
            && r.Done? && Stretch(s, r.value.0, n, Proj(s, n))
            && SameMemory(s, r.value.0) && SameL2Ways(s, r.value.0)
            && GetL1(r.value.0, c, instr, n % 64).state[r.value.1] == Invalid
  {
    hide Placed, Coherent, Proj, EvictL1, SameL2Ways;
    EvictL1Moves(s, c, instr, n % 64);
    var s' := EvictL1(s, c, instr, n % 64).value.0;
    if s' == s {
      SameStretch(s, s, n);
    } else {
      var m: nat :| m % 64 == n % 64 && EvictsCopy(s, s', c, instr, m);
      L1WayProj(s, c, instr, n);
      if instr { EvictIKeeps(Proj(s, m), c); } else { EvictDKeeps(Proj(s, m), c); }
      OtherStretch(s, s', n, m, Evicted(Proj(s, m), c, instr));
    }
  }

  lemma EvictsLineStretch(s: State, s': State, n: nat, m: nat)
    requires Inv(s) && Inv(s') && m != n && EvictsLine(s, s', m) && SameRest(s, s')
    ensures Stretch(s, s', n, Proj(s, n))
  {
    hide Placed, Coherent, Proj, EvictShared;
    EvictSharedKeeps(Proj(s, m));
    assert ViewOf(s', m) == ViewOf(s, m) <==> !StaleIn(s, m);
    if s.lossless && !s'.lossless { assert ViewOf(s', m) != ViewOf(s, m) && !StaleIn(s', m); }
  }

  lemma EvictL2Stretch(s: State, k: nat, n: nat)
    requires Inv(s) && k < L2_SETS && (Proj(s, n).l2.NotInL2? || n % 4096 != k)
    ensures var r := EvictL2(s, k);
            && r.Done? && Stretch(s, r.value.0, n, Proj(s, n))
            && r.value.0.l2[k].state[r.value.1] == Invalid
            && (forall m: nat :: Proj(s, m).l2.NotInL2? && m != n ==> Proj(r.value.0, m) == Proj(s, m))
  {
    hide Placed, Coherent, Proj, EvictL2, EvictShared;
    EvictL2Moves(s, k);
    var s' := EvictL2(s, k).value.0;
    if s' == s {
      SameStretch(s, s, n);
    } else {
      var m: nat :| m % 4096 == k && EvictsLine(s, s', m);
      EvictsLineStretch(s, s', n, m);
    }
  }

  // ---------------------------------------------------------------------------
  // Prefetching
  // ---------------------------------------------------------------------------

  lemma InstallL2Moves(s: State, p: nat, w: nat, line: Line, state: Mesi, dm: set<nat>, im: set<nat>)
    requires Placed(s) && w < NUM_L2_WAYS && s.l2[p % 4096].state[w] == Invalid && state != Invalid
    requires Proj(s, p).l2.NotInL2? && InMemory(s.mem, p)
    ensures var r := L2Install(s.l2[p % 4096], p / 4096, w, line, state, dm, im);
            && r.Done?
            && Moved(s, PutL2(s, p % 4096, r.value), p, Proj(s, p).(l2 := InL2(state, dm, im, line)))
  {
    hide L1Ok;
    L2InstallLooks(s.l2[p % 4096], p / 4096, w, line, state, dm, im, p % 4096, |s.mem|);
    var l2 := L2Install(s.l2[p % 4096], p / 4096, w, line, state, dm, im).value;
    PutL2Placed(s, p % 4096, l2);
    forall m: nat
      ensures Proj(PutL2(s, p % 4096, l2), m) ==
              if m == p then Proj(s, p).(l2 := InL2(state, dm, im, line)) else Proj(s, m)
    {
      SameLine(m, p);
      PutL2Proj(s, p % 4096, l2, m);
    }
  }

  /** A prefetch that stays in line n's page leaves line n alone, if L2 holds it. */
  lemma PfFillStretch(s: State, from: int, next: int, n: nat)
    requires Inv(s) && Proj(s, n).l2.InL2? && next % 64 == 0
    requires next / 4096 == from / 4096 ==> from / 4096 == n / 64
    ensures var r := PfFill(s, from, next);
            && r.Done? && Stretch(s, r.value.0, n, Proj(s, n))
            && (r.value.1 ==> next / 4096 == from / 4096)
  {
    hide Placed, Coherent, Proj, EvictL2, L2Install;
    SameStretch(s, s, n);
    if next / 4096 == from / 4096 && next >= 64 && next + 64 <= |s.mem| {
      var p: nat := next / 64;
      L2WayProj(s, p);
      if L2WayOf(s, p) == NUM_L2_WAYS { PfFillMissStretch(s, p, n); }
    }
  }

  lemma PfFillMissStretch(s: State, p: nat, n: nat)
    requires Inv(s) && Proj(s, n).l2.InL2? && Proj(s, p).l2.NotInL2?
    requires p / 64 == n / 64 && p >= 1 && 64 * p + 64 <= |s.mem|
    ensures var r1 := EvictL2(s, p % 4096);
            && r1.Done?
            && var (s1, w) := r1.value;
               var line := MemLine(s1.mem, p);
               var r2 := L2Install(s1.l2[p % 4096], p / 4096, w, line, Exclusive, {}, {});
               && r2.Done?
               && Stretch(s, Emit(PutL2(s1, p % 4096, r2.value), PrefetchL2, 0, 2, p % 4096, w, 64 * p, Invalid,
                   Exclusive, Some(line)),
                          n, Proj(s, n))
  {
    hide Placed, Coherent, Proj, EvictL2, L2Install;
    OneLinePerSet(p, n);
    EvictL2Stretch(s, p % 4096, n);
    var (s1, w) := EvictL2(s, p % 4096).value;
    var line := MemLine(s1.mem, p);
    L2WayProj(s1, p);
    InstallL2Moves(s1, p, w, line, Exclusive, {}, {});
    var s2 := PutL2(s1, p % 4096, L2Install(s1.l2[p % 4096], p / 4096, w, line, Exclusive, {}, {}).value);
    PrefetchKeeps(Proj(s1, p));
    OtherStretch(s1, s2, n, p, Prefetch(Proj(s1, p)));
    StretchTwice(s, s1, s2, n, Proj(s, n), Proj(s, n));
    var s3 := Emit(s2, PrefetchL2, 0, 2, p % 4096, w, 64 * p, Invalid, Exclusive, Some(line));
    SameStretch(s2, s3, n);
    StretchTwice(s, s2, s3, n, Proj(s, n), Proj(s, n));
  }

  /** Different lines of one page are in different L2 sets. */
  lemma OneLinePerSet(p: nat, n: nat)
    requires p / 64 == n / 64
    ensures p % 4096 == n % 4096 ==> p == n
  {
  }
}
