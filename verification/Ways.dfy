/** The loops of core.cpp and uncore.cpp over the ways of one set and over the stream
    table, each computing the function that specifies it. */
module Ways {
  import opened Types
  import opened Caches
  import opened Tlb
  import Plru

  /** find_l1_way; NUM_L1_WAYS stands for a miss. */
  method FindL1Way(l1: L1Set, tag: nat) returns (way: nat)
    ensures way == Find(l1.tag, l1.state, tag)
  {
    way := 0;
    while way < NUM_L1_WAYS && !(l1.tag[way] == tag && l1.state[way] != Invalid)
      invariant way <= NUM_L1_WAYS
      invariant FindFrom(l1.tag, l1.state, tag, way) == Find(l1.tag, l1.state, tag)
    {
      way := way + 1;
    }
  }

  /** l2_find_way; NUM_L2_WAYS stands for a miss. */
  method L2FindWay(l2: L2Set, tag: nat) returns (way: nat)
    ensures way == Find(l2.tag, l2.state, tag)
  {
    way := 0;
    while way < NUM_L2_WAYS && !(l2.tag[way] == tag && l2.state[way] != Invalid)
      invariant way <= NUM_L2_WAYS
      invariant FindFrom(l2.tag, l2.state, tag, way) == Find(l2.tag, l2.state, tag)
    {
      way := way + 1;
    }
  }

  /** The scan for an INVALID way at the head of evict_l1 and evict_l2. */
  method InvalidWay(states: seq<Mesi>) returns (way: nat)
    ensures way == FreeFrom(states, 0)
  {
    way := 0;
    while way < |states| && states[way] != Invalid
      invariant way <= |states|
      invariant FreeFrom(states, way) == FreeFrom(states, 0)
    {
      way := way + 1;
    }
  }

  /** tlb_lookup */
  method TlbLookup(t: TlbSet, vpn: nat) returns (t': TlbSet, frame: Option<nat>)
    ensures (t', frame) == Tlb.Lookup(t, vpn)
  {
    var way := 0;
    t', frame := t, None;
    while way < NUM_TLB_WAYS
      invariant way <= NUM_TLB_WAYS && t' == t && frame == None
      invariant HitFrom(t, vpn, way) == HitFrom(t, vpn, 0)
    {
      if t.valid[way] && t.vpn[way] == vpn {
        var plru := Plru.PlruUpdate(t.plru, way);
        return t.(plru := plru), Some(t.frame[way]);
      }
      way := way + 1;
    }
  }

  /** tlb_fill */
  method TlbFill(t: TlbSet, vpn: nat, frame: nat) returns (t': TlbSet)
    ensures t' == Tlb.Fill(t, vpn, frame)
  {
    var way := 0;
    while way < NUM_TLB_WAYS && t.valid[way]
      invariant way <= NUM_TLB_WAYS
      invariant UnusedFrom(t.valid, way) == UnusedFrom(t.valid, 0)
    {
      way := way + 1;
    }
    if way == NUM_TLB_WAYS {
      way := Plru.PlruVictim(t.plru);
    }
    var plru := Plru.PlruUpdate(t.plru, way);
    t' := TlbWays(t.vpn[way := vpn], t.frame[way := frame], t.valid[way := true], plru);
  }

  /** pf_lru_update */
  method PfLruUpdate(age: seq<nat>, index: nat) returns (age': seq<nat>)
    requires index < |age|
    ensures age' == TouchAge(age, index)
  {
    age' := age;
    var i := 0;
    while i < |age|
      invariant i <= |age| == |age'|
      invariant forall j :: 0 <= j < i ==> age'[j] == if j != index && age[j] < age[index] then age[j] + 1 else age[j]
      invariant forall j :: i <= j < |age| ==> age'[j] == age[j]
    {
      if i != index && age'[i] < age[index] {
        age' := age'[i := age'[i] + 1];
      }
      i := i + 1;
    }
    age' := age'[index := 0];
  }

  /** pf_lru_evict: the first of the oldest entries. */
  method PfLruEvict(age: seq<nat>) returns (victim: nat)
    requires |age| > 0
    ensures victim == OldestFrom(age, 0, 1)
    ensures victim < |age| && forall i :: 0 <= i < |age| ==> age[i] <= age[victim]
    ensures forall i :: 0 <= i < victim ==> age[i] < age[victim]
  {
    victim := 0;
    var i := 1;
    while i < |age|
      invariant victim < i <= |age|
      invariant OldestFrom(age, victim, i) == OldestFrom(age, 0, 1)
      invariant forall j :: 0 <= j < i ==> age[j] <= age[victim]
      invariant forall j :: 0 <= j < victim ==> age[j] < age[victim]
    {
      if age[i] > age[victim] {
        victim := i;
      }
      i := i + 1;
    }
  }

  // ---------------------------------------------------------------------------
  // What the ages are for
  // ---------------------------------------------------------------------------

  /** The ages are 0 to n - 1, each once. */
  ghost predicate Ranked(age: seq<nat>) {
    && (forall i :: 0 <= i < |age| ==> age[i] < |age|)
    && (forall i, j :: 0 <= i < j < |age| ==> age[i] != age[j])
  }

  /** Touching keeps the ages a ranking, makes the touched entry the youngest, and keeps
      the others in order: an exact least-recently-used order. */
  lemma TouchKeepsOrder(age: seq<nat>, index: nat)
    requires Ranked(age) && index < |age|
    ensures Ranked(TouchAge(age, index)) && TouchAge(age, index)[index] == 0
    ensures forall i, j :: 0 <= i < |age| && 0 <= j < |age| && i != index && j != index ==>
              (age[i] < age[j] <==> TouchAge(age, index)[i] < TouchAge(age, index)[j])
  {
  }

  function TouchMany(age: seq<nat>, touched: seq<nat>): (r: seq<nat>)
    requires forall k :: 0 <= k < |touched| ==> touched[k] < |age|
    ensures |r| == |age|
    decreases |touched|
  {
    if touched == [] then age
    else TouchAge(TouchMany(age, touched[..|touched| - 1]), touched[|touched| - 1])
  }

  lemma {:induction false} TouchManyRanked(age: seq<nat>, touched: seq<nat>)
    requires Ranked(age) && forall k :: 0 <= k < |touched| ==> touched[k] < |age|
    ensures Ranked(TouchMany(age, touched))
    decreases |touched|
  {
    if touched == [] {
    } else {
      TouchManyRanked(age, touched[..|touched| - 1]);
      TouchKeepsOrder(TouchMany(age, touched[..|touched| - 1]), touched[|touched| - 1]);
    }
  }

  /** Whatever was touched since, an entry touched after another one's last touch is the
      younger of the two, so pf_lru_evict picks the entry unused for longest. */
  lemma {:induction false} RecentIsYounger(age: seq<nat>, before: seq<nat>, recent: nat, since: seq<nat>, stale: nat)
    requires Ranked(age) && recent < |age| && stale < |age| && stale != recent && stale !in since
    requires forall k :: 0 <= k < |before| ==> before[k] < |age|
    requires forall k :: 0 <= k < |since| ==> since[k] < |age|
    ensures var touched := before + [recent] + since;
            && (forall k :: 0 <= k < |touched| ==> touched[k] < |age|)
            && TouchMany(age, touched)[recent] < TouchMany(age, touched)[stale]
    decreases |since|
  {
    hide TouchAge;
    var touched := before + [recent] + since;
    var front := touched[..|touched| - 1];
    TouchManyRanked(age, front);
    TouchKeepsOrder(TouchMany(age, front), touched[|touched| - 1]);
    TouchManyRanked(age, touched);
    if since == [] {
      assert touched[|touched| - 1] == recent;
    } else {
      var fewer := since[..|since| - 1];
      assert front == before + [recent] + fewer;
      assert touched[|touched| - 1] == since[|since| - 1];
      RecentIsYounger(age, before, recent, fewer, stale);
    }
  }
}
