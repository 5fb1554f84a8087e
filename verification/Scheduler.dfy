/** Admission of existing owners: durable inputs reserve capacity first, then owners with new events are
    chosen greedily in one fair order. No host is pushed beyond its limit, no owner is admitted twice, and
    an owner is passed over only for better ranked ones on a full host. */
module Scheduler {
  import opened Effects
  import opened Ownership

  datatype OwnerState = OwnerState(
    version: Option<string>, delivered: Option<string>, terminal: bool, goalAck: Option<string>,
    preparedAt: Option<int>, deliveredAt: Option<int>, pending: bool, pendingCompaction: bool)

  datatype Policy = Policy(goal: string, limits: map<string, nat>, producers: seq<nat>, priority: seq<nat>, expedited: seq<nat>)

  type Activity = map<string, set<nat>>

  const LIMIT_MAX: nat := 64
  const USIZE_MAX: nat := 0xFFFF_FFFF_FFFF_FFFF
  const NOTHING: OwnerState := OwnerState(None, None, false, None, None, None, false, false)

  function StateOf(states: map<nat, OwnerState>, number: nat): OwnerState { if number in states then states[number] else NOTHING }

  predicate NeedsWake(s: OwnerState) { !s.terminal && !s.pending && s.version != s.delivered }

  function Position(list: seq<nat>, n: nat): (r: Option<nat>)
    ensures r.Some? <==> n in list
    ensures r.Some? ==> r.value < |list| && list[r.value] == n && n !in list[..r.value]
  {
    if list == [] then None
    else if list[0] == n then Some(0)
    else
      var rest := Position(list[1..], n);
      if rest.None? then None else Some(rest.value + 1)
  }

  // ---------- the order ----------

  datatype Key = Key(rank: nat, expedited: nat, unaged: bool, oldest: int, priority: nat, number: nat)

  function Rank(p: Packet, s: OwnerState, policy: Policy): nat {
    var firstGoal := s.goalAck != Some(policy.goal);
    if p.number in policy.producers then 0
    else if firstGoal && p.number in policy.expedited then 1
    else if s.delivered.None? then 2
    else if firstGoal then 3
    else 4
  }

  function KeyOf(p: Packet, states: map<nat, OwnerState>, policy: Policy): Key {
    var s := StateOf(states, p.number);
    var rank := Rank(p, s, policy);
    var expedited := if s.goalAck != Some(policy.goal) then Position(policy.expedited, p.number) else None;
    var oldest := if rank != 4 then None else if s.preparedAt.Some? then s.preparedAt else s.deliveredAt;
    Key(rank, expedited.GetOr(0), oldest.None?, oldest.GetOr(0), Position(policy.priority, p.number).GetOr(USIZE_MAX), p.number)
  }

  predicate Before(a: Key, b: Key) {
    a.rank < b.rank || (a.rank == b.rank && (
      a.expedited < b.expedited || (a.expedited == b.expedited && (
        (!a.unaged && b.unaged) || (a.unaged == b.unaged && (
          a.oldest < b.oldest || (a.oldest == b.oldest && (
            a.priority < b.priority || (a.priority == b.priority && a.number < b.number)))))))))
  }

  lemma BeforeIsOrder(a: Key, b: Key, c: Key)
    ensures a.number != b.number ==> Before(a, b) || Before(b, a)
    ensures !(Before(a, b) && Before(b, a))
    ensures Before(a, b) && Before(b, c) ==> Before(a, c)
  {
  }

  /** The owner has not acknowledged the present goal. */
  ghost predicate FirstGoal(s: OwnerState, policy: Policy) { s.goalAck != Some(policy.goal) }

  ghost predicate Expedited(p: Packet, s: OwnerState, policy: Policy) { FirstGoal(s, policy) && p.number in policy.expedited }

  /** When the last prompt was prepared, or else delivered. */
  ghost function Since(s: OwnerState): Option<int> { if s.preparedAt.Some? then s.preparedAt else s.deliveredAt }

  /** The first place of `n` in the list is `i`. */
  ghost predicate Named(list: seq<nat>, i: int, n: nat) { 0 <= i < |list| && list[i] == n && n !in list[..i] }

  /** Nothing sets either owner before the other but the waiting time. */
  ghost predicate SameClass(p: Packet, q: Packet, s: OwnerState, t: OwnerState, policy: Policy) {
    && p.number !in policy.producers && q.number !in policy.producers && s.delivered.Some? && t.delivered.Some?
    && !FirstGoal(s, policy) && !FirstGoal(t, policy)
  }

  /** Whom the order favours: producers over all others; then owners expedited for a new goal, in their order; then
      owners never reached; then those that have not acknowledged the goal; and among the rest whoever waited longest. */
  lemma OrderFavours(p: Packet, q: Packet, states: map<nat, OwnerState>, policy: Policy)
    ensures var s, t := StateOf(states, p.number), StateOf(states, q.number);
      var first := Before(KeyOf(p, states, policy), KeyOf(q, states, policy));
      && (p.number in policy.producers && q.number !in policy.producers ==> first)
      && (p.number !in policy.producers && q.number !in policy.producers ==>
            && (Expedited(p, s, policy) && !Expedited(q, t, policy) ==> first)
            && (Expedited(p, s, policy) && Expedited(q, t, policy) ==>
                  forall i, j :: Named(policy.expedited, i, p.number) && Named(policy.expedited, j, q.number) && i < j ==> first)
            && (!Expedited(p, s, policy) && !Expedited(q, t, policy) ==>
                  && (s.delivered.None? && t.delivered.Some? ==> first)
                  && (s.delivered.Some? && t.delivered.Some? && FirstGoal(s, policy) && !FirstGoal(t, policy) ==> first)))
      && (SameClass(p, q, s, t, policy) && Since(s).Some? && (Since(t).None? || Since(s).value < Since(t).value) ==> first)
  {
    PositionIsFirst(policy.expedited, p.number);
    PositionIsFirst(policy.expedited, q.number);
  }

  lemma PositionIsFirst(list: seq<nat>, n: nat)
    ensures forall i :: Named(list, i, n) ==> Position(list, n) == Some(i)
  {
    forall i | Named(list, i, n) ensures Position(list, n) == Some(i) {
      var r := Position(list, n);
    }
  }

  ghost predicate Ordered(ps: seq<Packet>, states: map<nat, OwnerState>, policy: Policy) {
    forall i, j :: 0 <= i < j < |ps| ==> Before(KeyOf(ps[i], states, policy), KeyOf(ps[j], states, policy))
  }

  predicate NumbersDistinct(ps: seq<Packet>) { forall i, j | 0 <= i < j < |ps| :: ps[i].number != ps[j].number }

  function Insert(sorted: seq<Packet>, p: Packet, states: map<nat, OwnerState>, policy: Policy): (r: seq<Packet>)
    ensures multiset(r) == multiset(sorted) + multiset{p}
  {
    if sorted == [] then [p]
    else if Before(KeyOf(p, states, policy), KeyOf(sorted[0], states, policy)) then [p] + sorted
    else
      assert sorted == [sorted[0]] + sorted[1..];
      [sorted[0]] + Insert(sorted[1..], p, states, policy)
  }

  /** The owners in admission order. */
  function Sort(ps: seq<Packet>, states: map<nat, OwnerState>, policy: Policy): (r: seq<Packet>)
    ensures multiset(r) == multiset(ps)
  {
    if ps == [] then []
    else
      assert ps == ps[..|ps| - 1] + [ps[|ps| - 1]];
      Insert(Sort(ps[..|ps| - 1], states, policy), ps[|ps| - 1], states, policy)
  }

  lemma InsertMembers(sorted: seq<Packet>, p: Packet, states: map<nat, OwnerState>, policy: Policy)
    ensures forall q :: q in Insert(sorted, p, states, policy) <==> q in sorted || q == p
  {
    hide KeyOf, Before;
    SameElements(Insert(sorted, p, states, policy), sorted + [p]);
  }

  lemma {:induction false} InsertOrders(sorted: seq<Packet>, p: Packet, states: map<nat, OwnerState>, policy: Policy)
    requires Ordered(sorted, states, policy) && forall q :: q in sorted ==> q.number != p.number
    ensures Ordered(Insert(sorted, p, states, policy), states, policy)
  {
    hide KeyOf, Before;
    var key := KeyOf(p, states, policy);
    if sorted != [] {
      var head := KeyOf(sorted[0], states, policy);
      assert sorted[0] in sorted;
      KeyNumber(p, states, policy);
      KeyNumber(sorted[0], states, policy);
      BeforeIsOrder(key, head, key);
      if Before(key, head) {
        forall j | 0 < j < |sorted| ensures Before(key, KeyOf(sorted[j], states, policy)) {
          BeforeIsOrder(key, head, KeyOf(sorted[j], states, policy));
        }
      } else {
        var rest := Insert(sorted[1..], p, states, policy);
        assert Ordered(sorted[1..], states, policy);
        InsertOrders(sorted[1..], p, states, policy);
        assert Before(head, key);
        InsertMembers(sorted[1..], p, states, policy);
        forall j | 0 <= j < |rest| ensures Before(head, KeyOf(rest[j], states, policy)) {
          assert rest[j] in rest;
        }
      }
    }
  }

  lemma KeyNumber(p: Packet, states: map<nat, OwnerState>, policy: Policy)
    ensures KeyOf(p, states, policy).number == p.number
  {
  }

  lemma {:induction false} SortOrders(ps: seq<Packet>, states: map<nat, OwnerState>, policy: Policy)
    requires NumbersDistinct(ps)
    ensures Ordered(Sort(ps, states, policy), states, policy)
    ensures forall p :: p in Sort(ps, states, policy) <==> p in ps
  {
    hide KeyOf, Before;
    SameElements(Sort(ps, states, policy), ps);
    if ps != [] {
      var rest, last := ps[..|ps| - 1], ps[|ps| - 1];
      SortOrders(rest, states, policy);
      InsertOrders(Sort(rest, states, policy), last, states, policy);
    }
  }

  lemma SameElements<T>(a: seq<T>, b: seq<T>)
    requires multiset(a) == multiset(b)
    ensures forall x :: x in a <==> x in b
  {
    forall x ensures x in a <==> x in b {
      assert x in multiset(a) <==> x in multiset(b);
    }
  }

  // ---------- capacity ----------

  /** How many of the packets are on the host. */
  function CountOn(ps: seq<Packet>, host: string): nat {
    if ps == [] then 0 else CountOn(ps[..|ps| - 1], host) + if ps[|ps| - 1].host == host then 1 else 0
  }

  lemma CountAppend(ps: seq<Packet>, p: Packet, host: string)
    ensures CountOn(ps + [p], host) == CountOn(ps, host) + if p.host == host then 1 else 0
  {
    assert (ps + [p])[..|ps|] == ps;
  }

  function Busy(active: Activity, host: string): nat { if host in active then |active[host]| else 0 }

  function Limit(policy: Policy, host: string): nat { if host in policy.limits then policy.limits[host] else 0 }

  predicate Occupies(active: Activity, p: Packet) { p.host in active && p.number in active[p.host] }

  /** An owner the selection may admit. */
  predicate Eligible(p: Packet, states: map<nat, OwnerState>, active: Activity) {
    !Occupies(active, p) && NeedsWake(StateOf(states, p.number))
  }

  /** A complete observation under a usable policy. */
  predicate Observable(m: Manifest, active: Activity, policy: Policy) {
    && Valid(m) && !Blank(policy.goal) && policy.limits != map[]
    && (forall h | h in policy.limits :: 0 < policy.limits[h] <= LIMIT_MAX)
    && active.Keys == policy.limits.Keys && (forall p | p in m.packets :: p.host in active)
    && (forall h | h in active :: forall n | n in active[h] :: exists p | p in m.packets :: p.number == n && p.host == h)
  }

  ghost predicate Within(chosen: seq<Packet>, active: Activity, policy: Policy) {
    forall h :: CountOn(chosen, h) > 0 ==> Busy(active, h) + CountOn(chosen, h) <= Limit(policy, h)
  }

  /** `p` was passed over for a reason: its host is full, and all who got a place there rank before it. */
  ghost predicate Justified(p: Packet, chosen: seq<Packet>, states: map<nat, OwnerState>, active: Activity, policy: Policy) {
    && Busy(active, p.host) + CountOn(chosen, p.host) >= Limit(policy, p.host)
    && forall q :: q in chosen && q.host == p.host ==> Before(KeyOf(q, states, policy), KeyOf(p, states, policy))
  }

  method Select(m: Manifest, states: map<nat, OwnerState>, active: Activity, policy: Policy) returns (r: Option<seq<Packet>>)
    ensures r.Some? <==> Observable(m, active, policy)
    ensures r.Some? ==> var chosen := r.value;
      && NumbersDistinct(chosen) && Ordered(chosen, states, policy)
      && (forall p :: p in chosen ==> p in m.packets && Eligible(p, states, active))
      && Within(chosen, active, policy)
      && (forall p :: p in m.packets && Eligible(p, states, active) && p !in chosen ==> Justified(p, chosen, states, active, policy))
  {
    hide *;
    if !Observable(m, active, policy) { return None; }
    HostsKnown(m, active, policy);
    SortOrders(m.packets, states, policy);
    var ordered := Sort(m.packets, states, policy);
    var counts := map h | h in active :: |active[h]|;
    var chosen: seq<Packet> := [];
    CountsStart(active);
    ChosenStart(ordered, states, active, policy);
    for i := 0 to |ordered|
      invariant counts.Keys == active.Keys && forall h :: h in active ==> counts[h] == Busy(active, h) + CountOn(chosen, h)
      invariant Chosen(ordered, i, chosen, states, active, policy)
    {
      var p := ordered[i];
      assert p in ordered;
      if !Occupies(active, p) && counts[p.host] < Limit(policy, p.host) && NeedsWake(StateOf(states, p.number)) {
        ChosenNext(ordered, i, chosen, states, active, policy);
        CountsNext(chosen, p);
        counts := counts[p.host := counts[p.host] + 1];
        chosen := chosen + [p];
      } else {
        ChosenSame(ordered, i, chosen, states, active, policy);
      }
    }
    ChosenDone(ordered, chosen, states, active, policy);
    r := Some(chosen);
  }

  /** The state of the greedy loop after the first `n` owners in order. */
  ghost predicate Chosen(
    ordered: seq<Packet>, n: nat, chosen: seq<Packet>, states: map<nat, OwnerState>, active: Activity, policy: Policy)
    requires n <= |ordered|
  {
    && (forall p :: p in chosen ==> p in ordered[..n] && Eligible(p, states, active))
    && Ordered(chosen, states, policy) && Within(chosen, active, policy)
    && (forall p :: p in ordered[..n] && Eligible(p, states, active) && p !in chosen ==>
          Justified(p, chosen, states, active, policy))
  }

  lemma ChosenStart(ordered: seq<Packet>, states: map<nat, OwnerState>, active: Activity, policy: Policy)
    ensures Chosen(ordered, 0, [], states, active, policy)
  {
  }

  lemma ChosenNext(
    ordered: seq<Packet>, i: nat, chosen: seq<Packet>, states: map<nat, OwnerState>, active: Activity, policy: Policy)
    requires i < |ordered| && Chosen(ordered, i, chosen, states, active, policy) && Ordered(ordered, states, policy)
    requires !Occupies(active, ordered[i]) && NeedsWake(StateOf(states, ordered[i].number))
    requires Busy(active, ordered[i].host) + CountOn(chosen, ordered[i].host) < Limit(policy, ordered[i].host)
    ensures Chosen(ordered, i + 1, chosen + [ordered[i]], states, active, policy)
  {
    hide KeyOf, Before, Eligible, Busy, Limit, CountOn, Within, Ordered, Justified, NeedsWake, StateOf, Occupies;
    EligibleNow(ordered[i], states, active);
    assert ordered[..i + 1] == ordered[..i] + [ordered[i]];
    Admit(ordered, i, chosen, states, active, policy);
  }

  lemma EligibleNow(p: Packet, states: map<nat, OwnerState>, active: Activity)
    requires !Occupies(active, p) && NeedsWake(StateOf(states, p.number))
    ensures Eligible(p, states, active)
  {
  }

  lemma ChosenSame(
    ordered: seq<Packet>, i: nat, chosen: seq<Packet>, states: map<nat, OwnerState>, active: Activity, policy: Policy)
    requires i < |ordered| && Chosen(ordered, i, chosen, states, active, policy) && Ordered(ordered, states, policy)
    requires !Occupies(active, ordered[i]) && NeedsWake(StateOf(states, ordered[i].number)) ==>
               Busy(active, ordered[i].host) + CountOn(chosen, ordered[i].host) >= Limit(policy, ordered[i].host)
    ensures Chosen(ordered, i + 1, chosen, states, active, policy)
  {
    hide KeyOf, Before, Busy, Limit, CountOn, Within, Ordered, NeedsWake, StateOf, Occupies;
    assert ordered[..i + 1] == ordered[..i] + [ordered[i]];
    PassOver(ordered, i, chosen, states, policy);
  }

  lemma ChosenDone(ordered: seq<Packet>, chosen: seq<Packet>, states: map<nat, OwnerState>, active: Activity, policy: Policy)
    requires Chosen(ordered, |ordered|, chosen, states, active, policy)
    ensures NumbersDistinct(chosen) && Ordered(chosen, states, policy) && Within(chosen, active, policy)
    ensures forall p :: p in chosen ==> p in ordered && Eligible(p, states, active)
    ensures forall p :: p in ordered && Eligible(p, states, active) && p !in chosen ==>
              Justified(p, chosen, states, active, policy)
  {
    hide KeyOf, Before, Eligible, Within, Justified;
    assert ordered[..|ordered|] == ordered;
    OrderedIsDistinct(chosen, states, policy);
  }

  lemma CountsNext(chosen: seq<Packet>, p: Packet)
    ensures forall h :: CountOn(chosen + [p], h) == CountOn(chosen, h) + if p.host == h then 1 else 0
  {
    forall h ensures CountOn(chosen + [p], h) == CountOn(chosen, h) + if p.host == h then 1 else 0 { CountAppend(chosen, p, h); }
  }

  lemma CountsStart(active: Activity)
    ensures forall h :: h in active ==> |active[h]| == Busy(active, h) + CountOn([], h)
  {
  }

  lemma HostsKnown(m: Manifest, active: Activity, policy: Policy)
    requires Observable(m, active, policy)
    ensures NumbersDistinct(m.packets) && forall p :: p in m.packets ==> p.host in active
  {
    hide PacketOk, CountsOk, ProducersOk;
    forall i, j | 0 <= i < j < |m.packets| ensures m.packets[i].number != m.packets[j].number {
      NumbersDiffer(m.packets, i, j);
    }
  }

  lemma OrderedIsDistinct(ps: seq<Packet>, states: map<nat, OwnerState>, policy: Policy)
    requires Ordered(ps, states, policy)
    ensures NumbersDistinct(ps)
  {
    forall i, j | 0 <= i < j < |ps| ensures ps[i].number != ps[j].number {
      if ps[i].number == ps[j].number { SameKey(ps[i], ps[j], states, policy); }
    }
  }

  lemma SameKey(p: Packet, q: Packet, states: map<nat, OwnerState>, policy: Policy)
    requires p.number == q.number
    ensures KeyOf(p, states, policy) == KeyOf(q, states, policy)
  {
  }

  lemma PassOver(ordered: seq<Packet>, i: nat, chosen: seq<Packet>, states: map<nat, OwnerState>, policy: Policy)
    requires i < |ordered| && Ordered(ordered, states, policy) && forall q :: q in chosen ==> q in ordered[..i]
    ensures forall q :: q in chosen ==> Before(KeyOf(q, states, policy), KeyOf(ordered[i], states, policy))
  {
    forall q | q in chosen ensures Before(KeyOf(q, states, policy), KeyOf(ordered[i], states, policy)) {
      var j :| 0 <= j < i && ordered[j] == q;
    }
  }

  lemma Admit(ordered: seq<Packet>, i: nat, chosen: seq<Packet>, states: map<nat, OwnerState>, active: Activity, policy: Policy)
    requires i < |ordered| && Ordered(ordered, states, policy) && forall q :: q in chosen ==> q in ordered[..i]
    requires Ordered(chosen, states, policy) && Within(chosen, active, policy)
    requires Busy(active, ordered[i].host) + CountOn(chosen, ordered[i].host) < Limit(policy, ordered[i].host)
    requires forall p :: p in ordered[..i] && Eligible(p, states, active) && p !in chosen ==>
               Justified(p, chosen, states, active, policy)
    ensures var after := chosen + [ordered[i]];
      && Ordered(after, states, policy) && Within(after, active, policy)
      && (forall h :: CountOn(after, h) == CountOn(chosen, h) + if ordered[i].host == h then 1 else 0)
      && (forall p :: p in ordered[..i] && Eligible(p, states, active) && p !in chosen ==>
            Justified(p, after, states, active, policy))
  {
    hide KeyOf, Before, Eligible, Busy, Limit, CountOn;
    PassOver(ordered, i, chosen, states, policy);
    CountsNext(chosen, ordered[i]);
  }

  // ---------- the cycle ----------

  function Max(a: nat, b: nat): nat { if a < b then b else a }

  predicate HasDurableInput(s: OwnerState) { s.pending || s.pendingCompaction }

  /** What reserving has done after some owners. */
  ghost predicate Reserving(selected: seq<Packet>, reserved: Activity, occupied: Activity, policy: Policy) {
    && reserved.Keys == occupied.Keys
    && (forall p :: p in selected ==> Occupies(reserved, p) && !Occupies(occupied, p))
    && (forall h :: h in occupied ==>
          && occupied[h] <= reserved[h] && |reserved[h]| == |occupied[h]| + CountOn(selected, h)
          && |reserved[h]| <= Max(Limit(policy, h), |occupied[h]|))
    && (forall h, n :: h in occupied && n in reserved[h] ==> n in occupied[h] || Selected(selected, h, n))
  }

  ghost predicate Selected(selected: seq<Packet>, h: string, n: nat) { exists p :: p in selected && p.number == n && p.host == h }

  lemma SelectedNext(selected: seq<Packet>, p: Packet)
    ensures Selected(selected + [p], p.host, p.number)
    ensures forall h, n :: Selected(selected, h, n) ==> Selected(selected + [p], h, n)
  {
    assert p in selected + [p];
    forall h, n | Selected(selected, h, n) ensures Selected(selected + [p], h, n) {
      var q :| q in selected && q.number == n && q.host == h;
      assert q in selected + [p];
    }
  }

  lemma ReservingNext(selected: seq<Packet>, reserved: Activity, occupied: Activity, policy: Policy, p: Packet)
    requires Reserving(selected, reserved, occupied, policy) && p.host in occupied
    requires !Occupies(reserved, p) && |reserved[p.host]| < Limit(policy, p.host)
    ensures Reserving(selected + [p], reserved[p.host := reserved[p.host] + {p.number}], occupied, policy)
  {
    hide CountOn, Limit, Selected;
    CountsNext(selected, p);
    SelectedNext(selected, p);
  }

  /** Durable inputs use the same capacity, and come first: one is left out only on a full host. */
  method Reserve(m: Manifest, states: map<nat, OwnerState>, occupied: Activity, policy: Policy)
    returns (selected: seq<Packet>, reserved: Activity)
    requires NumbersDistinct(m.packets) && forall p :: p in m.packets ==> p.host in occupied
    ensures NumbersDistinct(selected) && Reserving(selected, reserved, occupied, policy)
    ensures forall p :: p in selected ==> p in m.packets && HasDurableInput(StateOf(states, p.number))
    ensures forall p :: p in m.packets && HasDurableInput(StateOf(states, p.number)) && !Occupies(reserved, p) ==>
              |reserved[p.host]| >= Limit(policy, p.host)
  {
    selected, reserved := [], occupied;
    assert Reserving(selected, reserved, occupied, policy) && Left(m.packets[..0], states, reserved, policy);
    hide Reserving, Limit, StateOf, HasDurableInput, Occupies, Left, NumbersDistinct;
    NoneDistinct();
    for i := 0 to |m.packets|
      invariant Reserving(selected, reserved, occupied, policy) && reserved.Keys == occupied.Keys
      invariant forall p :: p in selected ==> p in m.packets[..i] && HasDurableInput(StateOf(states, p.number))
      invariant NumbersDistinct(selected) && Left(m.packets[..i], states, reserved, policy)
    {
      var p := m.packets[i];
      assert p in m.packets && m.packets[..i + 1] == m.packets[..i] + [p];
      if HasDurableInput(StateOf(states, p.number)) && !Occupies(reserved, p) && |reserved[p.host]| < Limit(policy, p.host) {
        ReservingNext(selected, reserved, occupied, policy, p);
        LeftNext(m.packets[..i], states, reserved, policy, p);
        ReservedKeys(selected + [p], reserved[p.host := reserved[p.host] + {p.number}], occupied, policy);
        OneMoreDistinct(m, i, selected);
        selected := selected + [p];
        reserved := reserved[p.host := reserved[p.host] + {p.number}];
      } else {
        LeftOne(m.packets[..i], states, reserved, policy, p);
      }
    }
    assert m.packets[..|m.packets|] == m.packets;
    LeftAll(m.packets, states, reserved, policy);
  }

  lemma NoneDistinct()
    ensures NumbersDistinct([])
  {
  }

  lemma OneMoreDistinct(m: Manifest, i: nat, selected: seq<Packet>)
    requires NumbersDistinct(m.packets) && i < |m.packets| && NumbersDistinct(selected)
    requires forall p :: p in selected ==> p in m.packets[..i]
    ensures NumbersDistinct(selected + [m.packets[i]])
  {
    forall q | q in selected ensures q.number != m.packets[i].number {
      var j :| 0 <= j < i && m.packets[j] == q;
    }
    forall k | 0 <= k < |selected| ensures selected[k].number != m.packets[i].number {
      assert selected[k] in selected;
    }
  }

  /** A durable input among `ps` that got no place is on a full host. */
  ghost predicate Left(ps: seq<Packet>, states: map<nat, OwnerState>, reserved: Activity, policy: Policy) {
    forall p :: p in ps && HasDurableInput(StateOf(states, p.number)) && !Occupies(reserved, p) ==>
      p.host !in reserved || |reserved[p.host]| >= Limit(policy, p.host)
  }

  lemma LeftNext(ps: seq<Packet>, states: map<nat, OwnerState>, reserved: Activity, policy: Policy, p: Packet)
    requires Left(ps, states, reserved, policy) && p.host in reserved && !Occupies(reserved, p)
    ensures Left(ps + [p], states, reserved[p.host := reserved[p.host] + {p.number}], policy)
  {
    hide HasDurableInput, StateOf, Limit;
  }

  lemma LeftOne(ps: seq<Packet>, states: map<nat, OwnerState>, reserved: Activity, policy: Policy, p: Packet)
    requires Left(ps, states, reserved, policy)
    requires HasDurableInput(StateOf(states, p.number)) && !Occupies(reserved, p) ==>
               p.host !in reserved || |reserved[p.host]| >= Limit(policy, p.host)
    ensures Left(ps + [p], states, reserved, policy)
  {
    hide HasDurableInput, StateOf, Limit, Occupies;
  }

  lemma LeftAll(ps: seq<Packet>, states: map<nat, OwnerState>, reserved: Activity, policy: Policy)
    requires Left(ps, states, reserved, policy) && forall p :: p in ps ==> p.host in reserved
    ensures forall p :: p in ps && HasDurableInput(StateOf(states, p.number)) && !Occupies(reserved, p) ==>
              |reserved[p.host]| >= Limit(policy, p.host)
  {
  }

  lemma ReservedKeys(selected: seq<Packet>, reserved: Activity, occupied: Activity, policy: Policy)
    requires Reserving(selected, reserved, occupied, policy)
    ensures reserved.Keys == occupied.Keys
  {
  }

  /** `p` got no place in a cycle for a reason: its host is full, and whoever was admitted there on a new event ranks
      before it. */
  ghost predicate PassedOver(p: Packet, all: seq<Packet>, states: map<nat, OwnerState>, occupied: Activity, policy: Policy) {
    && Busy(occupied, p.host) + CountOn(all, p.host) >= Limit(policy, p.host)
    && forall q :: q in all && q.host == p.host && !HasDurableInput(StateOf(states, q.number)) ==>
         Before(KeyOf(q, states, policy), KeyOf(p, states, policy))
  }

  /** One cycle's admissions. Every host keeps to the larger of its limit and what already occupied it, each
      owner is admitted at most once, and none that was occupied. A durable input is left out only on a full host,
      and an owner with new events only on a full host for better ranked ones. */
  method Admissions(m: Manifest, states: map<nat, OwnerState>, occupied: Activity, policy: Policy)
    returns (r: Option<seq<Packet>>)
    requires Observable(m, occupied, policy)
    ensures r.Some?
    ensures var all := r.value;
      && NumbersDistinct(all) && (forall p :: p in all ==> p in m.packets && !Occupies(occupied, p))
      && (forall p :: p in all ==> HasDurableInput(StateOf(states, p.number)) || NeedsWake(StateOf(states, p.number)))
      && (forall h :: h in occupied ==> |occupied[h]| + CountOn(all, h) <= Max(Limit(policy, h), |occupied[h]|))
      && (forall p :: p in m.packets && Eligible(p, states, occupied) && p !in all ==> PassedOver(p, all, states, occupied, policy))
      && (forall p :: p in m.packets && !Occupies(occupied, p) && HasDurableInput(StateOf(states, p.number)) && p !in all ==>
            Busy(occupied, p.host) + CountOn(all, p.host) >= Limit(policy, p.host))
  {
    hide Observable, Ordered, StateOf, NeedsWake, HasDurableInput, Limit, CountOn, Justified, PassedOver, Before, KeyOf, Busy;
    HostsKnown(m, occupied, policy);
    var first, reserved := Reserve(m, states, occupied, policy);
    var second := Select(m, states, reserved, policy);
    ReservedIsObservable(m, first, reserved, occupied, policy);
    if second.None? { return None; }
    var all := first + second.value;
    forall h | h in occupied ensures |occupied[h]| + CountOn(all, h) <= Max(Limit(policy, h), |occupied[h]|) {
      CountBoth(first, second.value, h);
      BusyIs(reserved, h);
    }
    forall i, j | 0 <= i < j < |all| ensures all[i].number != all[j].number {
      if i < |first| <= j {
        assert all[i] in first && all[j] in second.value;
        ReservedIsNotChosen(m, all[i], all[j], states, reserved);
      }
    }
    forall p | p in m.packets && Eligible(p, states, occupied) && p !in all ensures PassedOver(p, all, states, occupied, policy) {
      NotReserved(m, first, reserved, occupied, policy, p);
      CountBoth(first, second.value, p.host);
      PassedOverHere(p, first, second.value, states, occupied, reserved, policy);
    }
    forall p | p in m.packets && !Occupies(occupied, p) && HasDurableInput(StateOf(states, p.number)) && p !in all
      ensures Busy(occupied, p.host) + CountOn(all, p.host) >= Limit(policy, p.host)
    {
      NotReserved(m, first, reserved, occupied, policy, p);
      CountBoth(first, second.value, p.host);
      BusyIs(occupied, p.host);
    }
    r := Some(all);
  }

  lemma BusyIs(active: Activity, h: string)
    ensures h in active ==> Busy(active, h) == |active[h]|
  {
  }

  /** Whoever holds a place after reserving held it before or was reserved one. */
  lemma NotReserved(m: Manifest, first: seq<Packet>, reserved: Activity, occupied: Activity, policy: Policy, p: Packet)
    requires Reserving(first, reserved, occupied, policy) && NumbersDistinct(m.packets) && p in m.packets
    requires !Occupies(occupied, p) && p !in first && forall q :: q in first ==> q in m.packets
    ensures !Occupies(reserved, p)
  {
    hide Limit, CountOn;
    forall q | q in first ensures q.number != p.number { PacketsDiffer(m, p, q); }
  }

  lemma PacketsDiffer(m: Manifest, p: Packet, q: Packet)
    requires NumbersDistinct(m.packets) && p in m.packets && q in m.packets && p != q
    ensures p.number != q.number
  {
    var i :| 0 <= i < |m.packets| && m.packets[i] == p;
    var j :| 0 <= j < |m.packets| && m.packets[j] == q;
  }

  lemma PassedOverHere(
    p: Packet, first: seq<Packet>, second: seq<Packet>, states: map<nat, OwnerState>, occupied: Activity, reserved: Activity, policy: Policy)
    requires Reserving(first, reserved, occupied, policy) && Justified(p, second, states, reserved, policy) && p.host in occupied
    requires CountOn(first + second, p.host) == CountOn(first, p.host) + CountOn(second, p.host)
    requires forall q :: q in first ==> HasDurableInput(StateOf(states, q.number))
    ensures PassedOver(p, first + second, states, occupied, policy)
  {
    hide Limit, CountOn, Before, KeyOf, HasDurableInput, StateOf, Selected, Occupies;
  }

  lemma ReservedIsObservable(m: Manifest, selected: seq<Packet>, reserved: Activity, occupied: Activity, policy: Policy)
    requires Observable(m, occupied, policy) && Reserving(selected, reserved, occupied, policy)
    requires forall p :: p in selected ==> p in m.packets
    ensures Observable(m, reserved, policy)
  {
    hide Valid, Limit, CountOn;
    forall h, n | h in reserved && n in reserved[h] ensures exists p | p in m.packets :: p.number == n && p.host == h {
      if n in occupied[h] {
        var p :| p in m.packets && p.number == n && p.host == h;
      } else {
        assert Selected(selected, h, n);
      }
    }
  }

  lemma ReservedIsNotChosen(m: Manifest, p: Packet, q: Packet, states: map<nat, OwnerState>, reserved: Activity)
    requires NumbersDistinct(m.packets) && p in m.packets && q in m.packets
    requires Occupies(reserved, p) && Eligible(q, states, reserved)
    ensures p.number != q.number
  {
    hide NeedsWake, StateOf;
    var i :| 0 <= i < |m.packets| && m.packets[i] == p;
    var j :| 0 <= j < |m.packets| && m.packets[j] == q;
  }

  lemma {:induction false} CountBoth(a: seq<Packet>, b: seq<Packet>, h: string)
    ensures CountOn(a + b, h) == CountOn(a, h) + CountOn(b, h)
  {
    if b == [] {
      assert a + b == a && CountOn([], h) == 0;
    } else {
      hide CountOn;
      var rest, last := b[..|b| - 1], b[|b| - 1];
      CountBoth(a, rest, h);
      assert a + b == (a + rest) + [last] && b == rest + [last];
      CountAppend(a + rest, last, h);
      CountAppend(rest, last, h);
    }
  }
}
