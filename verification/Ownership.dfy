/** Campaign manifests: which owner holds which assignments. A refresh may add linked work to an owner and
    nothing else; along any chain of accepted refreshes every owner keeps its baseline. */
module Ownership {
  import opened Effects

  datatype Packet = Packet(
    number: nat, session: string, host: string, title: string, prs: seq<string>, repairs: seq<string>, releases: seq<string>,
    dependencies: seq<nat>, extra: map<string, string>)

  datatype Manifest = Manifest(
    packets: seq<Packet>, assignmentCount: nat, baselineCount: Option<nat>, linkedCount: Option<nat>, releaseCount: Option<nat>,
    extra: map<string, string>)

  datatype Coverage = Coverage(
    baselineCount: nat, repairCount: nat, releaseCount: nat,
    baselineStates: map<string, nat>, repairStates: map<string, nat>, releaseStates: map<string, nat>)

  // ---------- validity ----------

  const SESSION: string := "ses_"

  predicate Blank(s: string) { forall c | c in s :: c in " \t\n\r" }

  predicate SessionOk(s: string) {
    && |s| >= |SESSION| && s[..|SESSION|] == SESSION
    && forall c | c in s :: 'a' <= c <= 'z' || 'A' <= c <= 'Z' || '0' <= c <= '9' || c in "_-"
  }

  function Items(s: seq<string>): set<string> { set u | u in s }

  predicate Distinct<T(==)>(s: seq<T>) { forall i, j | 0 <= i < j < |s| :: s[i] != s[j] }

  predicate HeaderOk(p: Packet) {
    p.number > 0 && SessionOk(p.session) && !Blank(p.title) && !Blank(p.host) && p.prs != []
  }

  /** One owner by itself: distinct assignments, some of them linked as a repair or as a release. */
  predicate PacketOk(p: Packet) {
    && HeaderOk(p) && "" !in p.prs && Distinct(p.prs)
    && Distinct(p.repairs) && Items(p.repairs) <= Items(p.prs)
    && Distinct(p.releases) && Items(p.releases) <= Items(p.prs) && Items(p.releases) !! Items(p.repairs)
  }

  predicate Apart(p: Packet, q: Packet) { p.number != q.number && p.session != q.session && Items(p.prs) !! Items(q.prs) }

  function Urls(packets: seq<Packet>): set<string> { set p, u | p in packets && u in p.prs :: u }

  function Repairs(packets: seq<Packet>): set<string> { set p, u | p in packets && u in p.repairs :: u }

  function Releases(packets: seq<Packet>): set<string> { set p, u | p in packets && u in p.releases :: u }

  function Numbers(packets: seq<Packet>): set<nat> { set p | p in packets :: p.number }

  function Sessions(packets: seq<Packet>): set<string> { set p | p in packets :: p.session }

  predicate OwnersOk(packets: seq<Packet>) {
    && (forall i | 0 <= i < |packets| :: PacketOk(packets[i]))
    && (forall i, j | 0 <= i < j < |packets| :: Apart(packets[i], packets[j]))
  }

  predicate CountsOk(m: Manifest) {
    && |Urls(m.packets)| == m.assignmentCount
    && (m.linkedCount.Some? ==> m.linkedCount.value == |Repairs(m.packets)|)
    && (m.releaseCount.Some? ==> m.releaseCount.value == |Releases(m.packets)|)
    && (m.baselineCount.Some? ==>
          m.baselineCount.value + |Repairs(m.packets)| + |Releases(m.packets)| == |Urls(m.packets)|)
  }

  predicate ProducersOk(m: Manifest) {
    forall p, d | p in m.packets && d in p.dependencies :: d != p.number && d in Numbers(m.packets)
  }

  predicate Valid(m: Manifest) { m.packets != [] && OwnersOk(m.packets) && CountsOk(m) && ProducersOk(m) }

  // ---------- refreshes ----------

  predicate Extends(now: map<string, string>, was: map<string, string>) { forall k | k in was :: k in now && now[k] == was[k] }

  /** The owner is the same, keeps every assignment as it was linked, and gains only linked ones. */
  predicate Keeps(now: Packet, was: Packet) {
    && now.number == was.number && now.session == was.session && now.host == was.host && now.title == was.title
    && Extends(now.extra, was.extra)
    && (forall d | d in was.dependencies :: d in now.dependencies)
    && (forall u | u in was.prs ::
          u in now.prs && (u in was.repairs <==> u in now.repairs) && (u in was.releases <==> u in now.releases))
    && (forall u | u in now.prs :: u in was.prs || u in now.repairs || u in now.releases)
  }

  predicate Follows(now: Manifest, was: Manifest) {
    && |now.packets| == |was.packets| && now.baselineCount == was.baselineCount && Extends(now.extra, was.extra)
    && forall p | p in was.packets :: exists q | q in now.packets :: Keeps(q, p)
  }

  function Baseline(p: Packet): set<string> { set u | u in p.prs && u !in p.repairs && u !in p.releases }

  /** An owner keeps its baseline through one accepted refresh. */
  lemma BaselineKept(now: Packet, was: Packet)
    requires Keeps(now, was)
    ensures Baseline(now) == Baseline(was) && Items(was.prs) <= Items(now.prs)
    ensures forall u :: u in now.prs && u !in was.prs ==> u in now.repairs || u in now.releases
  {
  }

  lemma KeepsThrough(c: Packet, b: Packet, a: Packet)
    requires Keeps(c, b) && Keeps(b, a)
    ensures Keeps(c, a)
  {
  }

  lemma FollowsReflexive(m: Manifest)
    ensures Follows(m, m)
  {
    forall p | p in m.packets ensures exists q | q in m.packets :: Keeps(q, p) {
      assert Keeps(p, p);
    }
  }

  lemma FollowsTransitive(c: Manifest, b: Manifest, a: Manifest)
    requires Follows(c, b) && Follows(b, a)
    ensures Follows(c, a)
  {
    forall p | p in a.packets ensures exists r | r in c.packets :: Keeps(r, p) {
      var q :| q in b.packets && Keeps(q, p);
      var r :| r in c.packets && Keeps(r, q);
      KeepsThrough(r, q, p);
    }
  }

  lemma NumbersCount(packets: seq<Packet>)
    requires OwnersOk(packets)
    ensures |Numbers(packets)| == |packets|
  {
    if packets == [] {
      assert Numbers(packets) == {};
    } else {
      var last, rest := packets[|packets| - 1], packets[..|packets| - 1];
      NumbersCount(rest);
      assert packets == rest + [last];
      forall p | p in rest ensures p.number != last.number {
        var i :| 0 <= i < |rest| && rest[i] == p;
        assert Apart(packets[i], packets[|packets| - 1]);
      }
      assert Numbers(packets) == Numbers(rest) + {last.number};
    }
  }

  lemma SubsetOfSameSize<T>(a: set<T>, b: set<T>)
    requires a <= b && |a| == |b|
    ensures a == b
  {
    if x :| x in b && x !in a {
      SmallerSubset(a, b - {x});
    }
  }

  lemma {:induction false} SmallerSubset<T>(a: set<T>, b: set<T>)
    requires a <= b
    ensures |a| <= |b|
  {
    if x :| x in a {
      SmallerSubset(a - {x}, b - {x});
    }
  }

  /** No owner appears or disappears. */
  lemma SameOwners(now: Manifest, was: Manifest)
    requires Valid(now) && Valid(was) && Follows(now, was)
    ensures Numbers(now.packets) == Numbers(was.packets)
  {
    NumbersCount(now.packets);
    NumbersCount(was.packets);
    forall n | n in Numbers(was.packets) ensures n in Numbers(now.packets) {
      var p :| p in was.packets && p.number == n;
      var q :| q in now.packets && Keeps(q, p);
    }
    SubsetOfSameSize(Numbers(was.packets), Numbers(now.packets));
  }

  lemma NumberIsOwner(packets: seq<Packet>, p: Packet, q: Packet)
    requires OwnersOk(packets) && p in packets && q in packets && p.number == q.number
    ensures p == q
  {
    var i :| 0 <= i < |packets| && packets[i] == p;
    var j :| 0 <= j < |packets| && packets[j] == q;
    if i < j { NumbersDiffer(packets, i, j); }
    if j < i { NumbersDiffer(packets, j, i); }
  }

  lemma NumbersDiffer(packets: seq<Packet>, i: nat, j: nat)
    requires OwnersOk(packets) && i < j < |packets|
    ensures packets[i].number != packets[j].number
  {
    assert Apart(packets[i], packets[j]);
  }

  predicate Chain(ms: seq<Manifest>) {
    && (forall i | 0 <= i < |ms| :: Valid(ms[i]))
    && (forall i | 0 < i < |ms| :: Follows(ms[i], ms[i - 1]))
  }

  lemma {:induction false} ChainFollows(ms: seq<Manifest>)
    requires ms != [] && Chain(ms)
    ensures Follows(ms[|ms| - 1], ms[0])
  {
    if |ms| == 1 {
      FollowsReflexive(ms[0]);
    } else {
      ChainFollows(ms[..|ms| - 1]);
      FollowsTransitive(ms[|ms| - 1], ms[|ms| - 2], ms[0]);
    }
  }

  /** Along any chain of accepted refreshes the owners are the same, and each keeps its session, host,
      title, baseline and assignments, gaining only linked work. */
  lemma OwnershipConserved(ms: seq<Manifest>, p: Packet, q: Packet)
    requires ms != [] && Chain(ms) && p in ms[0].packets && q in ms[|ms| - 1].packets && p.number == q.number
    ensures Numbers(ms[|ms| - 1].packets) == Numbers(ms[0].packets)
    ensures p.session == q.session && p.host == q.host && p.title == q.title
    ensures Baseline(q) == Baseline(p) && Items(p.prs) <= Items(q.prs)
    ensures forall u :: u in q.prs && u !in p.prs ==> u in q.repairs || u in q.releases
  {
    var first, last := ms[0], ms[|ms| - 1];
    ChainFollows(ms);
    SameOwners(last, first);
    var r :| r in last.packets && Keeps(r, p);
    NumberIsOwner(last.packets, q, r);
    BaselineKept(q, p);
  }

  lemma Successor(now: Manifest, was: Manifest, p: Packet) returns (q: Packet)
    requires Follows(now, was) && p in was.packets
    ensures q in now.packets && Keeps(q, p) && q.number == p.number
  {
    q :| q in now.packets && Keeps(q, p);
  }

  lemma MutualKeepsIsSame(p: Packet, q: Packet)
    requires Keeps(p, q) && Keeps(q, p) && PacketOk(p) && PacketOk(q)
    ensures Items(p.prs) == Items(q.prs) && Items(p.repairs) == Items(q.repairs) && Items(p.releases) == Items(q.releases)
  {
    hide HeaderOk, Distinct, Extends;
    LinkedAreAssigned(p);
    LinkedAreAssigned(q);
  }

  lemma LinkedAreAssigned(p: Packet)
    requires PacketOk(p)
    ensures forall u :: u in p.repairs || u in p.releases ==> u in p.prs
    ensures forall u :: !(u in p.repairs && u in p.releases)
  {
    hide HeaderOk, Distinct;
    forall u | u in p.repairs || u in p.releases ensures u in p.prs {
      assert u in Items(p.repairs) + Items(p.releases);
    }
    forall u ensures !(u in p.repairs && u in p.releases) {
      assert u in Items(p.repairs) * Items(p.releases) <==> u in p.repairs && u in p.releases;
    }
  }

  /** Manifests that follow each other hold the same assignments, linked the same way. */
  lemma MutualRefreshIsSame(a: Manifest, b: Manifest, p: Packet, q: Packet)
    requires Valid(a) && Valid(b) && Follows(a, b) && Follows(b, a)
    requires p in a.packets && q in b.packets && p.number == q.number
    ensures Items(p.prs) == Items(q.prs) && Items(p.repairs) == Items(q.repairs) && Items(p.releases) == Items(q.releases)
  {
    hide Follows, Keeps, PacketOk, Apart, CountsOk, ProducersOk, Items;
    var r := Successor(a, b, q);
    NumberIsOwner(a.packets, p, r);
    var s := Successor(b, a, p);
    NumberIsOwner(b.packets, q, s);
    MutualKeepsIsSame(p, q);
  }

  // ---------- the check ----------

  /** Insert every item into a growing set; a duplicate stops it. */
  method InsertAll(items: seq<string>, seen: set<string>) returns (ok: bool, all: set<string>)
    ensures ok <==> Distinct(items) && Items(items) !! seen
    ensures ok ==> all == seen + Items(items)
  {
    all := seen;
    for i := 0 to |items|
      invariant all == seen + Items(items[..i]) && Items(items[..i]) !! seen && Distinct(items[..i])
    {
      assert items[i] in Items(items);
      assert Items(items[..i + 1]) == Items(items[..i]) + {items[i]} by { assert items[..i + 1] == items[..i] + [items[i]]; }
      if items[i] in all {
        if items[i] in Items(items[..i]) { var j :| 0 <= j < i && items[j] == items[i]; }
        return false, all;
      }
      all := all + {items[i]};
    }
    assert items[..|items|] == items;
    ok := true;
  }

  /** The sets filled while the owners are checked one by one. */
  datatype Seen = Seen(numbers: set<nat>, sessions: set<string>, urls: set<string>, repairs: set<string>, releases: set<string>)

  function SeenIn(packets: seq<Packet>): Seen {
    Seen(Numbers(packets), Sessions(packets), Urls(packets), Repairs(packets), Releases(packets))
  }

  /** One more owner, against what was seen. */
  predicate Fits(p: Packet, s: Seen) {
    PacketOk(p) && p.number !in s.numbers && p.session !in s.sessions && Items(p.prs) !! s.urls
  }

  function With(s: Seen, p: Packet): Seen {
    Seen(s.numbers + {p.number}, s.sessions + {p.session}, s.urls + Items(p.prs), s.repairs + Items(p.repairs),
         s.releases + Items(p.releases))
  }

  lemma SeenNext(packets: seq<Packet>, p: Packet)
    ensures SeenIn(packets + [p]) == With(SeenIn(packets), p)
  {
    var all := packets + [p];
    assert forall q :: q in all <==> q in packets || q == p;
    assert Numbers(all) == Numbers(packets) + {p.number};
    assert Sessions(all) == Sessions(packets) + {p.session};
    assert Urls(all) == Urls(packets) + Items(p.prs);
    assert Repairs(all) == Repairs(packets) + Items(p.repairs);
    assert Releases(all) == Releases(packets) + Items(p.releases);
  }

  lemma FitsIsApart(packets: seq<Packet>, p: Packet)
    ensures OwnersOk(packets + [p]) <==> OwnersOk(packets) && Fits(p, SeenIn(packets))
  {
    hide PacketOk, Items;
    var all, n := packets + [p], |packets|;
    if OwnersOk(all) {
      assert all[n] == p && forall i :: 0 <= i < n ==> all[i] == packets[i];
      forall q | q in packets ensures Apart(q, p) {
        var i :| 0 <= i < n && packets[i] == q;
        assert Apart(all[i], all[n]);
      }
      ApartFits(packets, p);
      forall i, j | 0 <= i < j < n ensures Apart(packets[i], packets[j]) { assert Apart(all[i], all[j]); }
      forall i | 0 <= i < n ensures PacketOk(packets[i]) { assert PacketOk(all[i]); }
    }
    if OwnersOk(packets) && Fits(p, SeenIn(packets)) {
      forall i, j | 0 <= i < j < n + 1 ensures Apart(all[i], all[j]) {
        if j == n { FitsApart(packets, packets[i], p); }
      }
    }
  }

  lemma ApartFits(packets: seq<Packet>, p: Packet)
    requires PacketOk(p) && forall q :: q in packets ==> Apart(q, p)
    ensures Fits(p, SeenIn(packets))
  {
    hide PacketOk;
    forall q, u | q in packets && u in q.prs ensures u !in Items(p.prs) {
      assert Apart(q, p) && u in Items(q.prs);
    }
  }

  lemma FitsApart(packets: seq<Packet>, q: Packet, p: Packet)
    requires q in packets && Fits(p, SeenIn(packets))
    ensures Apart(q, p)
  {
    hide PacketOk;
    forall u | u in Items(q.prs) ensures u in Urls(packets) {
    }
  }

  /** Repairs seen so far are assignments seen so far. */
  lemma LinkedAreSeen(packets: seq<Packet>)
    requires OwnersOk(packets)
    ensures Repairs(packets) <= Urls(packets) && Releases(packets) <= Urls(packets) && Repairs(packets) !! Releases(packets)
  {
    hide PacketOk;
    forall p | p in packets ensures forall u :: u in p.repairs || u in p.releases ==> u in p.prs { LinkedAreAssigned(p); }
    forall p, q, u | p in packets && q in packets && u in p.repairs ensures u !in q.releases {
      LinkedAreAssigned(p);
      if u in q.prs { SharedIsSame(packets, p, q, u); }
    }
  }

  lemma SharedIsSame(packets: seq<Packet>, p: Packet, q: Packet, u: string)
    requires OwnersOk(packets) && p in packets && q in packets && u in p.prs && u in q.prs
    ensures p == q
  {
    hide PacketOk;
    var i :| 0 <= i < |packets| && packets[i] == p;
    var j :| 0 <= j < |packets| && packets[j] == q;
    if i < j { NothingShared(packets, i, j); }
    if j < i { NothingShared(packets, j, i); }
  }

  lemma NothingShared(packets: seq<Packet>, i: nat, j: nat)
    requires OwnersOk(packets) && i < j < |packets|
    ensures forall u :: u in packets[i].prs ==> u !in packets[j].prs
  {
    hide PacketOk;
    assert Apart(packets[i], packets[j]);
    forall u | u in packets[i].prs ensures u !in packets[j].prs {
      assert u in Items(packets[i].prs);
    }
  }

  /** The checks on one owner, in the source's order; every set grows only when all pass. */
  method CheckPacket(p: Packet, s: Seen) returns (ok: bool, all: Seen)
    requires s.repairs <= s.urls && s.releases <= s.urls
    ensures ok <==> Fits(p, s)
    ensures ok ==> all == With(s, p)
  {
    all := s;
    if p.number == 0 || p.number in s.numbers || !SessionOk(p.session) || p.session in s.sessions
       || Blank(p.title) || Blank(p.host) || p.prs == []
    {
      return false, s;
    }
    var urls, repairs, releases;
    ok, urls := InsertAll(p.prs, s.urls);
    if !ok || "" in p.prs { return false, s; }
    if !(Items(p.repairs) <= Items(p.prs)) { return false, s; }
    SeenElsewhere(p.prs, p.repairs, s.repairs, s.urls);
    ok, repairs := InsertAll(p.repairs, s.repairs);
    if !ok { return false, s; }
    if !(Items(p.releases) <= Items(p.prs)) { return false, s; }
    SeenElsewhere(p.prs, p.releases, s.releases, s.urls);
    SeenElsewhere(p.prs, p.releases, s.repairs, s.urls);
    if !(Items(p.releases) !! repairs) { return false, s; }
    ok, releases := InsertAll(p.releases, s.releases);
    all := Seen(s.numbers + {p.number}, s.sessions + {p.session}, urls, repairs, releases);
  }

  lemma SeenElsewhere(prs: seq<string>, linked: seq<string>, seen: set<string>, urls: set<string>)
    requires Items(linked) <= Items(prs) && Items(prs) !! urls && seen <= urls
    ensures Items(linked) !! seen
  {
    hide Items;
  }

  lemma OwnersPrefix(packets: seq<Packet>, n: nat)
    requires n <= |packets| && OwnersOk(packets)
    ensures OwnersOk(packets[..n])
  {
    hide PacketOk, Apart;
  }

  lemma LinkedCounts(packets: seq<Packet>)
    requires OwnersOk(packets)
    ensures |Repairs(packets)| + |Releases(packets)| <= |Urls(packets)|
  {
    LinkedAreSeen(packets);
    SmallerSubset(Repairs(packets) + Releases(packets), Urls(packets));
  }

  function FindOwner(packets: seq<Packet>, number: nat): (r: Option<Packet>)
    ensures r.Some? ==> r.value in packets && r.value.number == number
    ensures r.None? ==> forall p :: p in packets ==> p.number != number
  {
    if packets == [] then None else if packets[0].number == number then Some(packets[0]) else FindOwner(packets[1..], number)
  }

  method CheckFollows(m: Manifest, previous: Manifest) returns (ok: bool)
    requires Valid(m)
    ensures ok <==> Follows(m, previous)
  {
    hide CountsOk, ProducersOk, PacketOk, Apart, Extends;
    if |m.packets| != |previous.packets| || m.baselineCount != previous.baselineCount || !Extends(m.extra, previous.extra) {
      return false;
    }
    for i := 0 to |previous.packets|
      invariant forall j :: 0 <= j < i ==> exists q | q in m.packets :: Keeps(q, previous.packets[j])
    {
      var was := previous.packets[i];
      assert was in previous.packets;
      var now := FindOwner(m.packets, was.number);
      OnlyOwnerKeeps(m.packets, was);
      if now.None? || !Keeps(now.value, was) { return false; }
    }
    ok := true;
  }

  /** Only the owner of that number can keep it. */
  lemma OnlyOwnerKeeps(packets: seq<Packet>, was: Packet)
    requires OwnersOk(packets)
    ensures var now := FindOwner(packets, was.number);
            (exists q | q in packets :: Keeps(q, was)) <==> now.Some? && Keeps(now.value, was)
  {
    hide PacketOk, Apart, Extends;
    if q :| q in packets && Keeps(q, was) {
      NumberIsOwner(packets, q, FindOwner(packets, was.number).value);
    }
  }

  method CheckOwners(packets: seq<Packet>) returns (ok: bool, seen: Seen)
    ensures ok <==> OwnersOk(packets)
    ensures ok ==> seen == SeenIn(packets)
  {
    hide PacketOk, Apart, Fits, With, OwnersOk;
    seen := Seen({}, {}, {}, {}, {});
    NoOwners();
    for i := 0 to |packets|
      invariant OwnersOk(packets[..i]) && seen == SeenIn(packets[..i])
    {
      LinkedAreSeen(packets[..i]);
      SeenNext(packets[..i], packets[i]);
      FitsIsApart(packets[..i], packets[i]);
      assert packets[..i + 1] == packets[..i] + [packets[i]];
      ok, seen := CheckPacket(packets[i], seen);
      if !ok {
        if OwnersOk(packets) { OwnersPrefix(packets, i + 1); }
        return;
      }
    }
    assert packets[..|packets|] == packets;
    ok := true;
  }

  lemma NoOwners()
    ensures OwnersOk([]) && SeenIn([]) == Seen({}, {}, {}, {}, {})
  {
  }

  /** Reject ambiguity, dropped assignments and owner replacement: the check accepts exactly the valid
      manifests that follow the previous one. */
  method Validate(m: Manifest, previous: Option<Manifest>) returns (ok: bool)
    ensures ok <==> Valid(m) && (previous.Some? ==> Valid(previous.value) && Follows(m, previous.value))
    decreases if previous.Some? then 1 else 0
  {
    hide OwnersOk, ProducersOk, Follows, Urls, Repairs, Releases, Numbers, Sessions;
    var seen;
    ok, seen := CheckOwners(m.packets);
    if !ok { return; }
    LinkedCounts(m.packets);
    if m.packets == [] || |seen.urls| != m.assignmentCount
       || (m.linkedCount.Some? && m.linkedCount.value != |seen.repairs|)
       || (m.baselineCount.Some? && m.baselineCount.value != |seen.urls| - |seen.repairs| - |seen.releases|)
       || (m.releaseCount.Some? && m.releaseCount.value != |seen.releases|)
    {
      return false;
    }
    if !ProducersOk(m) { return false; }
    if previous.Some? {
      ok := Validate(previous.value, None);
      if ok { ok := CheckFollows(m, previous.value); }
    }
  }

  // ---------- coverage ----------

  const UNOBSERVED: string := "UNKNOWN"

  function StateOf(states: map<string, string>, u: string): string { if u in states then states[u] else UNOBSERVED }

  /** A count and its split by observed state. */
  datatype Tally = Tally(count: nat, states: map<string, nat>)

  function Count(states: map<string, nat>, s: string): nat { if s in states then states[s] else 0 }

  function Add(t: Tally, s: string): Tally { Tally(t.count + 1, t.states[s := Count(t.states, s) + 1]) }

  ghost function Sum(m: map<string, nat>): nat {
    if m.Keys == {} then 0 else var k :| k in m.Keys; m[k] + Sum(m - {k})
  }

  lemma {:induction false} SumAt(m: map<string, nat>, k: string)
    requires k in m
    ensures Sum(m) == m[k] + Sum(m - {k})
  {
    var c :| c in m.Keys && Sum(m) == m[c] + Sum(m - {c});
    if c != k {
      SumAt(m - {c}, k);
      SumAt(m - {k}, c);
      assert m - {c} - {k} == m - {k} - {c};
    }
  }

  ghost function InState(urls: set<string>, states: map<string, string>, s: string): set<string> {
    set u | u in urls && StateOf(states, u) == s
  }

  /** The tally counts exactly `urls`, each once and under its state. */
  ghost predicate Tallies(t: Tally, urls: set<string>, states: map<string, string>) {
    && t.count == |urls| && Sum(t.states) == t.count
    && forall s :: Count(t.states, s) == |InState(urls, states, s)|
  }

  lemma AddSums(m: map<string, nat>, s: string)
    ensures Sum(m[s := Count(m, s) + 1]) == Sum(m) + 1
  {
    var after := m[s := Count(m, s) + 1];
    SumAt(after, s);
    assert after - {s} == m - {s};
    if s in m { SumAt(m, s); } else { assert m - {s} == m; }
  }

  lemma InStateNext(urls: set<string>, states: map<string, string>, u: string, x: string)
    requires u !in urls
    ensures |InState(urls + {u}, states, x)| == |InState(urls, states, x)| + if x == StateOf(states, u) then 1 else 0
  {
    hide StateOf;
    if x == StateOf(states, u) {
      assert InState(urls + {u}, states, x) == InState(urls, states, x) + {u};
    } else {
      assert InState(urls + {u}, states, x) == InState(urls, states, x);
    }
  }

  lemma AddTallies(t: Tally, urls: set<string>, states: map<string, string>, u: string)
    requires Tallies(t, urls, states) && u !in urls
    ensures Tallies(Add(t, StateOf(states, u)), urls + {u}, states)
  {
    hide StateOf, InState, Sum;
    AddSums(t.states, StateOf(states, u));
    forall x ensures Count(Add(t, StateOf(states, u)).states, x) == |InState(urls + {u}, states, x)| {
      InStateNext(urls, states, u, x);
      assert Count(t.states, x) == |InState(urls, states, x)|;
    }
  }

  lemma NothingTallied(states: map<string, string>)
    ensures Tallies(Tally(0, map[]), {}, states)
  {
    assert forall s :: InState({}, states, s) == {};
  }

  function Baselines(packets: seq<Packet>): set<string> { Urls(packets) - Repairs(packets) - Releases(packets) }

  /** Count observed states without reclassifying baseline work. The three counts split the assignments, the
      state counts split each of them, and recorded counts are confirmed. */
  method Cover(m: Manifest, states: map<string, string>) returns (c: Option<Coverage>)
    ensures c.Some? <==> Valid(m)
    ensures c.Some? ==>
      && Tallies(Tally(c.value.baselineCount, c.value.baselineStates), Baselines(m.packets), states)
      && Tallies(Tally(c.value.repairCount, c.value.repairStates), Repairs(m.packets), states)
      && Tallies(Tally(c.value.releaseCount, c.value.releaseStates), Releases(m.packets), states)
      && c.value.baselineCount + c.value.repairCount + c.value.releaseCount == m.assignmentCount
      && (m.baselineCount.Some? ==> c.value.baselineCount == m.baselineCount.value)
  {
    hide OwnersOk, ProducersOk, Tallies;
    var ok := Validate(m, None);
    if !ok { return None; }
    var baseline, repair, release := Tally(0, map[]), Tally(0, map[]), Tally(0, map[]);
    NothingTallied(states);
    NoOwners();
    Split([]);
    for i := 0 to |m.packets|
      invariant Tallies(baseline, Baselines(m.packets[..i]), states)
      invariant Tallies(repair, Repairs(m.packets[..i]), states)
      invariant Tallies(release, Releases(m.packets[..i]), states)
    {
      assert m.packets[..i + 1] == m.packets[..i] + [m.packets[i]];
      OwnersPrefix(m.packets, i + 1);
      baseline, repair, release := CoverPacket(m.packets[..i], m.packets[i], baseline, repair, release, states);
    }
    assert m.packets[..|m.packets|] == m.packets;
    Split(m.packets);
    TallyCounts(baseline, Baselines(m.packets), states);
    TallyCounts(repair, Repairs(m.packets), states);
    TallyCounts(release, Releases(m.packets), states);
    c := Some(Coverage(baseline.count, repair.count, release.count, baseline.states, repair.states, release.states));
  }

  lemma TallyCounts(t: Tally, urls: set<string>, states: map<string, string>)
    requires Tallies(t, urls, states)
    ensures t.count == |urls| && t == Tally(t.count, t.states)
  {
  }

  /** Baseline, repairs and releases split the assignments. */
  lemma Split(packets: seq<Packet>)
    requires OwnersOk(packets)
    ensures |Baselines(packets)| + |Repairs(packets)| + |Releases(packets)| == |Urls(packets)|
    ensures packets == [] ==> Baselines(packets) == Repairs(packets) == Releases(packets) == {}
  {
    hide OwnersOk;
    LinkedAreSeen(packets);
    assert Urls(packets) == Baselines(packets) + Repairs(packets) + Releases(packets);
  }

  /** The packet's assignments up to `j` of one class. */
  ghost function Part(p: Packet, j: nat, kind: set<string>): set<string>
    requires j <= |p.prs|
  {
    Items(p.prs[..j]) * kind
  }

  method CoverPacket(
    ghost before: seq<Packet>, p: Packet, baseline0: Tally, repair0: Tally, release0: Tally, states: map<string, string>)
    returns (baseline: Tally, repair: Tally, release: Tally)
    requires OwnersOk(before + [p])
    requires Tallies(baseline0, Baselines(before), states) && Tallies(repair0, Repairs(before), states)
    requires Tallies(release0, Releases(before), states)
    ensures Tallies(baseline, Baselines(before + [p]), states) && Tallies(repair, Repairs(before + [p]), states)
    ensures Tallies(release, Releases(before + [p]), states)
  {
    hide OwnersOk, Tallies, Part, Baseline, Baselines, Urls, Repairs, Releases, Items, Add, StateOf;
    baseline, repair, release := baseline0, repair0, release0;
    Parts(before, p);
    ghost var b, r, l := Baselines(before), Repairs(before), Releases(before);
    for j := 0 to |p.prs|
      invariant Tallies(baseline, b, states) && b == Baselines(before) + Part(p, j, Baseline(p))
      invariant Tallies(repair, r, states) && r == Repairs(before) + Part(p, j, Items(p.repairs))
      invariant Tallies(release, l, states) && l == Releases(before) + Part(p, j, Items(p.releases))
    {
      var u := p.prs[j];
      var status := StateOf(states, u);
      NextPart(before, p, j);
      if u in p.repairs {
        AddTallies(repair, r, states, u);
        repair, r := Add(repair, status), r + {u};
      } else if u in p.releases {
        AddTallies(release, l, states, u);
        release, l := Add(release, status), l + {u};
      } else {
        AddTallies(baseline, b, states, u);
        baseline, b := Add(baseline, status), b + {u};
      }
    }
  }

  lemma Parts(before: seq<Packet>, p: Packet)
    requires OwnersOk(before + [p])
    ensures Part(p, 0, Baseline(p)) == Part(p, 0, Items(p.repairs)) == Part(p, 0, Items(p.releases)) == {}
    ensures Baselines(before + [p]) == Baselines(before) + Part(p, |p.prs|, Baseline(p))
    ensures Repairs(before + [p]) == Repairs(before) + Part(p, |p.prs|, Items(p.repairs))
    ensures Releases(before + [p]) == Releases(before) + Part(p, |p.prs|, Items(p.releases))
  {
    FitsIsApart(before, p);
    SeenNext(before, p);
    LinkedAreSeen(before);
    LinkedAreAssigned(p);
    assert p.prs[..|p.prs|] == p.prs;
    hide OwnersOk, PacketOk, Urls, Repairs, Releases;
  }

  lemma NextPart(before: seq<Packet>, p: Packet, j: nat)
    requires OwnersOk(before + [p]) && j < |p.prs|
    ensures var u := p.prs[j];
            && u !in Baselines(before) + Part(p, j, Baseline(p))
            && u !in Repairs(before) + Part(p, j, Items(p.repairs))
            && u !in Releases(before) + Part(p, j, Items(p.releases))
            && !(u in p.repairs && u in p.releases)
            && Part(p, j + 1, Baseline(p)) == Part(p, j, Baseline(p)) + (if u in p.repairs || u in p.releases then {} else {u})
            && Part(p, j + 1, Items(p.repairs)) == Part(p, j, Items(p.repairs)) + (if u in p.repairs then {u} else {})
            && Part(p, j + 1, Items(p.releases)) == Part(p, j, Items(p.releases)) + (if u in p.releases then {u} else {})
  {
    FitsIsApart(before, p);
    LinkedAreSeen(before);
    LinkedAreAssigned(p);
    var u := p.prs[j];
    assert p.prs[..j + 1] == p.prs[..j] + [u];
    assert u !in p.prs[..j];
    assert u in Items(p.prs);
    hide OwnersOk, PacketOk, Urls, Repairs, Releases;
  }
}
