/** The double-buffered route switch: rebuild the inactive one of two kernel tables, install rules for
    it, remove the old rules, one command at a time. Any command may fail or be the last before a crash;
    every statement below about the kernel holds on every exit. */
module Routes {

  import opened Effects

  const TABLE_A: nat := 51821
  const TABLE_B: nat := 51822
  const MARK: nat := 0xca010000
  const LOCAL_PRIORITY: nat := 49
  const DIRECT_PRIORITY: nat := 50

  /** Address family of one switch. */
  datatype Family = Inet | Inet6

  datatype Prefix = Prefix(address: string, family: Family, length: nat)

  function FullLength(f: Family): nat { if f.Inet? then 32 else 128 }

  predicate PrefixOk(p: Prefix) { 0 < p.length <= FullLength(p.family) }

  /** A route of the main table; `details` are its gateway, scope, metric and hops. */
  datatype Route = Route(destination: Prefix, details: string, local: bool)

  datatype Entry = Owned(route: Route) | Fallback | Unowned(text: string)

  /** A kernel rule; `others` are selectors this daemon never installs. */
  datatype Rule = Rule(priority: nat, fromAll: bool, to: Option<Prefix>, mark: Option<nat>, table: nat, others: set<string>)

  // ---------- what the rule listing shows ----------

  datatype Shown = Shown(
    priority: nat, src: string, dst: Option<(string, Family)>, dstlen: Option<nat>, fwmark: Option<nat>, table: nat, others: set<string>)

  /** Listings separate a destination from its prefix length and omit a full length. */
  function Show(r: Rule): Shown {
    Shown(r.priority, if r.fromAll then "all" else "other",
          if r.to.Some? then Some((r.to.value.address, r.to.value.family)) else None,
          if r.to.Some? && r.to.value.length != FullLength(r.to.value.family) then Some(r.to.value.length) else None,
          r.mark, r.table, r.others)
  }

  predicate Reserved(table: nat) { table == TABLE_A || table == TABLE_B }

  predicate OwnShown(s: Shown) {
    && Reserved(s.table) && s.src == "all" && s.others == {}
    && (if s.priority == LOCAL_PRIORITY then
          && s.dst.Some? && s.fwmark.None?
          && (s.dstlen.Some? ==> 0 < s.dstlen.value <= FullLength(s.dst.value.1))
        else
          s.priority == DIRECT_PRIORITY && s.fwmark == Some(MARK) && s.dst.None? && s.dstlen.None?)
  }

  predicate Own(r: Rule) { OwnShown(Show(r)) }

  /** Owned rules, spelled out: a marked lookup of one of the two tables at the direct priority, or a lookup of one of
      them for a well-formed destination at the local priority, and nothing else selected. */
  lemma OwnIsExact(r: Rule)
    ensures Own(r) <==>
              && r.table in {51821, 51822} && r.fromAll && r.others == {}
              && ((r.priority == 50 && r.mark == Some(0xca010000) && r.to.None?)
                  || (r.priority == 49 && r.mark.None? && r.to.Some? && PrefixOk(r.to.value)))
  {
  }

  predicate Direct(r: Rule) { Own(r) && r.priority == DIRECT_PRIORITY }

  datatype Delete = Delete(priority: nat, mark: Option<nat>, to: Option<Prefix>, table: nat)

  /** The deletion command, rebuilt from the listing. */
  function DeleteCommand(s: Shown): Delete
    requires OwnShown(s)
  {
    if s.priority == DIRECT_PRIORITY then Delete(s.priority, Some(MARK), None, s.table)
    else
      var length := if s.dstlen.Some? then s.dstlen.value else FullLength(s.dst.value.1);
      Delete(s.priority, None, Some(Prefix(s.dst.value.0, s.dst.value.1, length)), s.table)
  }

  predicate Selects(c: Delete, r: Rule) {
    && r.priority == c.priority && r.table == c.table
    && (c.mark.Some? ==> r.mark == c.mark) && (c.to.Some? ==> r.to == c.to)
  }

  /** Rebuilding a deletion from the listing names exactly the listed rule among owned rules. */
  lemma DeleteNamesRule(r: Rule, other: Rule)
    requires Own(r) && Own(other)
    ensures Selects(DeleteCommand(Show(r)), other) <==> other == r
  {
  }

  predicate Conflicting(r: Rule) {
    (r.priority == LOCAL_PRIORITY || r.priority == DIRECT_PRIORITY || Reserved(r.table)) && !Own(r)
  }

  // ---------- the rule list ----------

  /** Insert after every rule of the same or a smaller priority. */
  function Insert(rules: seq<Rule>, r: Rule): (q: seq<Rule>)
    ensures multiset(q) == multiset(rules) + multiset{r}
    ensures forall x :: x in q <==> x in rules || x == r
  {
    if rules == [] then [r]
    else if rules[|rules| - 1].priority <= r.priority then rules + [r]
    else
      var rest := rules[..|rules| - 1];
      assert rules == rest + [rules[|rules| - 1]];
      Insert(rest, r) + [rules[|rules| - 1]]
  }

  /** Remove the first selected rule. */
  function RemoveFirst(rules: seq<Rule>, c: Delete): seq<Rule> {
    if rules == [] then [] else if Selects(c, rules[0]) then rules[1..] else [rules[0]] + RemoveFirst(rules[1..], c)
  }

  predicate NoConflict(rules: seq<Rule>) { forall r | r in rules :: !Conflicting(r) }

  /** On a list without foreign reserved rules, deleting a listed rule removes one copy of it. */
  lemma {:induction false} RemovesListed(rules: seq<Rule>, r: Rule)
    requires NoConflict(rules) && Own(r) && r in rules
    ensures multiset(RemoveFirst(rules, DeleteCommand(Show(r)))) == multiset(rules) - multiset{r}
    ensures forall x :: x in RemoveFirst(rules, DeleteCommand(Show(r))) ==> x in rules
  {
    var c := DeleteCommand(Show(r));
    assert rules == [rules[0]] + rules[1..];
    DeleteNamesRule(r, r);
    if Selects(c, rules[0]) {
      assert rules[0] in rules && !Conflicting(rules[0]);
      DeleteNamesRule(r, rules[0]);
    } else {
      RemovesListed(rules[1..], r);
    }
  }

  /** The rules of `rules` that satisfy the filter, in order. */
  function OwnRules(rules: seq<Rule>, table: Option<nat>): (q: seq<Rule>)
    ensures forall r :: r in q <==> r in rules && Own(r) && (table.None? || r.table == table.value)
    ensures multiset(q) <= multiset(rules)
  {
    if rules == [] then []
    else
      var rest := rules[..|rules| - 1];
      var last := rules[|rules| - 1];
      assert rules == rest + [last];
      if Own(last) && (table.None? || last.table == table.value) then OwnRules(rest, table) + [last] else OwnRules(rest, table)
  }

  /** How often an owned rule of the table occurs. */
  function OwnCount(rules: seq<Rule>, table: Option<nat>, r: Rule): nat {
    if Own(r) && (table.None? || r.table == table.value) then multiset(rules)[r] else 0
  }

  lemma {:induction false} OwnCounts(rules: seq<Rule>, table: Option<nat>, r: Rule)
    ensures multiset(OwnRules(rules, table))[r] == OwnCount(rules, table, r)
  {
    if rules != [] {
      var rest, last := rules[..|rules| - 1], rules[|rules| - 1];
      assert rules == rest + [last];
      OwnCounts(rest, table, r);
    }
  }

  /** Marked lookups use the first direct rule. */
  predicate IsFirstDirect(rules: seq<Rule>, i: int) {
    0 <= i < |rules| && Direct(rules[i]) && forall j | 0 <= j < i :: !Direct(rules[j])
  }

  /** Table of the first direct rule, the one lookups use. */
  function Active(rules: seq<Rule>): (t: Option<nat>)
    ensures t.Some? ==> exists r :: r in rules && Direct(r) && r.table == t.value
    ensures forall i :: IsFirstDirect(rules, i) ==> t == Some(rules[i].table)
    ensures t.None? ==> forall r :: r in rules ==> !Direct(r)
  {
    if rules == [] then None
    else if Direct(rules[0]) then Some(rules[0].table)
    else
      assert forall i :: IsFirstDirect(rules, i) ==> IsFirstDirect(rules[1..], i - 1) && rules[1..][i - 1] == rules[i];
      Active(rules[1..])
  }

  function Inactive(rules: seq<Rule>): (t: nat)
    ensures Reserved(t)
    ensures (exists r :: r in rules && Direct(r)) ==> exists r :: r in rules && Direct(r) && r.table != t
    ensures forall i :: IsFirstDirect(rules, i) ==> rules[i].table != t
  {
    if Active(rules) == Some(TABLE_A) then TABLE_B else TABLE_A
  }

  // ---------- tables ----------

  function Entries(routes: seq<Route>): (q: seq<Entry>)
    ensures |q| == |routes|
  {
    seq(|routes|, i requires 0 <= i < |routes| => Owned(routes[i]))
  }

  /** A table filled for `routes`: every route and, last, the unreachable fallback. */
  predicate FilledWith(content: seq<Entry>, routes: seq<Route>) { content == Entries(routes) + [Fallback] }

  ghost predicate Complete(content: seq<Entry>) { exists routes :: FilledWith(content, routes) }

  function LocalDestinations(routes: seq<Route>): set<Prefix> {
    set r | r in routes && r.local :: r.destination
  }

  function DirectRule(table: nat): Rule { Rule(DIRECT_PRIORITY, true, None, Some(MARK), table, {}) }

  function LocalRule(p: Prefix, table: nat): Rule { Rule(LOCAL_PRIORITY, true, Some(p), None, table, {}) }

  lemma NewRulesAreOwn(p: Prefix, table: nat)
    requires Reserved(table) && PrefixOk(p)
    ensures Own(LocalRule(p, table))
  {
  }

  ghost function LocalRules(ps: set<Prefix>, table: nat): set<Rule> { set p | p in ps :: LocalRule(p, table) }

  lemma LocalRulesAdd(done: set<Prefix>, p: Prefix, table: nat)
    requires p !in done
    ensures multiset(LocalRules(done + {p}, table)) == multiset(LocalRules(done, table)) + multiset{LocalRule(p, table)}
    ensures multiset(LocalRules({}, table)) == multiset{}
  {
    assert LocalRules(done + {p}, table) == LocalRules(done, table) + {LocalRule(p, table)};
    assert LocalRules({}, table) == {};
  }

  lemma DirectIsOwn(table: nat)
    requires Reserved(table)
    ensures Direct(DirectRule(table)) && Own(DirectRule(table))
  {
  }

  lemma LocalTables(table: nat)
    ensures forall p :: LocalRule(p, table).table == table
  {
  }

  /** The rules a finished switch to `table` installs. */
  ghost function TargetRules(routes: seq<Route>, table: nat): multiset<Rule> {
    multiset{DirectRule(table)} + multiset(LocalRules(LocalDestinations(routes), table))
  }

  /** The target, spelled out: one direct rule, and one rule for each destination of a local route. */
  lemma TargetIsExact(routes: seq<Route>, table: nat)
    ensures forall r :: TargetRules(routes, table)[r] == if r == DirectRule(table) || LeadsLocal(routes, table, r) then 1 else 0
  {
    hide Own;
    var locals := LocalRules(LocalDestinations(routes), table);
    forall r ensures r in locals <==> LeadsLocal(routes, table, r) {
      if LeadsLocal(routes, table, r) {
        assert r.to.value in LocalDestinations(routes) && r == LocalRule(r.to.value, table);
      }
    }
  }

  /** A rule for the destination of some local route, and for nothing else. */
  ghost predicate LeadsLocal(routes: seq<Route>, table: nat, r: Rule) {
    && r.priority == LOCAL_PRIORITY && r.fromAll && r.mark.None? && r.table == table && r.others == {} && r.to.Some?
    && exists route :: route in routes && route.local && route.destination == r.to.value
  }

  /** Somebody else uses a reserved priority or table. */
  ghost predicate Trespass(rules: seq<Rule>, tables: map<nat, seq<Entry>>) {
    || (exists r :: r in rules && !Own(r) && (r.priority in {49, 50} || r.table in {51821, 51822}))
    || (exists t, e :: t in {51821, 51822} && t in tables && e in tables[t] && e.Unowned?)
  }

  /** Every rule of this daemon leads to a complete table. */
  ghost predicate Sound(rules: seq<Rule>, tables: map<nat, seq<Entry>>) {
    forall r :: r in rules && Own(r) ==> r.table in tables && Complete(tables[r.table])
  }

  ghost predicate Live(rules: seq<Rule>) { exists r :: r in rules && Direct(r) }

  /** Rules of other owners are as they were. */
  ghost predicate ForeignKept(a: seq<Rule>, b: seq<Rule>) {
    forall r :: !Own(r) ==> multiset(a)[r] == multiset(b)[r]
  }

  class Kernel {
    var rules: seq<Rule>
    var tables: map<nat, seq<Entry>>

    constructor (rules: seq<Rule>, tables: map<nat, seq<Entry>>)
      ensures this.rules == rules && this.tables == tables
    {
      this.rules, this.tables := rules, tables;
    }

    function Content(t: nat): seq<Entry>
      reads this`tables
    {
      if t in tables then tables[t] else []
    }

    /** No rule of this daemon looks up `table`: it may be flushed and filled. */
    ghost predicate Idle(table: nat)
      reads this`rules
    {
      forall r :: r in rules && Own(r) ==> r.table != table
    }

    /** Refuse foreign rules on the reserved priorities or tables and foreign routes in the tables. */
    method CheckReservations() returns (ok: bool)
      ensures ok <==> NoConflict(rules) && forall t, e :: Reserved(t) && e in Content(t) ==> !e.Unowned?
      ensures ok <==> !Trespass(rules, tables)
    {
      hide Own;
      ok := NoConflict(rules)
        && (forall e | e in Content(TABLE_A) :: !e.Unowned?) && (forall e | e in Content(TABLE_B) :: !e.Unowned?);
    }

    method DeleteRule(r: Rule) returns (ok: bool)
      requires Own(r) && r in rules && NoConflict(rules)
      modifies this`rules
      ensures ok ==> multiset(rules) == multiset(old(rules)) - multiset{r}
      ensures !ok ==> rules == old(rules)
      ensures forall x :: x in rules ==> x in old(rules)
    {
      ok := *;
      if ok {
        RemovesListed(rules, r);
        rules := RemoveFirst(rules, DeleteCommand(Show(r)));
      }
    }

    /** Adding a rule that exists fails. */
    method AddRule(r: Rule) returns (ok: bool)
      modifies this`rules
      ensures ok ==> multiset(rules) == multiset(old(rules)) + multiset{r} && r !in old(rules)
      ensures ok ==> forall x :: x in rules <==> x in old(rules) || x == r
      ensures !ok ==> rules == old(rules)
    {
      ok := *;
      if r in rules { ok := false; }
      if ok { rules := Insert(rules, r); }
    }

    /** Replace the contents of an idle table by one command of the batch. */
    method SetTable(table: nat, content: seq<Entry>) returns (ok: bool)
      requires Idle(table)
      modifies this`tables
      ensures ok ==> tables == old(tables)[table := content]
      ensures !ok ==> tables == old(tables)
    {
      ok := *;
      if ok { tables := tables[table := content]; }
    }

    /** Flushing leaves routes of other owners, and on IPv6 the maximum-metric fallback. */
    method Flush(f: Family, table: nat) returns (ok: bool)
      requires Idle(table)
      modifies this`tables
      ensures tables.Keys == old(tables).Keys + (if ok then {table} else {})
      ensures forall t :: t != table && t in old(tables) ==> tables[t] == old(tables)[t]
      ensures ok ==> forall e :: e in tables[table] <==> e in old(Content(table)) && (e.Unowned? || (e.Fallback? && f.Inet6?))
      ensures !ok ==> tables == old(tables)
    {
      ok := SetTable(table, Kept(f, Content(table)));
    }

    method RemoveRetainedFallback(f: Family, table: nat) returns (ok: bool)
      requires Idle(table)
      modifies this`tables
      ensures forall t :: t != table ==> (t in tables <==> t in old(tables)) && (t in tables ==> tables[t] == old(tables)[t])
      ensures !ok ==> tables == old(tables)
      ensures ok ==> forall e :: e in Content(table) ==> e in old(Content(table)) && (f.Inet6? ==> !e.Fallback?)
    {
      if f.Inet? || Fallback !in Content(table) { return true; }
      ok := SetTable(table, WithoutFallback(Content(table)));
    }

    /** Exclusive adds; IPv6 routes are appended. The unreachable fallback comes last. */
    method Fill(f: Family, table: nat, routes: seq<Route>) returns (ok: bool)
      requires Idle(table) && forall e :: e in Content(table) ==> !e.Unowned?
      requires f.Inet6? ==> Fallback !in Content(table)
      modifies this`tables
      ensures forall t :: t != table ==> (t in tables <==> t in old(tables)) && (t in tables ==> tables[t] == old(tables)[t])
      ensures ok ==> table in tables && FilledWith(tables[table], routes)
    {
      ok := Flush(f, table);
      if !ok { return false; }
      NothingLeft(tables[table]);
      for i := 0 to |routes|
        invariant table in tables && tables[table] == Entries(routes[..i])
        invariant forall t :: t != table ==> (t in tables <==> t in old(tables)) && (t in tables ==> tables[t] == old(tables)[t])
      {
        if f.Inet? && Owned(routes[i]) in Content(table) { return false; }
        ok := SetTable(table, Content(table) + [Owned(routes[i])]);
        if !ok { return false; }
        assert Entries(routes[..i + 1]) == Entries(routes[..i]) + [Owned(routes[i])];
      }
      assert routes[..|routes|] == routes;
      ok := SetTable(table, Content(table) + [Fallback]);
    }

    /** What every exit of a switch keeps, crash or not. */
    ghost predicate Safe(was: seq<Rule>)
      reads this
    {
      Sound(rules, tables) && (Live(was) ==> Live(rules)) && ForeignKept(was, rules)
    }

    /** Delete the rules of `doomed` one command at a time. */
    method DeleteAll(doomed: seq<Rule>, ghost kept: multiset<Rule>, ghost keeper: Option<Rule>) returns (ok: bool)
      requires NoConflict(rules) && multiset(rules) == kept + multiset(doomed) && forall r :: r in doomed ==> Own(r)
      requires Sound(rules, tables) && (keeper.Some? ==> Direct(keeper.value) && keeper.value in kept)
      modifies this`rules
      ensures ok ==> multiset(rules) == kept
      ensures Sound(rules, tables) && (keeper.Some? ==> Live(rules)) && ForeignKept(old(rules), rules)
      ensures forall x :: x in rules ==> x in old(rules)
    {
      hide *;
      KeepsItself(rules);
      assert doomed[0..] == doomed;
      ok := true;
      for i := 0 to |doomed|
        invariant multiset(rules) == kept + multiset(doomed[i..])
        invariant forall x :: x in rules ==> x in old(rules)
        invariant Sound(rules, tables) && ForeignKept(old(rules), rules) && NoConflict(rules) && ok
      {
        assert doomed[i..] == [doomed[i]] + doomed[i + 1..];
        assert doomed[i] in multiset(rules);
        ghost var before := rules;
        ok := DeleteRule(doomed[i]);
        if !ok { break; }
        DeleteKeeps(old(rules), before, rules, tables, doomed[i]);
      }
      if ok { assert doomed[|doomed|..] == []; }
      if keeper.Some? {
        assert keeper.value in multiset(rules);
        IsLive(rules, keeper.value);
      }
    }

    /** Add one owned rule for a complete table. */
    method AddOwned(r: Rule, ghost start: seq<Rule>) returns (ok: bool)
      requires Own(r) && r.table in tables && Complete(tables[r.table])
      requires Sound(rules, tables) && (Live(start) ==> Live(rules)) && ForeignKept(start, rules) && NoConflict(rules)
      modifies this`rules
      ensures Sound(rules, tables) && (Live(start) ==> Live(rules)) && ForeignKept(start, rules) && NoConflict(rules)
      ensures ok ==> multiset(rules) == multiset(old(rules)) + multiset{r}
    {
      hide Own, Sound, Live, ForeignKept, NoConflict, Complete;
      ghost var before := rules;
      ok := AddRule(r);
      if ok { AddKeeps(start, before, rules, tables, r); }
    }

    /** One local rule per local destination. */
    method InstallLocals(ps: set<Prefix>, table: nat, ghost start: seq<Rule>) returns (ok: bool)
      requires Reserved(table) && table in tables && Complete(tables[table]) && forall p :: p in ps ==> PrefixOk(p)
      requires Sound(rules, tables) && (Live(start) ==> Live(rules)) && ForeignKept(start, rules) && NoConflict(rules)
      modifies this`rules
      ensures Sound(rules, tables) && (Live(start) ==> Live(rules)) && ForeignKept(start, rules) && NoConflict(rules)
      ensures ok ==> multiset(rules) == multiset(old(rules)) + multiset(LocalRules(ps, table))
    {
      hide *;
      LocalTables(table);
      var todo := ps;
      ghost var done: set<Prefix> := {};
      LocalRulesAdd({}, Prefix("", Inet, 1), table);
      while todo != {}
        invariant todo + done == ps && todo !! done
        invariant multiset(rules) == multiset(old(rules)) + multiset(LocalRules(done, table))
        invariant Sound(rules, tables) && (Live(start) ==> Live(rules)) && ForeignKept(start, rules) && NoConflict(rules)
        decreases todo
      {
        var p :| p in todo;
        NewRulesAreOwn(p, table);
        ok := AddOwned(LocalRule(p, table), start);
        if !ok { return false; }
        LocalRulesAdd(done, p, table);
        todo, done := todo - {p}, done + {p};
      }
      assert done == ps;
      ok := true;
    }

    /** Install the direct rule first, then the local rules. */
    method Install(routes: seq<Route>, table: nat) returns (ok: bool)
      requires Reserved(table) && NoConflict(rules) && Sound(rules, tables)
      requires table in tables && FilledWith(tables[table], routes)
      requires forall p :: p in LocalDestinations(routes) ==> PrefixOk(p)
      modifies this`rules
      ensures Sound(rules, tables) && (Live(old(rules)) ==> Live(rules)) && ForeignKept(old(rules), rules) && NoConflict(rules)
      ensures ok ==> multiset(rules) == multiset(old(rules)) + TargetRules(routes, table)
    {
      hide Own, Direct, Complete, FilledWith, Sound, Live, ForeignKept, NoConflict, LocalDestinations, LocalRules, PrefixOk;
      ghost var start := rules;
      CompleteNow(tables, table, routes);
      KeepsItself(rules);
      DirectIsOwn(table);
      ok := AddOwned(DirectRule(table), start);
      if !ok { return false; }
      ok := InstallLocals(LocalDestinations(routes), table, start);
    }

    /** Remove what an interrupted switch left on the inactive table. */
    method ClearInactive(table: nat) returns (ok: bool)
      requires table == Inactive(rules) && NoConflict(rules) && Sound(rules, tables)
      modifies this`rules
      ensures Safe(old(rules)) && NoConflict(rules)
      ensures ok ==> Idle(table)
    {
      hide Own, Direct, Complete, Conflicting;
      KeepsItself(rules);
      ghost var start := rules;
      ghost var keeper := Keeper(rules, table);
      var stale := OwnRules(rules, Some(table));
      OwnCountsAll(rules, Some(table));
      ok := DeleteAll(stale, multiset(rules) - multiset(stale), keeper);
      if ok { ClearedIsIdle(start, rules, table); }
    }

    /** Rebuild the idle table: flush, routes, fallback. */
    method Refill(f: Family, table: nat, routes: seq<Route>) returns (ok: bool)
      requires Idle(table) && Sound(rules, tables) && forall e :: e in Content(table) ==> !e.Unowned?
      modifies this`tables
      ensures Sound(rules, tables)
      ensures forall t :: t != table ==> (t in tables <==> t in old(tables)) && (t in tables ==> tables[t] == old(tables)[t])
      ensures ok ==> table in tables && FilledWith(tables[table], routes)
    {
      hide Own, Complete, FilledWith;
      ok := RemoveRetainedFallback(f, table);
      if !ok { return false; }
      ok := Fill(f, table, routes);
    }

    /** Install the new rules while the old table stays live, then remove the old rules. */
    method Replace(routes: seq<Route>, table: nat) returns (ok: bool)
      requires Reserved(table) && NoConflict(rules) && Sound(rules, tables)
      requires table in tables && FilledWith(tables[table], routes)
      requires forall p :: p in LocalDestinations(routes) ==> PrefixOk(p)
      modifies this`rules
      ensures Safe(old(rules))
      ensures ok ==> forall r :: multiset(rules)[r] == if Own(r) then TargetRules(routes, table)[r] else multiset(old(rules))[r]
    {
      hide *;
      var current := OwnRules(rules, None);
      ghost var start := rules;
      ghost var foreign := multiset(rules) - multiset(current);
      KeepsItself(rules);
      ok := Install(routes, table);
      IsSafe(start);
      if !ok { return false; }
      DirectIsOwn(table);
      TargetHasDirect(routes, table);
      ghost var installed := rules;
      ok := DeleteAll(current, foreign + TargetRules(routes, table), Some(DirectRule(table)));
      ForeignThrough(start, installed, rules);
      IsSafe(start);
      if ok { ReplacedCounts(start, rules, routes, table); }
    }

    lemma IsSafe(was: seq<Rule>)
      requires Sound(rules, tables) && (Live(was) ==> Live(rules)) && ForeignKept(was, rules)
      ensures Safe(was)
    {
    }

    /** The whole switch. On every exit: each owned rule leads to a complete table, a live direct rule
        remains if there was one, foreign rules are untouched, and the table in use is as it was. A
        finished switch ends with exactly the target rules, whatever an interrupted one left behind: one direct rule
        and one for each local destination, all to the table that was not in use. Where somebody else uses a
        reserved priority or table nothing is changed. */
    method Switch(f: Family, routes: seq<Route>) returns (ok: bool)
      requires Sound(rules, tables)
      requires forall p :: p in LocalDestinations(routes) ==> PrefixOk(p)
      modifies this
      ensures Safe(old(rules))
      ensures forall t :: t != Inactive(old(rules)) ==> Content(t) == old(Content(t))
      ensures Trespass(old(rules), old(tables)) ==> !ok && rules == old(rules) && tables == old(tables)
      ensures forall i :: IsFirstDirect(old(rules), i) ==> Content(old(rules)[i].table) == old(Content(rules[i].table))
      ensures ok ==> exists table :: Reserved(table) && (forall i :: IsFirstDirect(old(rules), i) ==> table != old(rules)[i].table)
                       && Content(table) == Entries(routes) + [Fallback]
                       && forall r :: Own(r) ==> multiset(rules)[r] == if r == DirectRule(table) || LeadsLocal(routes, table, r) then 1 else 0
      ensures ok ==> var table := Inactive(old(rules));
        && FilledWith(Content(table), routes)
        && forall r :: multiset(rules)[r] == if Own(r) then TargetRules(routes, table)[r] else multiset(old(rules))[r]
    {
      hide Own, Direct, Conflicting, FilledWith, Complete, NoConflict, LocalDestinations, TargetRules, Sound, Live, ForeignKept,
           Trespass, IsFirstDirect, LeadsLocal, Entries;
      ghost var start := rules;
      KeepsItself(rules);
      ok := CheckReservations();
      if !ok { return false; }
      var table := Inactive(rules);
      ok := ClearInactive(table);
      if !ok { return false; }
      ok := CheckReservations();
      if !ok { return false; }
      ok := Refill(f, table, routes);
      if !ok { return false; }
      ok := CheckReservations();
      if !ok { return false; }
      ghost var cleared := rules;
      ok := Replace(routes, table);
      ForeignThrough(start, cleared, rules);
      ForeignCounts(start, cleared);
      TargetIsExact(routes, table);
      assert ok ==> Content(table) == Entries(routes) + [Fallback] by { FilledIsExact(Content(table), routes); }
    }
  }

  /** One reconciliation of the daemon. */
  datatype Job = Job(family: Family, routes: seq<Route>)

  /** Any number of switches of both families, each on the rules and tables of its own family, finished, failed or cut
      short by a crash and a restart: once a family has a direct rule there always is one, leading to a complete
      table. */
  method Daemon(inet: Kernel, inet6: Kernel, jobs: seq<Job>)
    requires inet != inet6 && Sound(inet.rules, inet.tables) && Sound(inet6.rules, inet6.tables)
    requires forall i, p :: 0 <= i < |jobs| && p in LocalDestinations(jobs[i].routes) ==> PrefixOk(p)
    modifies inet, inet6
    ensures Sound(inet.rules, inet.tables) && (Live(old(inet.rules)) ==> Live(inet.rules)) && ForeignKept(old(inet.rules), inet.rules)
    ensures Sound(inet6.rules, inet6.tables) && (Live(old(inet6.rules)) ==> Live(inet6.rules))
            && ForeignKept(old(inet6.rules), inet6.rules)
  {
    hide *;
    KeepsItself(inet.rules);
    KeepsItself(inet6.rules);
    for i := 0 to |jobs|
      invariant Sound(inet.rules, inet.tables) && (Live(old(inet.rules)) ==> Live(inet.rules))
      invariant ForeignKept(old(inet.rules), inet.rules)
      invariant Sound(inet6.rules, inet6.tables) && (Live(old(inet6.rules)) ==> Live(inet6.rules))
      invariant ForeignKept(old(inet6.rules), inet6.rules)
    {
      if jobs[i].family.Inet? {
        Turn(inet, jobs[i], old(inet.rules));
      } else {
        Turn(inet6, jobs[i], old(inet6.rules));
      }
    }
  }

  method Turn(k: Kernel, job: Job, ghost start: seq<Rule>)
    requires Sound(k.rules, k.tables) && (Live(start) ==> Live(k.rules)) && ForeignKept(start, k.rules)
    requires forall p :: p in LocalDestinations(job.routes) ==> PrefixOk(p)
    modifies k
    ensures Sound(k.rules, k.tables) && (Live(start) ==> Live(k.rules)) && ForeignKept(start, k.rules)
  {
    hide Own, Direct, Complete, LocalDestinations, FilledWith, TargetRules, PrefixOk;
    ghost var before := k.rules;
    var ok := k.Switch(job.family, job.routes);
    ForeignThrough(start, before, k.rules);
  }

  /** A direct rule that survives clearing `table`, if there is a direct rule at all. */
  ghost function Keeper(rules: seq<Rule>, table: nat): (k: Option<Rule>)
    requires table == Inactive(rules)
    ensures k.Some? ==> Direct(k.value) && k.value in multiset(rules) - multiset(OwnRules(rules, Some(table)))
    ensures Live(rules) ==> k.Some?
  {
    if Live(rules) then
      var r :| r in rules && Direct(r) && r.table != table;
      OwnCounts(rules, Some(table), r);
      assert r in multiset(rules);
      Some(r)
    else None
  }

  lemma ForeignThrough(a: seq<Rule>, b: seq<Rule>, c: seq<Rule>)
    ensures ForeignKept(a, b) && ForeignKept(b, c) ==> ForeignKept(a, c)
  {
    hide Own;
  }

  lemma TargetHasDirect(routes: seq<Route>, table: nat)
    ensures DirectRule(table) in TargetRules(routes, table)
  {
  }

  lemma ReplacedCounts(was: seq<Rule>, now: seq<Rule>, routes: seq<Route>, table: nat)
    requires Reserved(table) && forall p :: p in LocalDestinations(routes) ==> PrefixOk(p)
    requires multiset(now) == multiset(was) - multiset(OwnRules(was, None)) + TargetRules(routes, table)
    ensures forall r :: multiset(now)[r] == if Own(r) then TargetRules(routes, table)[r] else multiset(was)[r]
  {
    hide Own, TargetRules, LocalDestinations;
    OwnCountsAll(was, None);
    TargetIsOwn(routes, table);
  }

  lemma ForeignCounts(a: seq<Rule>, b: seq<Rule>)
    requires ForeignKept(a, b)
    ensures forall r :: !Own(r) ==> multiset(a)[r] == multiset(b)[r]
  {
  }

  lemma TargetIsOwn(routes: seq<Route>, table: nat)
    requires Reserved(table) && forall p :: p in LocalDestinations(routes) ==> PrefixOk(p)
    ensures forall r :: !Own(r) ==> TargetRules(routes, table)[r] == 0
  {
    hide Own;
    forall r | TargetRules(routes, table)[r] > 0 ensures Own(r) {
      DirectIsOwn(table);
      if r != DirectRule(table) {
        var p :| p in LocalDestinations(routes) && r == LocalRule(p, table);
        NewRulesAreOwn(p, table);
      }
    }
  }

  lemma FilledIsExact(content: seq<Entry>, routes: seq<Route>)
    ensures FilledWith(content, routes) ==> content == Entries(routes) + [Fallback]
  {
  }

  lemma NothingLeft(content: seq<Entry>)
    ensures content == [] || content[0] in content
  {
  }

  lemma CompleteNow(tables: map<nat, seq<Entry>>, table: nat, routes: seq<Route>)
    requires table in tables && FilledWith(tables[table], routes)
    ensures Complete(tables[table])
  {
  }

  lemma DeleteKeeps(start: seq<Rule>, before: seq<Rule>, after: seq<Rule>, tables: map<nat, seq<Entry>>, r: Rule)
    requires Own(r) && multiset(after) == multiset(before) - multiset{r} && forall x :: x in after ==> x in before
    requires Sound(before, tables) && ForeignKept(start, before) && NoConflict(before)
    ensures Sound(after, tables) && ForeignKept(start, after) && NoConflict(after)
  {
    hide Own, Direct, Complete;
  }

  lemma IsLive(rules: seq<Rule>, r: Rule)
    requires r in rules && Direct(r)
    ensures Live(rules)
  {
  }

  lemma AddKeeps(start: seq<Rule>, before: seq<Rule>, after: seq<Rule>, tables: map<nat, seq<Entry>>, r: Rule)
    requires Own(r) && r.table in tables && Complete(tables[r.table])
    requires multiset(after) == multiset(before) + multiset{r} && forall x :: x in after <==> x in before || x == r
    requires Sound(before, tables) && (Live(start) ==> Live(before)) && ForeignKept(start, before) && NoConflict(before)
    ensures Sound(after, tables) && (Live(start) ==> Live(after)) && ForeignKept(start, after) && NoConflict(after)
  {
    hide Own, Direct, Complete;
    if Live(before) {
      var x :| x in before && Direct(x);
      assert x in after;
    }
  }

  lemma KeepsItself(rules: seq<Rule>)
    ensures ForeignKept(rules, rules)
  {
  }

  lemma OwnCountsAll(rules: seq<Rule>, table: Option<nat>)
    ensures forall r :: multiset(OwnRules(rules, table))[r] == OwnCount(rules, table, r)
  {
    forall r ensures multiset(OwnRules(rules, table))[r] == OwnCount(rules, table, r) { OwnCounts(rules, table, r); }
  }

  lemma ClearedIsIdle(was: seq<Rule>, rules: seq<Rule>, table: nat)
    requires multiset(rules) == multiset(was) - multiset(OwnRules(was, Some(table)))
    ensures forall r :: r in rules && Own(r) ==> r.table != table
  {
    forall r | r in rules && Own(r) ensures r.table != table {
      OwnCounts(was, Some(table), r);
      assert r in multiset(rules);
    }
  }

  function Kept(f: Family, content: seq<Entry>): (q: seq<Entry>)
    ensures forall e :: e in q <==> e in content && (e.Unowned? || (e.Fallback? && f.Inet6?))
  {
    if content == [] then []
    else
      var rest := Kept(f, content[..|content| - 1]);
      var last := content[|content| - 1];
      assert content == content[..|content| - 1] + [last];
      if last.Unowned? || (last.Fallback? && f.Inet6?) then rest + [last] else rest
  }

  function WithoutFallback(content: seq<Entry>): (q: seq<Entry>)
    ensures forall e :: e in q <==> e in content && !e.Fallback?
  {
    if content == [] then []
    else
      var rest := WithoutFallback(content[..|content| - 1]);
      var last := content[|content| - 1];
      assert content == content[..|content| - 1] + [last];
      if last.Fallback? then rest else rest + [last]
  }
}
