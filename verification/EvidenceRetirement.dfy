/** Choosing the directories to retire: count, for every directory between a file that replaces a
    directory and the acknowledged paths below it, how many of those paths the batch removes; retire the
    outermost directories that are fully drained. */
module EvidenceRetirement {
  import opened Effects
  import opened Order
  import opened EvidenceModel
  import opened EvidenceFrames
  import opened EvidenceLedger
  import opened EvidenceCollector

  predicate Removes(known: Known, removals: Known, k: Path) {
    k in known && k in removals && removals[k] == known[k]
  }

  /** A directory at or below a transition with an acknowledged path below it. */
  ghost predicate IsContainer(known: Known, transitions: seq<Path>, d: Path) {
    exists t, k :: t in transitions && k in known && t <= d && d < k
  }

  /** Every acknowledged path below `d` is removed. */
  ghost predicate Drained(known: Known, removals: Known, d: Path) {
    forall k :: k in known && d < k ==> Removes(known, removals, k)
  }

  ghost function Below(s: set<Path>, d: Path): set<Path> { set k | k in s && d < k }

  ghost function GoneBelow(known: Known, removals: Known, s: set<Path>, d: Path): set<Path> {
    set k | k in s && d < k && Removes(known, removals, k)
  }

  type Counts = map<Path, (nat, nat)>

  ghost predicate Tally(known: Known, removals: Known, s: set<Path>, d: Path, c: (nat, nat)) {
    c.0 == |Below(s, d)| && c.1 == |GoneBelow(known, removals, s, d)|
  }

  lemma TallyAdd(known: Known, removals: Known, s: set<Path>, d: Path, x: Path, c: (nat, nat))
    requires Tally(known, removals, s, d, c) && x !in s
    ensures !(d < x) ==> Tally(known, removals, s + {x}, d, c)
    ensures d < x ==> Tally(known, removals, s + {x}, d, (c.0 + 1, c.1 + if Removes(known, removals, x) then 1 else 0))
  {
    var b, g := Below(s, d), GoneBelow(known, removals, s, d);
    if d < x {
      assert Below(s + {x}, d) == b + {x};
      if Removes(known, removals, x) {
        assert GoneBelow(known, removals, s + {x}, d) == g + {x};
      } else {
        assert GoneBelow(known, removals, s + {x}, d) == g;
      }
    } else {
      assert Below(s + {x}, d) == b && GoneBelow(known, removals, s + {x}, d) == g;
    }
  }

  lemma TallyEmpty(known: Known, removals: Known, s: set<Path>, d: Path)
    requires forall k :: k in s ==> !(d < k)
    ensures Tally(known, removals, s, d, (0, 0))
  {
    assert Below(s, d) == {} && GoneBelow(known, removals, s, d) == {};
  }

  lemma SubsetOfSameSize(a: set<Path>, b: set<Path>)
    requires a <= b
    ensures |a| <= |b| && (|a| == |b| ==> a == b)
  {
    assert b == a + (b - a);
  }

  /** A full tally with equal components means that everything below is removed. */
  lemma EqualMeansDrained(known: Known, removals: Known, s: set<Path>, d: Path, c: (nat, nat))
    requires Tally(known, removals, s, d, c) && forall k :: k in known && d < k <==> k in s && d < k
    ensures c.0 == c.1 <==> Drained(known, removals, d)
  {
    var b, g := Below(s, d), GoneBelow(known, removals, s, d);
    SubsetOfSameSize(g, b);
    if c.0 == c.1 {
      forall k | k in known && d < k ensures Removes(known, removals, k) { assert k in b; }
    }
    if Drained(known, removals, d) { assert b == g; }
  }

  // ---------- counting ----------

  /** After the names in `done`, and `name` down to length `n`. */
  ghost predicate CountedTo(known: Known, removals: Known, transitions: seq<Path>, done: set<Path>, name: Path, n: nat, root: Path, counts: Counts) {
    && (forall d :: d in counts ==> Entered(transitions, done, d) || (root <= d && d < name && n <= |d|))
    && (forall d :: Entered(transitions, done, d) || (root <= d && d < name && n <= |d|) ==> d in counts)
    && (forall d :: d in counts ==>
          if root <= d && d < name && n <= |d| then Tally(known, removals, done + {name}, d, counts[d])
          else Tally(known, removals, done, d, counts[d]))
  }

  ghost predicate Entered(transitions: seq<Path>, done: set<Path>, d: Path) {
    exists t, k :: t in transitions && k in done && t <= d && d < k
  }

  ghost predicate CountedNames(known: Known, removals: Known, transitions: seq<Path>, done: set<Path>, counts: Counts) {
    && (forall d :: d in counts <==> Entered(transitions, done, d))
    && (forall d :: d in counts ==> Tally(known, removals, done, d, counts[d]))
  }

  /** Count one acknowledged path in every directory between it and its transition. */
  method CountName(known: Known, removals: Known, ghost transitions: seq<Path>, ghost done: set<Path>,
                   root: Path, name: Path, before: Counts) returns (ok: bool, counts: Counts)
    requires CountedNames(known, removals, transitions, done, before)
    requires root in transitions && NoNesting(transitions) && root <= name && name !in done
    ensures ok ==> CountedNames(known, removals, transitions, done + {name}, counts)
    ensures ok && |before| <= INVENTORY_LIMIT ==> |counts| <= INVENTORY_LIMIT
  {
    hide *;
    counts := before;
    var n := |name|;
    CountStarts(known, removals, transitions, done, root, name, before);
    while n > |root|
      invariant |root| <= n <= |name|
      invariant CountedTo(known, removals, transitions, done, name, n, root, counts)
      invariant |before| <= INVENTORY_LIMIT ==> |counts| <= INVENTORY_LIMIT
    {
      var d := name[..n - 1];
      assert root <= d && d < name && |d| == n - 1;
      if d !in counts && |counts| >= INVENTORY_LIMIT { return false, counts; }
      var c := if d in counts then counts[d] else (0, 0);
      CountHere(known, removals, transitions, done, root, name, n, counts, c);
      counts := counts[d := (c.0 + 1, c.1 + if Removes(known, removals, name) then 1 else 0)];
      n := n - 1;
    }
    NameCounted(known, removals, transitions, done, root, name, counts);
    ok := true;
  }

  lemma CountStarts(known: Known, removals: Known, transitions: seq<Path>, done: set<Path>, root: Path, name: Path, counts: Counts)
    requires CountedNames(known, removals, transitions, done, counts)
    ensures CountedTo(known, removals, transitions, done, name, |name|, root, counts)
  {
    hide Tally, Entered;
  }

  lemma CountHere(known: Known, removals: Known, transitions: seq<Path>, done: set<Path>, root: Path, name: Path, n: nat, counts: Counts, c: (nat, nat))
    requires CountedTo(known, removals, transitions, done, name, n, root, counts) && |root| < n <= |name| && root <= name
    requires root in transitions && name !in done
    requires c == if name[..n - 1] in counts then counts[name[..n - 1]] else (0, 0)
    ensures CountedTo(known, removals, transitions, done, name, n - 1, root,
                      counts[name[..n - 1] := (c.0 + 1, c.1 + if Removes(known, removals, name) then 1 else 0)])
  {
    hide Tally;
    var d := name[..n - 1];
    if d !in counts {
      forall k | k in done ensures !(d < k) {
        assert d < k ==> Entered(transitions, done, d);
      }
      TallyEmpty(known, removals, done, d);
    }
    TallyAdd(known, removals, done, d, name, c);
    forall e: Path | root <= e && e < name && n - 1 <= |e| ensures e == d || n <= |e| {
      assert |e| == n - 1 ==> e == name[..n - 1];
    }
  }

  /** A directory on the way to `name` was entered before only through the same transition. */
  lemma EnteredUnder(transitions: seq<Path>, done: set<Path>, root: Path, name: Path, d: Path)
    requires root in transitions && NoNesting(transitions) && root <= name && Entered(transitions, done, d)
    ensures d < name ==> root <= d
  {
    var t, k :| t in transitions && k in done && t <= d && d < k;
    if d < name {
      Comparable(t, root, name);
    }
  }

  lemma EnteredMore(transitions: seq<Path>, done: set<Path>, root: Path, name: Path, d: Path)
    requires root in transitions && NoNesting(transitions) && root <= name
    ensures Entered(transitions, done + {name}, d) <==> Entered(transitions, done, d) || (root <= d && d < name)
  {
    if Entered(transitions, done + {name}, d) {
      var t, k :| t in transitions && k in done + {name} && t <= d && d < k;
      if k == name {
        Comparable(t, root, name);
      } else {
        assert Entered(transitions, done, d);
      }
    }
    if Entered(transitions, done, d) {
      var t, k :| t in transitions && k in done && t <= d && d < k;
      assert k in done + {name};
    }
  }

  lemma NameCounted(known: Known, removals: Known, transitions: seq<Path>, done: set<Path>, root: Path, name: Path, counts: Counts)
    requires CountedTo(known, removals, transitions, done, name, |root|, root, counts) && root <= name
    requires root in transitions && NoNesting(transitions) && name !in done
    ensures CountedNames(known, removals, transitions, done + {name}, counts)
  {
    hide Tally, Entered, NoNesting;
    forall d ensures d in counts <==> Entered(transitions, done + {name}, d) {
      EnteredMore(transitions, done, root, name, d);
      assert root <= d ==> |root| <= |d|;
    }
    forall d | d in counts ensures Tally(known, removals, done + {name}, d, counts[d]) {
      if !(root <= d && d < name) {
        EnteredUnder(transitions, done, root, name, d);
        TallyAdd(known, removals, done, d, name, counts[d]);
      }
    }
  }

  /** Two prefixes of one path are comparable. */
  lemma Comparable(a: Path, b: Path, p: Path)
    requires a <= p && b <= p
    ensures a <= b || b <= a
    ensures a != b ==> a < b || b < a
  {
  }

  function KnownBelow(known: Known, root: Path): set<Path> { set k | k in known && root <= k }

  /** `done` is every acknowledged path below one of the first `i` transitions. */
  ghost predicate DoneTo(known: Known, transitions: seq<Path>, i: nat, done: set<Path>)
    requires i <= |transitions|
  {
    forall k :: k in done <==> k in known && exists j :: 0 <= j < i && transitions[j] <= k
  }

  /** Count the acknowledged paths below one transition. */
  method CountBelow(known: Known, removals: Known, ghost transitions: seq<Path>, ghost done: set<Path>, root: Path, before: Counts)
    returns (ok: bool, counts: Counts)
    requires root in transitions && NoNesting(transitions) && |before| <= INVENTORY_LIMIT
    requires forall k :: k in known && root <= k ==> k !in done
    requires CountedNames(known, removals, transitions, done, before)
    ensures (ok ==> |counts| <= INVENTORY_LIMIT) && (transitions == [] ==> ok)
    ensures ok ==> CountedNames(known, removals, transitions, done + KnownBelow(known, root), counts)
  {
    hide Tally, CountedNames, NoNesting, Sorted, Elements;
    ghost var mine := KnownBelow(known, root);
    var names := Sorted(KnownBelow(known, root));
    counts := before;
    ghost var seen := done;
    ElementsOf(names, 0);
    for j := 0 to |names|
      invariant |counts| <= INVENTORY_LIMIT
      invariant seen == done + Elements(names[..j])
      invariant CountedNames(known, removals, transitions, seen, counts)
    {
      assert names[j] in names && names[j] in mine;
      SortedFresh(mine, j);
      ElementsOf(names, j);
      var fine;
      fine, counts := CountName(known, removals, transitions, seen, root, names[j], counts);
      if !fine { return false, counts; }
      seen := seen + {names[j]};
    }
    ElementsOf(names, 0);
    assert Elements(names) == mine by { SortedElements(mine); }
    ok := true;
  }

  ghost function Elements(q: seq<Path>): set<Path> { set x | x in q }

  lemma ElementsOf(q: seq<Path>, j: nat)
    ensures j < |q| ==> Elements(q[..j + 1]) == Elements(q[..j]) + {q[j]} && (q[j] !in q[..j] ==> q[j] !in Elements(q[..j]))
    ensures Elements(q[..0]) == {} && Elements(q[..|q|]) == Elements(q)
  {
    if j < |q| { assert q[..j + 1] == q[..j] + [q[j]]; }
    assert q[..|q|] == q;
  }

  lemma SortedElements(s: set<Path>)
    ensures Elements(Sorted(s)) == s
  {
  }

  /** Count all acknowledged paths below the transitions. */
  method CountContainers(known: Known, removals: Known, transitions: seq<Path>) returns (ok: bool, counts: Counts)
    requires NoNesting(transitions) && NoDup(transitions)
    ensures (ok ==> |counts| <= INVENTORY_LIMIT) && (transitions == [] ==> ok)
    ensures ok ==> forall d :: d in counts <==> IsContainer(known, transitions, d)
    ensures ok ==> forall d :: d in counts ==> (counts[d].0 == counts[d].1 <==> Drained(known, removals, d))
  {
    hide Tally, NoNesting, NoDup, CountedNames, Entered, IsContainer, DoneTo, Drained;
    counts := map[];
    ghost var done: set<Path> := {};
    NothingCounted(known, removals, transitions);
    for i := 0 to |transitions|
      invariant |counts| <= INVENTORY_LIMIT
      invariant DoneTo(known, transitions, i, done)
      invariant CountedNames(known, removals, transitions, done, counts)
    {
      assert transitions[i] in transitions;
      NewTransition(known, transitions, i, done);
      var fine;
      fine, counts := CountBelow(known, removals, transitions, done, transitions[i], counts);
      if !fine { return false, counts; }
      done := done + KnownBelow(known, transitions[i]);
    }
    AllCounted(known, removals, transitions, done, counts);
    ok := true;
  }

  lemma NothingCounted(known: Known, removals: Known, transitions: seq<Path>)
    ensures DoneTo(known, transitions, 0, {}) && CountedNames(known, removals, transitions, {}, map[])
  {
  }

  lemma AllCounted(known: Known, removals: Known, transitions: seq<Path>, done: set<Path>, counts: Counts)
    requires DoneTo(known, transitions, |transitions|, done) && CountedNames(known, removals, transitions, done, counts)
    ensures forall d :: d in counts <==> IsContainer(known, transitions, d)
    ensures forall d :: d in counts ==> (counts[d].0 == counts[d].1 <==> Drained(known, removals, d))
  {
    hide Tally, Drained, Entered, IsContainer, DoneTo;
    forall d | d in counts ensures counts[d].0 == counts[d].1 <==> Drained(known, removals, d) {
      ContainerComplete(known, transitions, done, d);
      EqualMeansDrained(known, removals, done, d, counts[d]);
    }
    forall d ensures d in counts <==> IsContainer(known, transitions, d) {
      EnteredIsContainer(known, transitions, done, d);
    }
  }

  lemma SortedFresh(s: set<Path>, j: nat)
    requires j < |Sorted(s)|
    ensures Sorted(s)[j] !in Sorted(s)[..j]
  {
    forall i | 0 <= i < j ensures Sorted(s)[i] != Sorted(s)[j] { SortedDistinct(s, i, j); }
  }

  lemma NewTransition(known: Known, transitions: seq<Path>, i: nat, done: set<Path>)
    requires NoNesting(transitions) && NoDup(transitions) && i < |transitions| && DoneTo(known, transitions, i, done)
    ensures forall k :: k in known && transitions[i] <= k ==> k !in done
    ensures DoneTo(known, transitions, i + 1, done + KnownBelow(known, transitions[i]))
  {
    assert forall j :: 0 <= j < |transitions| ==> transitions[j] in transitions;
    forall k | k in known && transitions[i] <= k ensures k !in done {
      if k in done {
        var j :| 0 <= j < i && transitions[j] <= k;
        Comparable(transitions[i], transitions[j], k);
      }
    }
    var done' := done + KnownBelow(known, transitions[i]);
    forall k | k in known && exists j :: 0 <= j < i + 1 && transitions[j] <= k ensures k in done' {
      var j :| 0 <= j < i + 1 && transitions[j] <= k;
      assert j < i ==> k in done;
    }
  }

  lemma ContainerComplete(known: Known, transitions: seq<Path>, done: set<Path>, d: Path)
    requires DoneTo(known, transitions, |transitions|, done) && Entered(transitions, done, d)
    ensures forall k :: k in known && d < k <==> k in done && d < k
  {
    var t, k :| t in transitions && k in done && t <= d && d < k;
    var j :| 0 <= j < |transitions| && transitions[j] == t;
    forall x | x in known && d < x ensures x in done {
      assert transitions[j] <= x;
    }
  }

  lemma EnteredIsContainer(known: Known, transitions: seq<Path>, done: set<Path>, d: Path)
    requires DoneTo(known, transitions, |transitions|, done)
    ensures Entered(transitions, done, d) <==> IsContainer(known, transitions, d)
  {
    if IsContainer(known, transitions, d) {
      var t, k :| t in transitions && k in known && t <= d && d < k;
      var j :| 0 <= j < |transitions| && transitions[j] == t;
      assert transitions[j] <= k;
      assert k in done;
    }
  }

  // ---------- the outermost drained directories ----------

  predicate Full(counts: Counts, d: Path) { d in counts && counts[d].0 == counts[d].1 }

  /** After the first `i` directories: the chosen ones are full, apart, and cover the full ones. */
  ghost predicate Covering(counts: Counts, keys: seq<Path>, i: nat, roots: seq<Path>)
    requires i <= |keys|
  {
    && |roots| <= i && NoDup(roots) && NoNesting(roots)
    && (forall r :: r in roots ==> Full(counts, r) && exists j :: 0 <= j < i && keys[j] == r)
    && (forall j :: 0 <= j < i && Full(counts, keys[j]) ==> CoveredBy(roots, keys[j]))
  }

  ghost predicate CoveredBy(roots: seq<Path>, d: Path) { exists r :: r in roots && r <= d }

  lemma CoveredByMore(roots: seq<Path>, d: Path, e: Path)
    ensures CoveredBy(roots, e) ==> CoveredBy(roots + [d], e)
    ensures CoveredBy(roots + [d], d)
  {
    if CoveredBy(roots, e) {
      var r :| r in roots && r <= e;
      assert r in roots + [d];
    }
    assert d in roots + [d] && d <= d;
  }

  lemma CoverAdd(counts: Counts, keys: seq<Path>, i: nat, roots: seq<Path>)
    requires i < |keys| && Covering(counts, keys, i, roots) && Full(counts, keys[i])
    requires forall r :: r in roots ==> r != keys[i] && !(r < keys[i]) && !(keys[i] < r)
    ensures Covering(counts, keys, i + 1, roots + [keys[i]])
  {
    hide NoNesting, NoDup, Full, CoveredBy;
    var d := keys[i];
    NestingExtend(roots, d);
    forall j | 0 <= j < i + 1 && Full(counts, keys[j]) ensures CoveredBy(roots + [d], keys[j]) {
      CoveredByMore(roots, d, keys[j]);
    }
  }

  lemma CoverSkip(counts: Counts, keys: seq<Path>, i: nat, roots: seq<Path>)
    requires i < |keys| && Covering(counts, keys, i, roots)
    requires Full(counts, keys[i]) ==> exists r :: r in roots && r < keys[i]
    ensures Covering(counts, keys, i + 1, roots)
  {
    hide NoNesting, NoDup, Full;
    if Full(counts, keys[i]) {
      var r :| r in roots && r < keys[i];
      assert CoveredBy(roots, keys[i]);
    }
    hide CoveredBy;
  }

  /** Ascending order: no chosen root repeats the next key or lies below it. */
  lemma KeysAscend(counts: Counts, i: nat, roots: seq<Path>)
    requires i < |Sorted(counts.Keys)| && Covering(counts, Sorted(counts.Keys), i, roots)
    ensures forall r :: r in roots ==> r != Sorted(counts.Keys)[i] && !(Sorted(counts.Keys)[i] < r)
  {
    hide NoNesting, NoDup, Full, Sorted, CoveredBy;
    var keys := Sorted(counts.Keys);
    forall r | r in roots ensures r != keys[i] && !(keys[i] < r) {
      var j :| 0 <= j < i && keys[j] == r;
      SortedDistinct(counts.Keys, i, j);
    }
  }

  lemma NestingExtend(roots: seq<Path>, d: Path)
    requires NoNesting(roots) && NoDup(roots) && d !in roots && forall r :: r in roots ==> !(r < d) && !(d < r)
    ensures NoNesting(roots + [d]) && NoDup(roots + [d])
    ensures forall r :: r in roots + [d] <==> r in roots || r == d
  {
  }

  /** The outermost drained containers: each is one, none lies in another, and every drained
      container lies in one of them. */
  method OutermostDrained(counts: Counts) returns (roots: seq<Path>)
    ensures |roots| <= |counts| && NoDup(roots) && NoNesting(roots)
    ensures forall r :: r in roots ==> Full(counts, r)
    ensures forall d :: Full(counts, d) ==> CoveredBy(roots, d)
  {
    hide Sorted, Covering, Full, NoNesting, NoDup;
    var keys := Sorted(counts.Keys);
    roots := [];
    CoverNone(counts, keys);
    for i := 0 to |keys|
      invariant Covering(counts, keys, i, roots)
    {
      if Full(counts, keys[i]) && !(exists r | r in roots :: r < keys[i]) {
        KeysAscend(counts, i, roots);
        CoverAdd(counts, keys, i, roots);
        roots := roots + [keys[i]];
      } else {
        CoverSkip(counts, keys, i, roots);
      }
    }
    CoverAll(counts, roots);
  }

  lemma CoverNone(counts: Counts, keys: seq<Path>)
    ensures Covering(counts, keys, 0, [])
  {
  }

  lemma CoverAll(counts: Counts, roots: seq<Path>)
    requires Covering(counts, Sorted(counts.Keys), |counts.Keys|, roots)
    ensures |roots| <= |counts| && NoDup(roots) && NoNesting(roots)
    ensures forall r :: r in roots ==> Full(counts, r)
    ensures forall d :: Full(counts, d) ==> CoveredBy(roots, d)
  {
    hide Sorted, NoNesting, NoDup;
    var keys := Sorted(counts.Keys);
    forall d | Full(counts, d) ensures CoveredBy(roots, d) {
      assert d in keys;
      var j :| 0 <= j < |keys| && keys[j] == d;
    }
  }
}
