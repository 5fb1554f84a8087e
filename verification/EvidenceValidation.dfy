/** Batch validation as both sides run it: names and bounds first, then one pass that collects the
    paths, then the nesting and retirement checks. */
module EvidenceValidation {
  import opened Effects
  import opened Order
  import opened EvidenceModel

  lemma NoDupParts(a: seq<Path>, b: seq<Path>)
    ensures NoDup(a + b) <==> NoDup(a) && NoDup(b) && forall x :: x in a ==> x !in b
  {
    var q := a + b;
    if NoDup(q) {
      forall i, j | 0 <= i < j < |a| ensures a[i] != a[j] { assert q[i] != q[j]; }
      forall i, j | 0 <= i < j < |b| ensures b[i] != b[j] { assert q[|a| + i] != q[|a| + j]; }
      forall i, j | 0 <= i < |a| && 0 <= j < |b| ensures a[i] != b[j] { assert q[i] != q[|a| + j]; }
    }
    if NoDup(a) && NoDup(b) && forall x :: x in a ==> x !in b {
      forall i, j | 0 <= i < j < |q| ensures q[i] != q[j] {
        if i < |a| <= j { assert a[i] in a && b[j - |a|] in b; }
      }
    }
  }

  lemma NoDupSwap(a: seq<Path>, b: seq<Path>, c: seq<Path>)
    ensures NoDup(a + b + c) <==> NoDup(b + a + c)
  {
    NoDupParts(a + b, c);
    NoDupParts(b + a, c);
    NoDupParts(a, b);
    NoDupParts(b, a);
  }

  lemma NoDupExtend(q: seq<Path>, i: nat)
    requires i < |q| && NoDup(q[..i])
    ensures q[i] in q[..i] ==> !NoDup(q)
    ensures q[i] !in q[..i] ==> NoDup(q[..i + 1])
  {
    if q[i] in q[..i] {
      var j :| 0 <= j < i && q[..i][j] == q[i];
      assert q[j] == q[i];
    }
  }

  /** The order in which the pass meets the paths. */
  function Visited(b: Batch): seq<Path> { FilePaths(b.files) + IdPaths(b.verify + b.delete) }

  lemma VisitedIsBatch(b: Batch)
    ensures NoDup(Visited(b)) <==> NoDup(BatchPaths(b))
    ensures forall p :: p in Visited(b) <==> p in BatchPaths(b)
  {
    assert IdPaths(b.verify + b.delete) == IdPaths(b.verify) + IdPaths(b.delete);
    assert Visited(b) == FilePaths(b.files) + IdPaths(b.verify) + IdPaths(b.delete);
    NoDupSwap(FilePaths(b.files), IdPaths(b.verify), IdPaths(b.delete));
  }

  lemma FilesTotalPrefix(q: seq<Artifact>, i: nat)
    requires i <= |q|
    ensures FilesTotal(q[..i]) <= FilesTotal(q)
  {
    if i < |q| {
      assert q[..|q| - 1][..i] == q[..i];
      FilesTotalPrefix(q[..|q| - 1], i);
    } else {
      assert q[..i] == q;
    }
  }

  lemma IdsTotalPrefix(q: seq<Identity>, i: nat)
    requires i <= |q|
    ensures IdsTotal(q[..i]) <= IdsTotal(q)
  {
    if i < |q| {
      assert q[..|q| - 1][..i] == q[..i];
      IdsTotalPrefix(q[..|q| - 1], i);
    } else {
      assert q[..i] == q;
    }
  }

  lemma IdsTotalAppend(a: seq<Identity>, b: seq<Identity>)
    ensures IdsTotal(a + b) == IdsTotal(a) + IdsTotal(b)
  {
    if b == [] {
      assert a + b == a;
    } else {
      assert (a + b)[..|a + b| - 1] == a + b[..|b| - 1];
      IdsTotalAppend(a, b[..|b| - 1]);
    }
  }

  /** What the pass knows once it has met the first `n` paths. */
  ghost predicate Collected(order: seq<Path>, n: nat, paths: set<Path>) {
    n <= |order| && NoDup(order[..n]) && forall p :: p in paths <==> p in order[..n]
  }

  lemma CollectOne(order: seq<Path>, n: nat, paths: set<Path>)
    requires Collected(order, n, paths) && n < |order|
    ensures order[n] in paths ==> !NoDup(order)
    ensures order[n] !in paths ==> Collected(order, n + 1, paths + {order[n]})
  {
    NoDupExtend(order, n);
    assert order[..n + 1] == order[..n] + [order[n]];
  }

  /** The pass over uploaded files. */
  method CollectFiles(allowed: seq<Path>, b: Batch, start: nat) returns (ok: bool, paths: set<Path>, size: nat)
    requires start <= PAYLOAD_LIMIT
    ensures ok ==> (forall item :: item in b.files ==> FileOk(allowed, item)) && Collected(Visited(b), |b.files|, paths)
                   && size == start + FilesTotal(b.files) <= PAYLOAD_LIMIT
    ensures !ok ==> !ItemsOk(allowed, b) || !NoDup(Visited(b)) || start + FilesTotal(b.files) > PAYLOAD_LIMIT
  {
    hide FileOk, IdOk, FileSize;
    ghost var order := Visited(b);
    size, paths := start, {};
    for i := 0 to |b.files|
      invariant Collected(order, i, paths)
      invariant forall j :: 0 <= j < i ==> FileOk(allowed, b.files[j])
      invariant size == start + FilesTotal(b.files[..i]) <= PAYLOAD_LIMIT
    {
      var item := b.files[i];
      assert item in b.files && order[i] == item.path;
      CollectOne(order, i, paths);
      FilesTotalPrefix(b.files, i + 1);
      assert b.files[..i + 1][..i] == b.files[..i];
      if !FileOk(allowed, item) { return false, {}, 0; }
      size := size + FileSize(item);
      if item.path in paths || size > PAYLOAD_LIMIT { return false, {}, 0; }
      paths := paths + {item.path};
    }
    assert b.files[..|b.files|] == b.files;
    ok := true;
  }

  lemma IdsTotalStep(q: seq<Identity>, i: nat)
    requires i < |q|
    ensures IdsTotal(q[..i + 1]) == IdsTotal(q[..i]) + NameSize(q[i].path) <= IdsTotal(q)
  {
    IdsTotalPrefix(q, i + 1);
    assert q[..i + 1][..i] == q[..i];
  }

  lemma VisitedIds(b: Batch)
    ensures |Visited(b)| == |b.files| + |b.verify + b.delete|
    ensures forall i :: 0 <= i < |b.verify + b.delete| ==> Visited(b)[|b.files| + i] == (b.verify + b.delete)[i].path
  {
  }

  /** The pass over verified and deleted identities. */
  method CollectIds(allowed: seq<Path>, b: Batch, start: nat, met: set<Path>) returns (ok: bool, paths: set<Path>)
    requires start <= PAYLOAD_LIMIT && Collected(Visited(b), |b.files|, met)
    ensures ok ==> (forall item :: item in b.verify + b.delete ==> IdOk(allowed, item))
                   && Collected(Visited(b), |Visited(b)|, paths)
                   && start + IdsTotal(b.verify + b.delete) <= PAYLOAD_LIMIT
    ensures !ok ==> !ItemsOk(allowed, b) || !NoDup(Visited(b)) || start + IdsTotal(b.verify + b.delete) > PAYLOAD_LIMIT
  {
    hide FileOk, IdOk, NameSize, Visited, IdsTotal, NoDup;
    VisitedIds(b);
    ghost var order := Visited(b);
    var ids := b.verify + b.delete;
    var size := start;
    paths := met;
    assert IdsTotal(ids[..0]) == 0 by { IdsTotalEmpty(ids); }
    for i := 0 to |ids|
      invariant Collected(order, |b.files| + i, paths)
      invariant forall j :: 0 <= j < i ==> IdOk(allowed, ids[j])
      invariant size == start + IdsTotal(ids[..i]) <= PAYLOAD_LIMIT
    {
      var item := ids[i];
      CollectOne(order, |b.files| + i, paths);
      IdsTotalStep(ids, i);
      if !IdOk(allowed, item) {
        assert item in b.verify || item in b.delete;
        return false, {};
      }
      size := size + NameSize(item.path);
      if item.path in paths || size > PAYLOAD_LIMIT { return false, {}; }
      paths := paths + {item.path};
    }
    assert ids[..|ids|] == ids;
    ok := true;
  }

  lemma IdsTotalEmpty(q: seq<Identity>)
    ensures IdsTotal(q[..0]) == 0
  {
  }

  /** The pass over all items: collects the paths, or stops at the first bad item. */
  method CollectPaths(allowed: seq<Path>, b: Batch, names: nat) returns (ok: bool, paths: set<Path>)
    requires names == NamesTotal(b.omitted) + NamesTotal(b.deferred) + NamesTotal(b.prune) <= PAYLOAD_LIMIT
    ensures ok <==> ItemsOk(allowed, b) && NoDup(BatchPaths(b)) && BatchSize(b) <= PAYLOAD_LIMIT
    ensures ok ==> forall p :: p in paths <==> p in BatchPaths(b)
  {
    hide FileOk, IdOk, NamesTotal, FilesTotal, IdsTotal, BatchPaths, Visited, NoDup;
    VisitedIsBatch(b);
    IdsTotalAppend(b.verify, b.delete);
    var size;
    ok, paths, size := CollectFiles(allowed, b, names);
    if ok {
      ok, paths := CollectIds(allowed, b, size, paths);
      assert Visited(b)[..|Visited(b)|] == Visited(b);
      assert forall item :: item in b.verify + b.delete <==> item in b.verify || item in b.delete;
    }
  }

  lemma NestedByAncestor(paths: set<Path>)
    ensures PrefixFree(paths) <==> forall p, n | p in paths && 0 <= n < |p| :: p[..n] !in paths
  {
    forall p, n | p in paths && 0 <= n < |p| && p[..n] in paths ensures !PrefixFree(paths) {
      assert p[..n] < p;
    }
    forall a, c | a in paths && c in paths && a < c ensures exists p, n :: p in paths && 0 <= n < |p| && p[..n] in paths {
      assert c[..|a|] == a;
    }
  }

  /** The whole validation: the outcome is the structural predicate, and for a valid batch the blocked
      retirements are those whose directories or removals cannot be reached on the pinned tree. */
  method Validate(t: Tree, allowed: seq<Path>, b: Batch) returns (ok: bool, blocked: set<Path>)
    ensures ok <==> ValidBatch(allowed, b)
    ensures ok ==> blocked == BlockedRoots(t, b)
  {
    hide BlockedRoots, BatchPaths, NamesTotal, FilesTotal, IdsTotal, Relative, ScopedRelative, FileOk, IdOk, RetirementOk, NoDup;
    blocked := {};
    if !NonceOk(b.exchangeId) || !RootsOk(allowed) || !InventoriesOk(allowed, b) { return false, {}; }
    if |b.files| + |b.delete| > FILE_COUNT_LIMIT || |b.verify| > INVENTORY_LIMIT
       || |b.prune| > INVENTORY_LIMIT || |b.omitted| + |b.deferred| > INVENTORY_LIMIT { return false, {}; }
    var names := NamesTotal(b.omitted) + NamesTotal(b.deferred) + NamesTotal(b.prune);
    if names > PAYLOAD_LIMIT { return false, {}; }
    blocked := FindBlocked(t, b);
    var good, paths := CollectPaths(allowed, b, names);
    if !good { return false, {}; }
    NestedByAncestor(paths);
    if exists p, n | p in paths && 0 <= n < |p| :: p[..n] in paths { return false, {}; }
    var retirable := CheckRetirements(b);
    if !retirable { return false, {}; }
    ok := true;
  }

  /** The nearest proper ancestor of `path` that is a retirement root, if any. */
  method NearestRoot(b: Batch, path: Path) returns (found: bool, n: nat)
    ensures n <= |path| && (found ==> n < |path| && path[..n] in b.prune)
    ensures forall k :: (if found then n else -1) < k < |path| ==> path[..k] !in b.prune
  {
    n := |path|;
    while n > 0
      invariant n <= |path|
      invariant forall k :: n <= k < |path| ==> path[..k] !in b.prune
    {
      n := n - 1;
      if path[..n] in b.prune { return true, n; }
    }
    found := false;
  }

  lemma Shorter(p: Path, root: Path, n: nat)
    requires root <= p && n <= |p|
    ensures |root| < n ==> root < p[..n]
  {
  }

  ghost predicate UnreachableBelow(t: Tree, b: Batch, id: Identity, root: Path) {
    root in b.prune && root < id.path && OpenDir(t, Parent(id.path)).Blocked?
  }

  /** Roots that cannot be reached, and for each unreachable removal its nearest retirement root. */
  method FindBlocked(t: Tree, b: Batch) returns (blocked: set<Path>)
    ensures NoNesting(b.prune) ==> blocked == BlockedRoots(t, b)
  {
    hide OpenDir;
    blocked := set root | root in b.prune && OpenDir(t, root).Blocked?;
    for i := 0 to |b.delete|
      invariant forall root :: root in blocked ==> root in b.prune && BlockedRoot(t, b, root)
      invariant forall root :: root in b.prune && OpenDir(t, root).Blocked? ==> root in blocked
      invariant NoNesting(b.prune) ==>
        forall j, root :: 0 <= j < i && UnreachableBelow(t, b, b.delete[j], root) ==> root in blocked
    {
      var id := b.delete[i];
      if OpenDir(t, Parent(id.path)).Blocked? {
        var found, n := NearestRoot(b, id.path);
        if found {
          assert id in b.delete && id.path[..n] < id.path;
          blocked := blocked + {id.path[..n]};
        }
        forall root | NoNesting(b.prune) && UnreachableBelow(t, b, id, root) ensures root in blocked {
          assert root == id.path[..|root|];
          Shorter(id.path, root, n);
        }
      }
    }
    forall root | NoNesting(b.prune) && root in b.prune && BlockedRoot(t, b, root) ensures root in blocked {
      if !OpenDir(t, root).Blocked? {
        var id :| id in b.delete && root < id.path && OpenDir(t, Parent(id.path)).Blocked?;
        var j :| 0 <= j < |b.delete| && b.delete[j] == id;
        assert UnreachableBelow(t, b, b.delete[j], root);
      }
    }
  }

  /** Retirement roots: no duplicate, a removal below each, no transferred path at, above or below
      one, and none inside another. */
  method CheckRetirements(b: Batch) returns (ok: bool)
    ensures ok <==> NoDup(b.prune) && NoNesting(b.prune) && forall root | root in b.prune :: RetirementOk(b, root)
  {
    var pruning: set<Path> := {};
    for i := 0 to |b.prune|
      invariant NoDup(b.prune[..i])
      invariant forall p :: p in pruning <==> p in b.prune[..i]
      invariant forall j :: 0 <= j < i ==> RetirementOk(b, b.prune[j])
    {
      var root := b.prune[i];
      NoDupExtend(b.prune, i);
      assert b.prune[..i + 1] == b.prune[..i] + [root];
      if root in pruning || !RetirementOk(b, root) {
        assert root in b.prune;
        return false;
      }
      pruning := pruning + {root};
    }
    assert b.prune[..|b.prune|] == b.prune;
    NestedByAncestor(pruning);
    ok := forall p, n | p in pruning && 0 <= n < |p| :: p[..n] !in pruning;
  }
}
