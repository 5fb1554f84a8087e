/** Each step against the tree: it keeps the tree well formed, is invisible from the paths of the
    other steps, and finds nothing left to do when taken again. */
module EvidenceSteps {
  import opened Effects
  import opened Order
  import opened EvidenceModel
  import opened EvidenceReceiver
  import opened EvidenceFrames

  // ---------- what validity says about the steps ----------

  ghost predicate OpRegular(b: Batch, op: Op) {
    && Clean(OpPath(op))
    && (op.Store? ==> op.item.sha256 == Sha256(op.item.bytes) && |op.item.bytes| <= FILE_LIMIT)
    && (op.Retire? ==> forall d :: d in Containers(b, op.root) ==> Clean(d))
  }

  /** Step `op` cannot change what path `p` shows. */
  ghost predicate Apart(b: Batch, op: Op, p: Path) {
    match op
    case Check(_) => true
    case Store(item) => !(item.path <= p) && !(p < item.path)
    case Erase(id) => !(id.path <= p)
    case Retire(root) => p !in Containers(b, root)
  }

  ghost predicate Independent(b: Batch, earlier: Op, later: Op) {
    && OpPath(earlier) != OpPath(later)
    && (!earlier.Retire? ==> Apart(b, later, OpPath(earlier)))
    && (!later.Retire? ==> Apart(b, earlier, OpPath(later)) && !earlier.Retire?)
    && (earlier.Retire? && later.Retire? ==> !(earlier.root <= later.root) && !(later.root <= earlier.root))
  }

  ghost predicate RegularAt(b: Batch, i: int)
    requires 0 <= i < |Ops(b)|
  {
    OpRegular(b, Ops(b)[i])
  }

  ghost predicate IndependentAt(b: Batch, i: int, j: int)
    requires 0 <= i < j < |Ops(b)|
  {
    Independent(b, Ops(b)[i], Ops(b)[j])
  }

  ghost predicate OffRoot(b: Batch, i: int, root: Path)
    requires 0 <= i < |Ops(b)|
  {
    !Ops(b)[i].Retire? ==> !(OpPath(Ops(b)[i]) <= root)
  }

  /** What the steps of a valid batch have to do with each other. */
  ghost predicate Regular(b: Batch) {
    && (forall i :: 0 <= i < |Ops(b)| ==> RegularAt(b, i))
    && (forall i, j :: 0 <= i < j < |Ops(b)| ==> IndependentAt(b, i, j))
    && (forall i, root :: 0 <= i < |Ops(b)| && root in b.prune ==> OffRoot(b, i, root))
  }

  lemma OpsIndex(b: Batch, i: nat)
    requires i < |Ops(b)|
    ensures |Ops(b)| == |BatchPaths(b)| + |PruneOrder(b)|
    ensures i < |BatchPaths(b)| <==> !Ops(b)[i].Retire?
    ensures i < |BatchPaths(b)| ==> OpPath(Ops(b)[i]) == BatchPaths(b)[i] && BatchPaths(b)[i] in BatchPaths(b)
    ensures |BatchPaths(b)| <= i ==> Ops(b)[i].root == PruneOrder(b)[i - |BatchPaths(b)|] && Ops(b)[i].root in b.prune
    ensures Ops(b)[i].Check? ==> Ops(b)[i].id in b.verify
    ensures Ops(b)[i].Store? ==> Ops(b)[i].item in b.files
    ensures Ops(b)[i].Erase? ==> Ops(b)[i].id in b.delete
  {
    assert |Ops(b)| == |BatchPaths(b)| + |PruneOrder(b)|;
    if |BatchPaths(b)| <= i {
      assert PruneOrder(b)[i - |BatchPaths(b)|] in PruneOrder(b);
    }
  }

  lemma DeletePath(b: Batch, id: Identity)
    requires id in b.delete
    ensures id.path in BatchPaths(b)
  {
    var k :| 0 <= k < |b.delete| && b.delete[k] == id;
    assert BatchPaths(b)[|b.verify| + |b.files| + k] == id.path;
  }

  lemma ItemPaths(b: Batch)
    ensures forall item :: item in b.files ==> item.path in BatchPaths(b)
    ensures forall id :: id in b.verify ==> id.path in BatchPaths(b)
    ensures forall id :: id in b.delete ==> id.path in BatchPaths(b)
  {
    forall item | item in b.files ensures item.path in BatchPaths(b) {
      var k :| 0 <= k < |b.files| && b.files[k] == item;
      assert BatchPaths(b)[|b.verify| + k] == item.path;
    }
    forall id | id in b.verify ensures id.path in BatchPaths(b) {
      var k :| 0 <= k < |b.verify| && b.verify[k] == id;
      assert BatchPaths(b)[k] == id.path;
    }
    forall id | id in b.delete ensures id.path in BatchPaths(b) {
      DeletePath(b, id);
    }
  }

  lemma ContainersFacts(b: Batch, root: Path, d: Path)
    requires d in Containers(b, root)
    ensures root <= d
    ensures exists id :: id in b.delete && d < id.path
  {
    var id, n :| id in b.delete && root <= id.path && |root| <= n < |id.path| && d == id.path[..n];
    assert d < id.path;
  }

  lemma DeletesAreClean(allowed: seq<Path>, b: Batch, id: Identity)
    requires ItemsOk(allowed, b) && id in b.delete
    ensures Clean(id.path)
  {
    assert IdOk(allowed, id);
  }

  lemma ContainersAreClean(allowed: seq<Path>, b: Batch, root: Path, d: Path)
    requires ItemsOk(allowed, b) && d in Containers(b, root) && root != []
    ensures Clean(d)
  {
    ContainersFacts(b, root, d);
    var id :| id in b.delete && d < id.path;
    DeletesAreClean(allowed, b, id);
    assert id.path == d + id.path[|d|..];
  }

  lemma OpIsRegular(allowed: seq<Path>, b: Batch, i: nat)
    requires ItemsOk(allowed, b) && InventoriesOk(allowed, b) && i < |Ops(b)|
    ensures OpRegular(b, Ops(b)[i])
  {
    OpsIndex(b, i);
    var op := Ops(b)[i];
    match op
    case Check(id) => assert IdOk(allowed, id);
    case Store(item) => assert FileOk(allowed, item);
    case Erase(id) => assert IdOk(allowed, id);
    case Retire(root) =>
      assert Relative(root, allowed);
      forall d | d in Containers(b, root) ensures Clean(d) {
        ContainersAreClean(allowed, b, root, d);
      }
  }

  lemma PathsAreDistinct(allowed: seq<Path>, b: Batch, i: nat, j: nat)
    requires ValidBatch(allowed, b) && i < |BatchPaths(b)| && j < |BatchPaths(b)| && i != j
    ensures !(BatchPaths(b)[i] <= BatchPaths(b)[j])
  {
    var q := BatchPaths(b);
    assert q[i] in q && q[j] in q;
    assert q[i] != q[j];
  }

  lemma PathsAvoidContainers(allowed: seq<Path>, b: Batch, p: Path, root: Path)
    requires ValidBatch(allowed, b) && p in BatchPaths(b)
    ensures p !in Containers(b, root)
  {
    if p in Containers(b, root) {
      ContainersFacts(b, root, p);
      var id :| id in b.delete && p < id.path;
      DeletePath(b, id);
    }
  }

  lemma RootsAreApart(allowed: seq<Path>, b: Batch, i: nat, j: nat)
    requires ValidBatch(allowed, b) && i < j < |PruneOrder(b)|
    ensures !(PruneOrder(b)[i] <= PruneOrder(b)[j]) && !(PruneOrder(b)[j] <= PruneOrder(b)[i])
  {
    SortedDistinct((set p | p in b.prune), i, j);
    assert PruneOrder(b)[i] in PruneOrder(b) && PruneOrder(b)[j] in PruneOrder(b);
  }

  lemma OpsAreIndependent(allowed: seq<Path>, b: Batch, i: nat, j: nat)
    requires ValidBatch(allowed, b) && i < j < |Ops(b)|
    ensures Independent(b, Ops(b)[i], Ops(b)[j])
  {
    hide ValidBatch, BatchPaths, Ops, PruneOrder, Containers;
    OpsIndex(b, i);
    OpsIndex(b, j);
    var n := |BatchPaths(b)|;
    if j < n {
      PathsAreDistinct(allowed, b, i, j);
      PathsAreDistinct(allowed, b, j, i);
    } else if i < n {
      PathsAvoidContainers(allowed, b, OpPath(Ops(b)[i]), Ops(b)[j].root);
      PathsAvoidRoots(allowed, b, i, Ops(b)[j].root);
    } else {
      RootsAreApart(allowed, b, i - n, j - n);
    }
  }

  lemma PathsAvoidRoots(allowed: seq<Path>, b: Batch, i: nat, root: Path)
    requires ValidBatch(allowed, b) && i < |BatchPaths(b)| && root in b.prune
    ensures !(BatchPaths(b)[i] <= root)
  {
    assert RetirementOk(b, root);
    var id :| id in b.delete && root < id.path;
    DeletePath(b, id);
    assert BatchPaths(b)[i] in BatchPaths(b);
  }

  lemma RegularOp(b: Batch, i: nat)
    requires Regular(b) && i < |Ops(b)|
    ensures OpRegular(b, Ops(b)[i])
  {
    assert RegularAt(b, i);
  }

  lemma IndependentOps(b: Batch, i: nat, j: nat)
    requires Regular(b) && i < j < |Ops(b)|
    ensures Independent(b, Ops(b)[i], Ops(b)[j])
  {
    assert IndependentAt(b, i, j);
  }

  lemma ValidIsRegular(allowed: seq<Path>, b: Batch)
    requires ValidBatch(allowed, b)
    ensures Regular(b)
  {
    forall i | 0 <= i < |Ops(b)| ensures RegularAt(b, i) { OpIsRegular(allowed, b, i); }
    forall i, j | 0 <= i < j < |Ops(b)| ensures IndependentAt(b, i, j) { OpsAreIndependent(allowed, b, i, j); }
    forall i, root | 0 <= i < |Ops(b)| && root in b.prune ensures OffRoot(b, i, root) {
      OpsIndex(b, i);
      if !Ops(b)[i].Retire? { PathsAvoidRoots(allowed, b, i, root); }
    }
  }

  // ---------- one upload ----------

  lemma StoreFacts(t: Tree, item: Artifact)
    requires WellFormed(t) && Clean(item.path) && Writes(t, item)
    ensures !OpenDir(t, Parent(item.path)).Blocked? && GIT !in Parent(item.path)
    ensures CanHoldFile(MakeDirs(t, Parent(item.path)), item.path)
    ensures WellFormed(StoreTree(t, item))
    ensures OpenDir(StoreTree(t, item), Parent(item.path)).Found?
  {
    var d := Parent(item.path);
    MakeDirsFacts(t, d);
    MakeDirsFrame(t, d, item.path);
    FileKeepsWellFormed(MakeDirs(t, d), item.path, item.bytes);
  }

  lemma StoreFrame(t: Tree, item: Artifact, p: Path)
    requires WellFormed(t) && Clean(item.path) && !(item.path <= p)
    ensures OpenDir(StoreTree(t, item), p).Blocked? <==> OpenDir(t, p).Blocked?
    ensures p != [] && !(p < item.path) ==> ReceiverHash(StoreTree(t, item), p) == ReceiverHash(t, p)
  {
    if Writes(t, item) {
      var d := Parent(item.path);
      StoreFacts(t, item);
      MakeDirsFrame(t, d, p);
      ChangeAside(MakeDirs(t, d), StoreTree(t, item), item.path, p);
      assert p <= d ==> p < item.path;
    }
  }

  /** Making some of the missing ancestors first does not change what the upload does. */
  lemma StoreResumes(t: Tree, item: Artifact, n: nat)
    requires WellFormed(t) && Clean(item.path) && Writes(t, item) && n < |item.path|
    ensures var mid := MakeDirs(t, item.path[..n]);
      WellFormed(mid) && Writes(mid, item) && StoreTree(mid, item) == StoreTree(t, item)
  {
    var d, a := Parent(item.path), item.path[..n];
    StoreFacts(t, item);
    assert a <= d;
    MakeDirsTwice(t, a, d);
    LookupBelow(t, a, d);
    MakeDirsFrame(t, a, item.path);
  }

  // ---------- one deletion ----------

  lemma EraseFrame(t: Tree, blocked: set<Path>, id: Identity, p: Path)
    requires WellFormed(t) && Clean(id.path) && !(id.path <= p)
    ensures WellFormed(EraseTree(t, blocked, id))
    ensures OpenDir(EraseTree(t, blocked, id), p) == OpenDir(t, p)
    ensures p != [] ==> ReceiverHash(EraseTree(t, blocked, id), p) == ReceiverHash(t, p)
  {
    var u := EraseTree(t, blocked, id);
    if u != t {
      FileKeepsWellFormed(t, id.path, []);
      ChangeAside(t, u, id.path, p);
    }
  }

  lemma EraseSettles(t: Tree, blocked: set<Path>, id: Identity)
    requires WellFormed(t) && Clean(id.path)
    ensures WellFormed(EraseTree(t, blocked, id))
    ensures EraseTree(t, blocked, id) != t ==> ReceiverHash(EraseTree(t, blocked, id), id.path).Missing?
  {
    if EraseTree(t, blocked, id) != t {
      FileKeepsWellFormed(t, id.path, []);
    }
  }

  // ---------- one retirement ----------

  ghost predicate AllClean(dirs: seq<Path>) { forall i :: 0 <= i < |dirs| ==> Clean(dirs[i]) }

  lemma PruneEmptyFrame(t: Tree, d: Path, p: Path)
    requires WellFormed(t) && Clean(d)
    ensures WellFormed(PruneEmpty(t, d).0)
    ensures OpenDir(PruneEmpty(t, d).0, p).Blocked? <==> OpenDir(t, p).Blocked?
    ensures p != [] && p != d ==> ReceiverHash(PruneEmpty(t, d).0, p) == ReceiverHash(t, p)
  {
    if PruneEmpty(t, d).0 != t {
      RetireUndoesMake(t, d);
      RetireBlocked(t, d, p);
      if p != d { RetireFrame(t, d, p); }
    }
  }

  lemma PruneAllFrame(t: Tree, dirs: seq<Path>, p: Path)
    requires WellFormed(t) && AllClean(dirs)
    ensures WellFormed(PruneAll(t, dirs).0)
    ensures OpenDir(PruneAll(t, dirs).0, p).Blocked? <==> OpenDir(t, p).Blocked?
    ensures p != [] && p !in dirs ==> ReceiverHash(PruneAll(t, dirs).0, p) == ReceiverHash(t, p)
    decreases |dirs|
  {
    if dirs != [] {
      PruneEmptyFrame(t, dirs[0], p);
      if PruneEmpty(t, dirs[0]).1 {
        PruneAllFrame(PruneEmpty(t, dirs[0]).0, dirs[1..], p);
      }
    }
  }

  /** Pruning only removes directories it was asked to remove. */
  lemma PruneAllShrinks(t: Tree, dirs: seq<Path>, q: Path)
    requires AllClean(dirs)
    ensures q in PruneAll(t, dirs).0 ==> q in t && PruneAll(t, dirs).0[q] == t[q]
    ensures q in t && q !in PruneAll(t, dirs).0 ==> q in dirs && t[q].Directory?
    decreases |dirs|
  {
    if dirs != [] && PruneEmpty(t, dirs[0]).1 {
      PruneAllShrinks(PruneEmpty(t, dirs[0]).0, dirs[1..], q);
    }
  }

  lemma PresentIsReachable(t: Tree, d: Path)
    requires WellFormed(t) && d in t
    ensures !OpenDir(t, Parent(d)).Absent?
    decreases |d|
  {
    if |d| > 1 { PresentIsReachable(t, Parent(d)); }
  }

  /** Once a directory is gone, removing further directories leaves it gone. */
  lemma GoneStaysGone(t: Tree, dirs: seq<Path>, d: Path)
    requires WellFormed(t) && AllClean(dirs) && Clean(d)
    requires PruneEmpty(t, d) == (t, true)
    ensures PruneEmpty(PruneAll(t, dirs).0, d) == (PruneAll(t, dirs).0, true)
  {
    var u := PruneAll(t, dirs).0;
    PruneAllFrame(t, dirs, Parent(d));
    PruneAllShrinks(t, dirs, d);
    if d in t { PresentIsReachable(t, d); }
    assert d !in t;
  }

  lemma EmptiedIsGone(t: Tree, d: Path)
    requires WellFormed(t) && Clean(d) && PruneEmpty(t, d).1
    ensures PruneEmpty(PruneEmpty(t, d).0, d) == (PruneEmpty(t, d).0, true)
  {
    if PruneEmpty(t, d).0 != t {
      RetireUndoesMake(t, d);
    }
  }

  /** Interrupting a retirement after any of its removals and starting over ends the same way. */
  lemma PruneResumes(t: Tree, dirs: seq<Path>, n: nat)
    requires WellFormed(t) && AllClean(dirs) && n <= |dirs|
    ensures WellFormed(PruneAll(t, dirs[..n]).0)
    ensures PruneAll(PruneAll(t, dirs[..n]).0, dirs) == PruneAll(t, dirs)
    decreases n
  {
    PruneAllFrame(t, dirs[..n], []);
    if n > 0 {
      var (u, gone) := PruneEmpty(t, dirs[0]);
      assert dirs[..n][1..] == dirs[1..][..n - 1];
      if gone {
        var mid := PruneAll(u, dirs[1..][..n - 1]).0;
        EmptiedIsGone(t, dirs[0]);
        PruneEmptyFrame(t, dirs[0], []);
        GoneStaysGone(u, dirs[1..][..n - 1], dirs[0]);
        PruneResumes(u, dirs[1..], n - 1);
      }
    } else {
      assert dirs[..0] == [];
    }
  }

  lemma PruneSettles(t: Tree, dirs: seq<Path>)
    requires WellFormed(t) && AllClean(dirs)
    ensures PruneAll(PruneAll(t, dirs).0, dirs) == PruneAll(t, dirs)
  {
    PruneResumes(t, dirs, |dirs|);
    assert dirs[..|dirs|] == dirs;
  }

  ghost predicate Incomparable(a: Path, d: Path) { !(a <= d) && !(d <= a) }

  lemma PruneEmptyAside(t: Tree, c: Path, d: Path)
    requires CanRetire(t, c) && Clean(d) && Incomparable(c, d)
    requires PruneEmpty(t, d).0 == t
    ensures PruneEmpty(t - {c}, d) == (t - {c}, PruneEmpty(t, d).1)
  {
    var u := t - {c};
    ChangeAside(t, u, c, Parent(d));
    if OpenDir(t, Parent(d)).Found? && d in t && HasChild(t, d) {
      var p :| p in t && |p| == |d| + 1 && d < p;
      assert p in u;
    }
  }

  ghost predicate Beside(c: Path, dirs: seq<Path>) {
    forall i :: 0 <= i < |dirs| ==> Incomparable(c, dirs[i])
  }

  lemma PruneAllAside(t: Tree, c: Path, dirs: seq<Path>)
    requires CanRetire(t, c) && AllClean(dirs) && Beside(c, dirs)
    requires PruneAll(t, dirs).0 == t
    ensures PruneAll(t - {c}, dirs) == (t - {c}, PruneAll(t, dirs).1)
    decreases |dirs|
  {
    if dirs != [] {
      var (u, gone) := PruneEmpty(t, dirs[0]);
      if gone {
        PruneAllShrinks(u, dirs[1..], dirs[0]);
        assert u == t;
        PruneAllAside(t, c, dirs[1..]);
      }
      PruneEmptyAside(t, c, dirs[0]);
    }
  }

  /** Retiring `dirs` changes nothing any more, and succeeds or not as told. */
  ghost predicate Finished(t: Tree, dirs: seq<Path>, gone: bool)
    requires AllClean(dirs)
  {
    PruneAll(t, dirs) == (t, gone)
  }

  lemma PruneEmptyBeside(t: Tree, c: Path, dirs: seq<Path>, gone: bool)
    requires WellFormed(t) && AllClean(dirs) && Clean(c) && Beside(c, dirs) && Finished(t, dirs, gone)
    ensures WellFormed(PruneEmpty(t, c).0) && Finished(PruneEmpty(t, c).0, dirs, gone)
  {
    if PruneEmpty(t, c).0 != t {
      PruneAllAside(t, c, dirs);
      RetireUndoesMake(t, c);
    }
  }

  /** Retiring other directories leaves a finished retirement finished. */
  lemma {:induction false} PruneAllBeside(t: Tree, others: seq<Path>, dirs: seq<Path>, gone: bool)
    requires WellFormed(t) && AllClean(dirs) && AllClean(others) && Finished(t, dirs, gone)
    requires forall i :: 0 <= i < |others| ==> Beside(others[i], dirs)
    ensures Finished(PruneAll(t, others).0, dirs, gone)
    decreases |others|
  {
    if others != [] {
      var c, rest := others[0], others[1..];
      var u := PruneEmpty(t, c).0;
      PruneEmptyBeside(t, c, dirs, gone);
      if PruneEmpty(t, c).1 {
        assert forall i :: 0 <= i < |rest| ==> rest[i] == others[i + 1];
        PruneAllBeside(u, rest, dirs, gone);
      }
    }
  }
}
