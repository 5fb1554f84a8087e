/** Directory retirements judged on the tree the receiver held before the exchange: a retirement is acknowledged
    exactly when nothing but its removals, as they were acknowledged, and the directories above them is in its way. */
module EvidenceClearing {
  import opened Effects
  import opened Order
  import opened EvidenceModel
  import opened EvidenceReceiver
  import opened EvidenceFrames
  import opened EvidenceSteps
  import opened EvidenceReplay
  import opened EvidenceReceipt
  import opened EvidenceAgreement
  import opened EvidenceForeign

  /** The entry is a removal of the batch, as the batch knows it. */
  ghost predicate HeldRemoval(b: Batch, t: Tree, q: Path) {
    q in t && t[q].File? && |t[q].bytes| <= FILE_LIMIT && Identity(q, Sha256(t[q].bytes)) in b.delete
  }

  /** An entry at or below `root` that is neither a removal with its digest nor a directory above a removal. */
  ghost predicate InTheWay(b: Batch, t: Tree, root: Path, q: Path) {
    && q in t && root <= q && !HeldRemoval(b, t, q)
    && !(t[q].Directory? && exists id :: id in b.delete && q < id.path)
  }

  ghost predicate Clear(b: Batch, t: Tree, root: Path) { forall q :: !InTheWay(b, t, root, q) }

  /** What application of `b` on `t`, ending in `u` and `r`, did about one retirement. */
  ghost predicate Judged(b: Batch, t: Tree, u: Tree, r: Receipt, root: Path) {
    && (root in r.pruned <==> root !in BlockedRoots(t, b) && Clear(b, t, root))
    && (root in r.pruned <==> root !in r.conflicts)
    && (root in r.pruned ==>
          && (forall q :: q in u ==> !(root <= q))
          && (forall id :: id in b.delete && root <= id.path ==> Has(r.removed, id.path, id.sha256)))
    && (root !in r.pruned ==>
          && (forall q :: InTheWay(b, t, root, q) ==> SameAt(t, u, q))
          && (forall id :: id in b.delete && root <= id.path ==> id.path !in r.removed))
  }

  // ---------- removing a region of directories ----------

  ghost predicate DescendantsFirst(dirs: seq<Path>) {
    forall i, j :: 0 <= i < j < |dirs| ==> !(dirs[i] < dirs[j])
  }

  /** At and below `root` there are only directories, all of them listed. */
  ghost predicate OnlyListed(u: Tree, root: Path, dirs: seq<Path>) {
    forall q :: q in u && root <= q ==> u[q].Directory? && q in dirs
  }

  /** The first directory listed has nothing left in it. */
  lemma FirstIsGone(u: Tree, root: Path, dirs: seq<Path>)
    requires WellFormed(u) && dirs != [] && DescendantsFirst(dirs) && OnlyListed(u, root, dirs) && root <= dirs[0]
    requires dirs[0] != [] && !OpenDir(u, Parent(dirs[0])).Blocked?
    ensures PruneEmpty(u, dirs[0]) == (u - {dirs[0]}, true)
  {
    hide OpenDir;
    var d := dirs[0];
    if d in u {
      PresentIsReachable(u, d);
      assert u[d].Directory?;
    } else {
      assert u - {d} == u;
    }
  }

  lemma {:induction false} PruneClears(u: Tree, root: Path, dirs: seq<Path>)
    requires WellFormed(u) && AllClean(dirs) && DescendantsFirst(dirs) && OnlyListed(u, root, dirs)
    requires forall d :: d in dirs ==> root <= d && !OpenDir(u, Parent(d)).Blocked?
    ensures PruneAll(u, dirs).1 && forall q :: q in PruneAll(u, dirs).0 ==> !(root <= q)
    decreases |dirs|
  {
    hide OpenDir, PruneEmpty, WellFormed;
    if dirs != [] {
      var d, rest := dirs[0], dirs[1..];
      assert d in dirs;
      FirstIsGone(u, root, dirs);
      var v := u - {d};
      assert AllClean(rest) && DescendantsFirst(rest) by {
        assert forall i :: 0 <= i < |rest| ==> rest[i] == dirs[i + 1];
      }
      forall e | e in rest ensures root <= e && !OpenDir(v, Parent(e)).Blocked? {
        PruneEmptyFrame(u, d, Parent(e));
      }
      PruneEmptyFrame(u, d, d);
      forall q | q in v && root <= q ensures v[q].Directory? && q in rest {
        assert q in u && q in dirs && q != d;
      }
      PruneClears(v, root, rest);
    }
  }

  /** Whatever a successful retirement listed is gone. */
  lemma {:induction false} PruneRemoves(u: Tree, dirs: seq<Path>)
    requires WellFormed(u) && AllClean(dirs) && PruneAll(u, dirs).1
    ensures forall d :: d in dirs ==> d !in PruneAll(u, dirs).0
    decreases |dirs|
  {
    hide OpenDir, WellFormed;
    if dirs != [] {
      var d, rest := dirs[0], dirs[1..];
      var v := PruneEmpty(u, d).0;
      assert AllClean(rest) by {
        assert forall i :: 0 <= i < |rest| ==> rest[i] == dirs[i + 1];
      }
      PruneEmptyFrame(u, d, d);
      if d in u { PresentIsReachable(u, d); }
      assert d !in v;
      PruneAllShrinks(v, rest, d);
      PruneRemoves(v, rest);
      forall e | e in dirs ensures e !in PruneAll(u, dirs).0 {
        assert e == d || e in rest;
      }
    }
  }

  lemma OrderDescends(b: Batch, root: Path)
    ensures DescendantsFirst(RetireOrder(b, root))
  {
    hide Containers, Sorted;
    var s := Containers(b, root);
    var n := |Sorted(s)|;
    forall i, j | 0 <= i < j < n ensures !(Reversed(Sorted(s))[i] < Reversed(Sorted(s))[j]) {
      SortedDistinct(s, n - 1 - i, n - 1 - j);
    }
  }

  // ---------- what one step does at or below a retirement root ----------

  lemma NothingSentBelow(allowed: seq<Path>, b: Batch, root: Path, q: Path)
    requires ValidBatch(allowed, b) && root in b.prune && root <= q
    ensures forall item :: item in b.files ==> !(q <= item.path) && !(item.path <= q)
    ensures forall other :: other in b.prune && other <= q ==> other == root
  {
    assert RetirementOk(b, root);
    forall item | item in b.files ensures !(q <= item.path) && !(item.path <= q) {
      if item.path <= q { Comparing(item.path, root, q); }
    }
    forall other | other in b.prune && other <= q ensures other == root { Comparing(other, root, q); }
  }

  lemma Comparing(a: Path, c: Path, p: Path)
    requires a <= p && c <= p
    ensures a <= c || c <= a
    ensures a != c ==> a < c || c < a
  {
  }

  /** At or below a retirement root, a step only takes away: a removal that holds its digest, or a container. */
  ghost predicate Takes(b: Batch, t: Tree, before: Tree, after: Tree, op: Op, root: Path, q: Path) {
    || SameAt(before, after, q)
    || (op.Erase? && q !in after && HeldRemoval(b, t, q))
    || (op == Retire(root) && q !in after && q in before && before[q].Directory? && exists id :: id in b.delete && q < id.path)
  }

  lemma RegionStep(allowed: seq<Path>, b: Batch, t: Tree, k: nat, root: Path, q: Path)
    requires ValidBatch(allowed, b) && WellFormed(t) && k < |Ops(b)| && root in b.prune && root <= q && q != []
    ensures Takes(b, t, StateAt(b, t, k).tree, StateAt(b, t, k + 1).tree, Ops(b)[k], root, q)
  {
    hide *;
    ValidIsRegular(allowed, b);
    StatesWellFormed(b, t, k);
    RegularOp(b, k);
    OpsIndex(b, k);
    WholeStep(b, t, k);
    NothingSentBelow(allowed, b, root, q);
    PartialChange(b, BlockedRoots(t, b), StateAt(b, t, k), Ops(b)[k], StateAt(b, t, k + 1).tree, q);
    if !Ops(b)[k].Retire? { DecidedOnOriginal(b, t, k, k); }
    ChangeTakes(b, t, StateAt(b, t, k), Ops(b)[k], StateAt(b, t, k + 1).tree, root, q);
  }

  lemma ChangeTakes(b: Batch, t: Tree, s: Progress, op: Op, after: Tree, root: Path, q: Path)
    requires Change(b, s, op, after, q) && WellFormed(t) && q != [] && root <= q
    requires forall item :: item in b.files ==> !(q <= item.path) && !(item.path <= q)
    requires forall other :: other in b.prune && other <= q ==> other == root
    requires op.Store? ==> op.item in b.files
    requires op.Erase? ==> op.id in b.delete
    requires op.Retire? ==> op.root in b.prune
    requires !op.Retire? ==> ReceiverHash(s.tree, OpPath(op)) == ReceiverHash(t, OpPath(op))
    ensures Takes(b, t, s.tree, after, op, root, q)
  {
    hide WellFormed, Containers, OpenDir, Writes;
    if op.Erase? && op.id.path == q && ReceiverHash(t, q).Matches(op.id.sha256) {
      HeldIsHere(t, q);
      assert Identity(q, op.id.sha256) == op.id;
    }
    if op.Retire? && q in Containers(b, op.root) { ContainersFacts(b, op.root, q); }
  }

  lemma HeldIsHere(t: Tree, q: Path)
    requires ReceiverHash(t, q).Held?
    ensures q in t && t[q].File? && |t[q].bytes| <= FILE_LIMIT && ReceiverHash(t, q).digest == Sha256(t[q].bytes)
  {
  }

  /** Before its own retirement, the region only lost removals that held their digests. */
  lemma {:induction false} RegionBefore(allowed: seq<Path>, b: Batch, t: Tree, i: nat, k: nat, root: Path, q: Path)
    requires ValidBatch(allowed, b) && WellFormed(t) && k <= i < |Ops(b)| && Ops(b)[i] == Retire(root) && root in b.prune
    requires root <= q && q != []
    ensures SameAt(t, StateAt(b, t, k).tree, q) || (q !in StateAt(b, t, k).tree && HeldRemoval(b, t, q))
    decreases k
  {
    hide Ops, StateAt, WellFormed, ValidBatch, Regular, HeldRemoval;
    if k == 0 {
      EntitledStart(b, t, q);
    } else {
      RegionBefore(allowed, b, t, i, k - 1, root, q);
      RegionStep(allowed, b, t, k - 1, root, q);
      ValidIsRegular(allowed, b);
      IndependentOps(b, k - 1, i);
    }
  }

  /** Nothing in the way is ever touched. */
  lemma {:induction false} RegionAlways(allowed: seq<Path>, b: Batch, t: Tree, k: nat, root: Path, q: Path)
    requires ValidBatch(allowed, b) && WellFormed(t) && k <= |Ops(b)| && root in b.prune && root <= q && q != []
    ensures SameAt(t, StateAt(b, t, k).tree, q) || (q in t && q !in StateAt(b, t, k).tree && !InTheWay(b, t, root, q))
    decreases k
  {
    hide Ops, StateAt, WellFormed, ValidBatch, HeldRemoval;
    if k == 0 {
      EntitledStart(b, t, q);
    } else {
      RegionAlways(allowed, b, t, k - 1, root, q);
      RegionStep(allowed, b, t, k - 1, root, q);
      HeldIsPresent(b, t, q);
    }
  }

  lemma HeldIsPresent(b: Batch, t: Tree, q: Path)
    ensures HeldRemoval(b, t, q) ==> q in t && t[q].File?
  {
  }

  /** After its own retirement the region stays as it is. */
  lemma {:induction false} RegionAfter(allowed: seq<Path>, b: Batch, t: Tree, i: nat, k: nat, root: Path, q: Path)
    requires ValidBatch(allowed, b) && WellFormed(t) && i < k <= |Ops(b)| && Ops(b)[i] == Retire(root) && root in b.prune
    requires root <= q && q != []
    ensures SameAt(StateAt(b, t, i + 1).tree, StateAt(b, t, k).tree, q)
    ensures root in StateAt(b, t, k).receipt.pruned <==> root in StateAt(b, t, i + 1).receipt.pruned
    decreases k
  {
    hide *;
    if k > i + 1 {
      RegionAfter(allowed, b, t, i, k - 1, root, q);
      RegionStep(allowed, b, t, k - 1, root, q);
      ValidIsRegular(allowed, b);
      IndependentOps(b, i, k - 1);
      OpsIndex(b, i);
      OpsIndex(b, k - 1);
      StateStep(b, t, k - 1);
      OtherRetirement(b, Ops(b)[i], Ops(b)[k - 1]);
      StepElsewhere(b, BlockedRoots(t, b), StateAt(b, t, k - 1), Ops(b)[k - 1], root);
      SameThen(b, t, StateAt(b, t, i + 1).tree, StateAt(b, t, k - 1).tree, StateAt(b, t, k).tree, Ops(b)[k - 1], root, q);
    } else {
      SameHere(StateAt(b, t, k).tree, q);
    }
  }

  lemma SameHere(t: Tree, q: Path)
    ensures SameAt(t, t, q)
  {
  }

  lemma OtherRetirement(b: Batch, earlier: Op, later: Op)
    requires Independent(b, earlier, later) && earlier.Retire? && later.Retire?
    ensures later != earlier && OpPath(later) != earlier.root
  {
  }

  lemma SameThen(b: Batch, t: Tree, a: Tree, before: Tree, after: Tree, op: Op, root: Path, q: Path)
    requires SameAt(a, before, q) && Takes(b, t, before, after, op, root, q) && op.Retire? && op != Retire(root)
    ensures SameAt(a, after, q)
  {
  }

  // ---------- a clear region is retired ----------

  lemma Erasable(allowed: seq<Path>, b: Batch, t: Tree, root: Path, id: Identity)
    requires ValidBatch(allowed, b) && WellFormed(t) && root in b.prune && root !in BlockedRoots(t, b) && Clear(b, t, root)
    requires id in b.delete && root <= id.path
    ensures Accepts(b, t, Erase(id))
  {
    hide OpenDir, WellFormed, RootsOk, InventoriesOk, CountsOk, ItemsOk, BatchPaths;
    NothingSentBelow(allowed, b, root, id.path);
    RemovalsDoNotNest(allowed, b, root, id);
    assert !BlockedRoot(t, b, root);
    assert id.path != [];
    if id.path in t {
      PresentIsReachable(t, id.path);
      assert !InTheWay(b, t, root, id.path);
    }
  }

  /** No removal lies above another or at the root, and one path has one digest. */
  lemma RemovalsDoNotNest(allowed: seq<Path>, b: Batch, root: Path, id: Identity)
    requires ValidBatch(allowed, b) && root in b.prune && id in b.delete && root <= id.path
    ensures root < id.path
    ensures forall other :: other in b.delete ==> !(id.path < other.path)
    ensures forall other :: other in b.delete && other.path == id.path ==> other == id
  {
    hide RootsOk, InventoriesOk, CountsOk, ItemsOk;
    ItemPaths(b);
    assert RetirementOk(b, root);
    SentPathsDistinct(b);
    IndexGet(b.delete);
    forall other | other in b.delete && other.path == id.path ensures other == id {
      assert Has(Index(b.delete), id.path, id.sha256) && Has(Index(b.delete), other.path, other.sha256);
    }
  }

  /** When its turn comes, every removal of a clear region is done and acknowledged. */
  lemma RemovalDone(allowed: seq<Path>, b: Batch, t: Tree, i: nat, root: Path, id: Identity)
    requires ValidBatch(allowed, b) && WellFormed(t) && i < |Ops(b)| && Ops(b)[i] == Retire(root) && root in b.prune
    requires root !in BlockedRoots(t, b) && Clear(b, t, root) && id in b.delete && root <= id.path
    ensures Has(StateAt(b, t, i).receipt.removed, id.path, id.sha256) && id.path !in StateAt(b, t, i).tree
  {
    hide *;
    ValidIsRegular(allowed, b);
    Erasable(allowed, b, t, root, id);
    NothingSentBelow(allowed, b, root, id.path);
    var j := IndexOfDelete(b, id);
    OpsIndex(b, i);
    OpsIndex(b, j);
    assert j < i;
    TalliedAt(b, t, j, i);
    AccountedAt(b, t, i);
    DoneStep(b, i);
    NotTakenBack(b, t, StateAt(b, t, i).receipt, i, j, root, id);
    RegularOp(b, j);
    StatesWellFormed(b, t, j);
    BlockedStable(b, t, j);
    VerdictAt(b, t, j);
    StateStep(b, t, j);
    ShownAtOnce(b, BlockedRoots(t, b), StateAt(b, t, j), Ops(b)[j]);
    ShownAfter(b, t, j, i);
    StatesWellFormed(b, t, i);
    CleanRemoval(b, id);
    ShownIsThere(StateAt(b, t, i).tree, id.path);
    MissingIsMissing(ReceiverHash(StateAt(b, t, i).tree, id.path));
  }

  lemma MissingIsMissing(r: Receiver)
    ensures r == Missing ==> r.Missing?
  {
  }

  lemma CleanRemoval(b: Batch, id: Identity)
    requires OpRegular(b, Erase(id))
    ensures id.path != [] && OpPath(Erase(id)) == id.path
  {
  }

  lemma NotTakenBack(b: Batch, t: Tree, r: Receipt, i: nat, j: nat, root: Path, id: Identity)
    requires i < |Ops(b)| && Ops(b)[i] == Retire(root) && j < |Ops(b)| && Ops(b)[j] == Erase(id)
    requires Tallied(b, t, r, j) && Accepts(b, t, Erase(id)) && Accounted(b, r, Done(b, i)) && OpPath(Ops(b)[i]) !in Done(b, i)
    requires forall other :: other in b.prune && other <= id.path ==> other == root
    ensures Has(r.removed, id.path, id.sha256)
  {
    hide Ops, Accepts, Done, SentAs, RemovalOf;
  }

  lemma ClearIsListed(allowed: seq<Path>, b: Batch, t: Tree, i: nat, root: Path)
    requires ValidBatch(allowed, b) && WellFormed(t) && i < |Ops(b)| && Ops(b)[i] == Retire(root) && root in b.prune
    requires root !in BlockedRoots(t, b) && Clear(b, t, root) && root != []
    ensures OnlyListed(StateAt(b, t, i).tree, root, RetireOrder(b, root))
  {
    hide Ops, StateAt, WellFormed, ValidBatch, BlockedRoots, RetireOrder;
    var u := StateAt(b, t, i).tree;
    forall q | q in u && root <= q ensures u[q].Directory? && q in RetireOrder(b, root) {
      RegionBefore(allowed, b, t, i, i, root, q);
      assert !InTheWay(b, t, root, q);
      if HeldRemoval(b, t, q) {
        RemovalDone(allowed, b, t, i, root, Identity(q, Sha256(t[q].bytes)));
      } else {
        var id :| id in b.delete && q < id.path;
        assert q == id.path[..|q|];
        assert q in Containers(b, root);
      }
    }
  }

  lemma ClearIsRetired(allowed: seq<Path>, b: Batch, t: Tree, i: nat, root: Path)
    requires ValidBatch(allowed, b) && WellFormed(t) && i < |Ops(b)| && Ops(b)[i] == Retire(root) && root in b.prune
    requires root !in BlockedRoots(t, b) && Clear(b, t, root)
    ensures root in StateAt(b, t, i + 1).receipt.pruned
    ensures var u := StateAt(b, t, i + 1).tree; forall q :: q in u ==> !(root <= q)
  {
    hide *;
    ValidIsRegular(allowed, b);
    RegularOp(b, i);
    RootIsClean(b, root);
    ClearIsListed(allowed, b, t, i, root);
    OrderDescends(b, root);
    OrderIsClean(b, root, 0);
    StatesWellFormed(b, t, i);
    RetireReady(allowed, b, t, i);
    var u := StateAt(b, t, i).tree;
    forall d | d in RetireOrder(b, root) ensures root <= d && !OpenDir(u, Parent(d)).Blocked? { ContainersFacts(b, root, d); }
    PruneClears(u, root, RetireOrder(b, root));
    forall id | id in b.delete && root <= id.path ensures Has(StateAt(b, t, i).receipt.removed, id.path, id.sha256) {
      RemovalDone(allowed, b, t, i, root, id);
    }
    StateStep(b, t, i);
    RetireSucceeds(b, BlockedRoots(t, b), StateAt(b, t, i), root);
  }

  lemma RootIsClean(b: Batch, root: Path)
    requires OpRegular(b, Retire(root))
    ensures root != [] && forall d :: d in Containers(b, root) ==> d != []
  {
  }

  lemma RetireSucceeds(b: Batch, blocked: set<Path>, s: Progress, root: Path)
    requires root !in blocked && PruneAll(s.tree, RetireOrder(b, root)).1
    requires forall id :: id in b.delete && root <= id.path ==> Has(s.receipt.removed, id.path, id.sha256)
    ensures var n := Step(b, blocked, s, Retire(root));
      root in n.receipt.pruned && n.tree == PruneAll(s.tree, RetireOrder(b, root)).0
  {
    hide PruneAll, RetireOrder;
    assert AllRemoved(b, root, s.receipt.removed);
  }

  lemma RetireReady(allowed: seq<Path>, b: Batch, t: Tree, k: nat)
    requires ValidBatch(allowed, b) && Regular(b) && WellFormed(t) && k < |Ops(b)| && Ops(b)[k].Retire?
    ensures var root := Ops(b)[k].root;
      && root in Containers(b, root)
      && (root !in BlockedRoots(t, b) ==>
            forall d :: d in Containers(b, root) ==> !OpenDir(StateAt(b, t, k).tree, Parent(d)).Blocked?)
  {
    hide Regular, StateAt, Ops, WellFormed, OpenDir, RootsOk, InventoriesOk, CountsOk, ItemsOk;
    OpsIndex(b, k);
    BlockedStable(b, t, k);
    var root, u := Ops(b)[k].root, StateAt(b, t, k).tree;
    assert RetirementOk(b, root);
    var id :| id in b.delete && root < id.path;
    assert root == id.path[..|root|];
    if root !in BlockedRoots(t, b) {
      forall d | d in Containers(b, root) ensures !OpenDir(u, Parent(d)).Blocked? {
        ContainerReachable(b, u, root, d);
      }
    }
  }

  lemma ContainerReachable(b: Batch, u: Tree, root: Path, d: Path)
    requires root in b.prune && root !in BlockedRoots(u, b) && d in Containers(b, root)
    ensures !OpenDir(u, Parent(d)).Blocked?
  {
    hide OpenDir;
    var id, n :| id in b.delete && root <= id.path && |root| <= n < |id.path| && d == id.path[..n];
    assert Parent(d) <= Parent(id.path);
    LookupBelow(u, Parent(d), Parent(id.path));
    assert root < id.path;
  }

  // ---------- a retired region was clear ----------

  /** What a successful retirement step shows. */
  lemma RetiredStep(b: Batch, blocked: set<Path>, s: Progress, root: Path)
    requires root !in s.receipt.pruned && root in Step(b, blocked, s, Retire(root)).receipt.pruned
    ensures root !in blocked && PruneAll(s.tree, RetireOrder(b, root)).1
    ensures Step(b, blocked, s, Retire(root)).tree == PruneAll(s.tree, RetireOrder(b, root)).0
  {
    hide PruneAll, RetireOrder, AllRemoved, Descendants;
  }

  lemma RetiredWasClear(allowed: seq<Path>, b: Batch, t: Tree, i: nat, root: Path, q: Path)
    requires ValidBatch(allowed, b) && WellFormed(t) && i < |Ops(b)| && Ops(b)[i] == Retire(root) && root in b.prune
    requires root in StateAt(b, t, i + 1).receipt.pruned
    ensures root !in BlockedRoots(t, b) && !InTheWay(b, t, root, q)
  {
    hide *;
    ValidIsRegular(allowed, b);
    RegularOp(b, i);
    AccountedAt(b, t, i);
    DoneStep(b, i);
    NotPrunedYet(b, StateAt(b, t, i).receipt, i, root);
    StateStep(b, t, i);
    RetiredStep(b, BlockedRoots(t, b), StateAt(b, t, i), root);
    RootIsClean(b, root);
    StatesWellFormed(b, t, i);
    StatesWellFormed(b, t, i + 1);
    OrderIsClean(b, root, 0);
    RetireReady(allowed, b, t, i);
    var u, order := StateAt(b, t, i).tree, RetireOrder(b, root);
    PruneRemoves(u, order);
    if InTheWay(b, t, root, q) {
      WayIsThere(b, t, root, q);
      RegionBefore(allowed, b, t, i, i, root, q);
      PruneAllShrinks(u, order, q);
      var v := StateAt(b, t, i + 1).tree;
      NothingUnderGone(v, root, q);
      WayIsUntouched(b, t, u, v, root, q);
    }
  }

  lemma NotPrunedYet(b: Batch, r: Receipt, i: nat, root: Path)
    requires i < |Ops(b)| && Ops(b)[i] == Retire(root) && Accounted(b, r, Done(b, i)) && OpPath(Ops(b)[i]) !in Done(b, i)
    ensures root !in r.pruned
  {
    hide Ops, Done, SentAs, RemovalOf;
  }

  lemma NothingUnderGone(v: Tree, root: Path, q: Path)
    requires WellFormed(v) && root !in v && root != [] && root <= q
    ensures q !in v
  {
    hide WellFormed;
    if q in v { DirChain(v, q, root); }
  }

  lemma WayIsThere(b: Batch, t: Tree, root: Path, q: Path)
    requires InTheWay(b, t, root, q)
    ensures root <= q && (root != [] ==> q != [])
  {
  }

  /** The entry in the way is still there when the turn comes, and a retirement takes nothing but containers. */
  lemma WayIsUntouched(b: Batch, t: Tree, u: Tree, v: Tree, root: Path, q: Path)
    requires InTheWay(b, t, root, q)
    requires SameAt(t, u, q) || (q !in u && HeldRemoval(b, t, q))
    requires q in u && q !in v ==> q in RetireOrder(b, root) && u[q].Directory?
    ensures q in v
  {
    hide HeldRemoval, RetireOrder;
    if q in RetireOrder(b, root) { ContainersFacts(b, root, q); }
  }

  // ---------- the verdict ----------

  /** Main result, on the original tree: a retirement is acknowledged, with all its removals and nothing left at or
      below its root, exactly when it is not blocked and nothing is in its way; otherwise it is a conflict, none of
      its removals is acknowledged, and whatever is in the way is as it was. */
  lemma RetirementJudged(allowed: seq<Path>, b: Batch, t: Tree, root: Path)
    requires ValidBatch(allowed, b) && WellFormed(t) && root in b.prune
    ensures Judged(b, t, Uninterrupted(b, t).tree, Uninterrupted(b, t).receipt, root)
  {
    hide *;
    ValidIsRegular(allowed, b);
    var i := RootStep(b, root);
    var n := |Ops(b)|;
    RegularOp(b, i);
    RootIsClean(b, root);
    ReceiptBooks(b, t);
    PrunedAgrees(b, t, Uninterrupted(b, t).receipt, root);
    LastState(b, t);
    RegionAfter(allowed, b, t, i, n, root, root);
    var u, r := Uninterrupted(b, t).tree, Uninterrupted(b, t).receipt;
    if root !in BlockedRoots(t, b) && Clear(b, t, root) {
      ClearIsRetired(allowed, b, t, i, root);
      forall q | q in u ensures !(root <= q) {
        if root <= q {
          RegionAfter(allowed, b, t, i, n, root, q);
          StillAbsent(StateAt(b, t, i + 1).tree, u, q);
        }
      }
    }
    if root in r.pruned {
      RetiredWasClear(allowed, b, t, i, root, root);
      forall q ensures !InTheWay(b, t, root, q) { RetiredWasClear(allowed, b, t, i, root, q); }
      NothingIsClear(b, t, root);
    }
    forall q | InTheWay(b, t, root, q) ensures SameAt(t, u, q) {
      WayIsThere(b, t, root, q);
      RegionAlways(allowed, b, t, n, root, q);
    }
    JudgedSo(b, t, u, r, root);
  }

  lemma LastState(b: Batch, t: Tree)
    ensures Uninterrupted(b, t) == StateAt(b, t, |Ops(b)|)
  {
    hide StateAt, Ops;
  }

  lemma StillAbsent(a: Tree, u: Tree, q: Path)
    requires SameAt(a, u, q)
    ensures q !in a ==> q !in u
  {
  }

  lemma NothingIsClear(b: Batch, t: Tree, root: Path)
    requires forall q :: !InTheWay(b, t, root, q)
    ensures Clear(b, t, root)
  {
    hide InTheWay;
  }

  lemma JudgedSo(b: Batch, t: Tree, u: Tree, r: Receipt, root: Path)
    requires root in r.pruned <==> root !in BlockedRoots(t, b) && Clear(b, t, root)
    requires (root in r.pruned || root in r.conflicts) && (root in r.pruned ==> root !in r.conflicts)
    requires root in r.pruned ==> forall q :: q in u ==> !(root <= q)
    requires forall id :: id in b.delete && root <= id.path ==>
      (root in r.pruned ==> Has(r.removed, id.path, id.sha256)) && (root in r.conflicts ==> id.path !in r.removed)
    requires forall q :: InTheWay(b, t, root, q) ==> SameAt(t, u, q)
    ensures Judged(b, t, u, r, root)
  {
    hide BlockedRoots, Clear, InTheWay, SameAt;
  }
}
