/** Crash replay: whatever prefix of its changes an interrupted application left behind, applying
    the same batch again ends in the tree and the receipt of one uninterrupted application. */
module EvidenceReplay {
  import opened Effects
  import opened Order
  import opened EvidenceModel
  import opened EvidenceReceiver
  import opened EvidenceFrames
  import opened EvidenceSteps

  function Start(t: Tree, b: Batch): Progress { Progress(t, EmptyReceipt(b)) }

  /** The receiver after its first `k` steps on tree `t`. */
  function StateAt(b: Batch, t: Tree, k: nat): Progress
    requires k <= |Ops(b)|
  {
    Run(b, BlockedRoots(t, b), Start(t, b), Ops(b)[..k])
  }

  /** One uninterrupted application. */
  function Uninterrupted(b: Batch, t: Tree): Progress {
    StateAt(b, t, |Ops(b)|)
  }

  lemma StateStep(b: Batch, t: Tree, k: nat)
    requires k < |Ops(b)|
    ensures StateAt(b, t, k + 1) == Step(b, BlockedRoots(t, b), StateAt(b, t, k), Ops(b)[k])
  {
    hide Step, Ops, BlockedRoots;
    assert Ops(b)[..k + 1][..k] == Ops(b)[..k];
  }

  // ---------- trees between and inside steps ----------

  /** `mid` is the tree before, after, or at any point inside step `op`. */
  ghost predicate Partial(b: Batch, blocked: set<Path>, s: Progress, op: Op, mid: Tree) {
    || mid == s.tree
    || mid == Step(b, blocked, s, op).tree
    || (op.Store? && Writes(s.tree, op.item) && exists n :: PartlyMade(s.tree, op.item.path, n, mid))
    || (op.Retire? && Retirable(b, blocked, s, op.root) && exists n :: PartlyPruned(b, s.tree, op.root, n, mid))
  }

  /** The first `n` ancestors of `p` have been made. */
  ghost predicate PartlyMade(t: Tree, p: Path, n: int, mid: Tree) {
    0 <= n < |p| && mid == MakeDirs(t, p[..n])
  }

  /** The first `n` directories under `root` have been retired. */
  ghost predicate PartlyPruned(b: Batch, t: Tree, root: Path, n: int, mid: Tree) {
    0 <= n <= |RetireOrder(b, root)| && mid == PruneAll(t, RetireOrder(b, root)[..n]).0
  }

  ghost predicate Retirable(b: Batch, blocked: set<Path>, s: Progress, root: Path) {
    root !in blocked && AllRemoved(b, root, s.receipt.removed)
  }

  ghost predicate AsideDir(op: Op, d: Path) {
    (op.Store? ==> !(op.item.path <= d)) && (op.Erase? ==> !(op.id.path <= d))
  }

  lemma OrderIsClean(b: Batch, root: Path, n: nat)
    requires OpRegular(b, Retire(root)) && n <= |RetireOrder(b, root)|
    ensures AllClean(RetireOrder(b, root)) && AllClean(RetireOrder(b, root)[..n])
  {
    var q := RetireOrder(b, root);
    forall i | 0 <= i < |q| ensures Clean(q[i]) { assert q[i] in q; }
  }

  lemma RetirePartialFrame(b: Batch, t: Tree, root: Path, n: nat, p: Path)
    requires WellFormed(t) && OpRegular(b, Retire(root)) && n <= |RetireOrder(b, root)|
    ensures WellFormed(PruneAll(t, RetireOrder(b, root)[..n]).0)
    ensures OpenDir(PruneAll(t, RetireOrder(b, root)[..n]).0, p).Blocked? <==> OpenDir(t, p).Blocked?
    ensures p != [] && p !in Containers(b, root) ==>
              ReceiverHash(PruneAll(t, RetireOrder(b, root)[..n]).0, p) == ReceiverHash(t, p)
  {
    OrderIsClean(b, root, n);
    var q := RetireOrder(b, root);
    assert forall x :: x in q[..n] ==> x in q;
    PruneAllFrame(t, q[..n], p);
  }

  lemma AncestorOpens(t: Tree, item: Artifact, n: nat)
    requires WellFormed(t) && Clean(item.path) && Writes(t, item) && n < |item.path|
    ensures !OpenDir(t, item.path[..n]).Blocked? && GIT !in item.path[..n]
  {
    StoreFacts(t, item);
    LookupBelow(t, item.path[..n], Parent(item.path));
  }

  lemma StorePartialFrame(t: Tree, item: Artifact, n: nat, p: Path)
    requires WellFormed(t) && Clean(item.path) && Writes(t, item) && n < |item.path|
    ensures WellFormed(MakeDirs(t, item.path[..n]))
    ensures OpenDir(MakeDirs(t, item.path[..n]), p).Blocked? <==> OpenDir(t, p).Blocked?
    ensures p != [] && !(p < item.path) ==> ReceiverHash(MakeDirs(t, item.path[..n]), p) == ReceiverHash(t, p)
  {
    AncestorOpens(t, item, n);
    MakeDirsFacts(t, item.path[..n]);
    MakeDirsFrame(t, item.path[..n], p);
    assert p <= item.path[..n] ==> p < item.path;
  }

  lemma StepFrame(b: Batch, blocked: set<Path>, s: Progress, op: Op, p: Path)
    requires WellFormed(s.tree) && OpRegular(b, op) && AsideDir(op, p)
    ensures var u := Step(b, blocked, s, op).tree;
      && WellFormed(u)
      && (OpenDir(u, p).Blocked? <==> OpenDir(s.tree, p).Blocked?)
      && (p != [] && Apart(b, op, p) ==> ReceiverHash(u, p) == ReceiverHash(s.tree, p))
  {
    hide WellFormed, OpenDir, ReceiverHash, MakeDirs, RetireTree, Containers, AllRemoved, Descendants;
    match op
    case Check(_) =>
    case Store(item) =>
      StoreFrame(s.tree, item, p);
      if Writes(s.tree, item) { StoreFacts(s.tree, item); }
    case Erase(id) => EraseFrame(s.tree, blocked, id, p);
    case Retire(root) => RetireFrameAll(b, s.tree, root, p);
  }

  lemma RetireFrameAll(b: Batch, t: Tree, root: Path, p: Path)
    requires WellFormed(t) && OpRegular(b, Retire(root))
    ensures WellFormed(RetireTree(t, b, root).0)
    ensures OpenDir(RetireTree(t, b, root).0, p).Blocked? <==> OpenDir(t, p).Blocked?
    ensures p != [] && p !in Containers(b, root) ==> ReceiverHash(RetireTree(t, b, root).0, p) == ReceiverHash(t, p)
  {
    var q := RetireOrder(b, root);
    assert q[..|q|] == q;
    RetirePartialFrame(b, t, root, |q|, p);
  }

  lemma StepKeepsWellFormed(b: Batch, blocked: set<Path>, s: Progress, op: Op)
    requires WellFormed(s.tree) && OpRegular(b, op)
    ensures WellFormed(Step(b, blocked, s, op).tree)
  {
    hide Step, WellFormed, OpenDir;
    StepFrame(b, blocked, s, op, []);
  }

  lemma PartialFrame(b: Batch, blocked: set<Path>, s: Progress, op: Op, mid: Tree, p: Path)
    requires WellFormed(s.tree) && OpRegular(b, op) && Partial(b, blocked, s, op, mid) && AsideDir(op, p)
    ensures WellFormed(mid)
    ensures OpenDir(mid, p).Blocked? <==> OpenDir(s.tree, p).Blocked?
    ensures p != [] && Apart(b, op, p) ==> ReceiverHash(mid, p) == ReceiverHash(s.tree, p)
  {
    if mid == s.tree {
    } else if mid == Step(b, blocked, s, op).tree {
      StepFrame(b, blocked, s, op, p);
    } else if op.Store? {
      var n :| PartlyMade(s.tree, op.item.path, n, mid);
      StorePartialFrame(s.tree, op.item, n, p);
    } else {
      var n :| PartlyPruned(b, s.tree, op.root, n, mid);
      RetirePartialFrame(b, s.tree, op.root, n, p);
    }
  }

  lemma StatesWellFormed(b: Batch, t: Tree, k: nat)
    requires Regular(b) && WellFormed(t) && k <= |Ops(b)|
    ensures WellFormed(StateAt(b, t, k).tree)
  {
    hide Regular, WellFormed, Ops, Step, OpRegular;
    if k > 0 {
      RegularOp(b, k - 1);
      StatesWellFormed(b, t, k - 1);
      StateStep(b, t, k - 1);
      StepKeepsWellFormed(b, BlockedRoots(t, b), StateAt(b, t, k - 1), Ops(b)[k - 1]);
    }
  }

  // ---------- the blocked retirements stay the same ----------

  lemma OpsAsideRoot(b: Batch, k: nat, root: Path)
    requires Regular(b) && k < |Ops(b)| && root in b.prune
    ensures AsideDir(Ops(b)[k], root)
  {
    assert OffRoot(b, k, root);
  }

  lemma OpsAsideDelete(b: Batch, k: nat, id: Identity)
    requires Regular(b) && k < |Ops(b)| && id in b.delete
    ensures AsideDir(Ops(b)[k], Parent(id.path))
  {
    var op := Ops(b)[k];
    var j := IndexOfDelete(b, id);
    assert RegularAt(b, j) && RegularAt(b, k);
    if k < j {
      assert IndependentAt(b, k, j);
    } else if j < k {
      assert IndependentAt(b, j, k);
    }
    assert OpPath(op) <= Parent(id.path) ==> OpPath(op) <= id.path && OpPath(op) != id.path;
  }

  lemma IndexOfDelete(b: Batch, id: Identity) returns (j: nat)
    requires id in b.delete
    ensures j < |Ops(b)| && Ops(b)[j] == Erase(id)
  {
    var i :| 0 <= i < |b.delete| && b.delete[i] == id;
    j := |b.verify| + |b.files| + i;
  }

  lemma BlockedRootStep(b: Batch, blocked: set<Path>, s: Progress, k: nat, mid: Tree, root: Path)
    requires Regular(b) && k < |Ops(b)| && WellFormed(s.tree) && Partial(b, blocked, s, Ops(b)[k], mid)
    requires root in b.prune
    ensures BlockedRoot(mid, b, root) <==> BlockedRoot(s.tree, b, root)
  {
    var op := Ops(b)[k];
    assert RegularAt(b, k);
    OpsAsideRoot(b, k, root);
    PartialFrame(b, blocked, s, op, mid, root);
    forall id | id in b.delete
      ensures OpenDir(mid, Parent(id.path)).Blocked? <==> OpenDir(s.tree, Parent(id.path)).Blocked?
    {
      OpsAsideDelete(b, k, id);
      PartialFrame(b, blocked, s, op, mid, Parent(id.path));
    }
  }

  lemma BlockedStep(b: Batch, blocked: set<Path>, s: Progress, k: nat, mid: Tree)
    requires Regular(b) && k < |Ops(b)| && WellFormed(s.tree) && Partial(b, blocked, s, Ops(b)[k], mid)
    ensures BlockedRoots(mid, b) == BlockedRoots(s.tree, b)
  {
    forall root | root in b.prune ensures BlockedRoot(mid, b, root) <==> BlockedRoot(s.tree, b, root) {
      BlockedRootStep(b, blocked, s, k, mid, root);
    }
  }

  lemma BlockedStable(b: Batch, t: Tree, k: nat)
    requires Regular(b) && WellFormed(t) && k <= |Ops(b)|
    ensures BlockedRoots(StateAt(b, t, k).tree, b) == BlockedRoots(t, b)
  {
    hide Regular, WellFormed, Ops, Step, Partial, BlockedRoot;
    if k > 0 {
      BlockedStable(b, t, k - 1);
      StatesWellFormed(b, t, k - 1);
      WholeStep(b, t, k - 1);
      BlockedStep(b, BlockedRoots(t, b), StateAt(b, t, k - 1), k - 1, StateAt(b, t, k).tree);
    }
  }

  // ---------- a step taken stays taken ----------

  /** On tree `t`, step `op` has nothing left to change and turns receipt `r` into `after`. */
  ghost predicate Settled(b: Batch, blocked: set<Path>, op: Op, t: Tree, r: Receipt, after: Receipt) {
    Step(b, blocked, Progress(t, r), op) == Progress(t, after)
  }

  lemma StepSettles(b: Batch, blocked: set<Path>, s: Progress, op: Op)
    requires WellFormed(s.tree) && OpRegular(b, op)
    ensures var u := Step(b, blocked, s, op); Settled(b, blocked, op, u.tree, s.receipt, u.receipt)
  {
    hide WellFormed, OpenDir, PruneAll, MakeDirs, Containers, RetireOrder, AllRemoved, Descendants;
    match op
    case Check(_) =>
    case Store(item) =>
      if Writes(s.tree, item) {
        StoreFacts(s.tree, item);
        StoreShown(s.tree, item);
      }
    case Erase(id) => EraseSettles(s.tree, blocked, id);
    case Retire(root) =>
      OrderIsClean(b, root, 0);
      PruneSettles(s.tree, RetireOrder(b, root));
  }

  lemma StoreShown(t: Tree, item: Artifact)
    requires WellFormed(t) && Clean(item.path) && Writes(t, item)
    requires item.sha256 == Sha256(item.bytes) && |item.bytes| <= FILE_LIMIT
    ensures ReceiverHash(StoreTree(t, item), item.path) == Held(item.sha256)
  {
    StoreFacts(t, item);
  }

  lemma RetiredKept(b: Batch, t: Tree, root: Path, other: Path, n: nat, gone: bool)
    requires WellFormed(t) && OpRegular(b, Retire(root)) && OpRegular(b, Retire(other))
    requires !(root <= other) && !(other <= root) && n <= |RetireOrder(b, other)|
    requires RetireTree(t, b, root) == (t, gone)
    ensures var mid := PruneAll(t, RetireOrder(b, other)[..n]).0; RetireTree(mid, b, root) == (mid, gone)
  {
    OrderIsClean(b, root, 0);
    OrderIsClean(b, other, n);
    var mine, others := RetireOrder(b, root), RetireOrder(b, other)[..n];
    forall i | 0 <= i < |others| ensures Beside(others[i], mine) {
      assert others[i] in RetireOrder(b, other);
      ContainersFacts(b, other, others[i]);
      forall j | 0 <= j < |mine| ensures Incomparable(others[i], mine[j]) {
        assert mine[j] in mine;
        ContainersFacts(b, root, mine[j]);
      }
    }
    assert Finished(t, mine, gone);
    PruneAllBeside(t, others, mine, gone);
  }

  lemma SettledByView(b: Batch, blocked: set<Path>, op: Op, t: Tree, u: Tree, r: Receipt, after: Receipt)
    requires OpRegular(b, op) && !op.Retire? && WellFormed(t)
    requires ReceiverHash(t, OpPath(op)) == ReceiverHash(u, OpPath(op))
    requires Settled(b, blocked, op, t, r, after)
    ensures Settled(b, blocked, op, u, r, after)
  {
    match op
    case Check(_) =>
    case Store(item) =>
      if Writes(t, item) { StoreFacts(t, item); }
    case Erase(id) => EraseSettles(t, blocked, id);
  }

  lemma SettledRetire(b: Batch, blocked: set<Path>, root: Path, r: Receipt, after: Receipt, s: Progress, other: Path, mid: Tree)
    requires WellFormed(s.tree) && OpRegular(b, Retire(root)) && OpRegular(b, Retire(other))
    requires !(root <= other) && !(other <= root)
    requires Settled(b, blocked, Retire(root), s.tree, r, after) && Partial(b, blocked, s, Retire(other), mid)
    ensures Settled(b, blocked, Retire(root), mid, r, after)
  {
    if mid != s.tree && root !in blocked && AllRemoved(b, root, r.removed) {
      var n := PrunedCount(b, blocked, s, other, mid);
      RetiredKept(b, s.tree, root, other, n, RetireTree(s.tree, b, root).1);
    }
  }

  lemma PrunedCount(b: Batch, blocked: set<Path>, s: Progress, root: Path, mid: Tree) returns (n: nat)
    requires Partial(b, blocked, s, Retire(root), mid) && mid != s.tree
    ensures PartlyPruned(b, s.tree, root, n, mid) && Retirable(b, blocked, s, root)
  {
    hide PruneAll, RetireOrder, AllRemoved, Descendants;
    if mid == Step(b, blocked, s, Retire(root)).tree {
      n := |RetireOrder(b, root)|;
      assert RetireOrder(b, root)[..n] == RetireOrder(b, root);
    } else {
      n :| PartlyPruned(b, s.tree, root, n, mid);
    }
  }

  lemma SettledKept(b: Batch, blocked: set<Path>, op: Op, r: Receipt, after: Receipt, s: Progress, later: Op, mid: Tree)
    requires WellFormed(s.tree) && OpRegular(b, op) && OpRegular(b, later) && Independent(b, op, later)
    requires Settled(b, blocked, op, s.tree, r, after) && Partial(b, blocked, s, later, mid)
    ensures Settled(b, blocked, op, mid, r, after)
  {
    if !op.Retire? {
      PartialFrame(b, blocked, s, later, mid, OpPath(op));
      SettledByView(b, blocked, op, s.tree, mid, r, after);
    } else {
      SettledRetire(b, blocked, op.root, r, after, s, later.root, mid);
    }
  }

  /** Step `j`, once taken, is still settled when step `k` has been taken in part. */
  ghost predicate SettledAt(b: Batch, t: Tree, j: nat, u: Tree)
    requires j < |Ops(b)|
  {
    Settled(b, BlockedRoots(t, b), Ops(b)[j], u, StateAt(b, t, j).receipt, StateAt(b, t, j + 1).receipt)
  }

  lemma SettledFirst(b: Batch, t: Tree, j: nat)
    requires Regular(b) && WellFormed(t) && j < |Ops(b)|
    ensures SettledAt(b, t, j, StateAt(b, t, j + 1).tree)
  {
    StatesWellFormed(b, t, j);
    StateStep(b, t, j);
    assert RegularAt(b, j);
    StepSettles(b, BlockedRoots(t, b), StateAt(b, t, j), Ops(b)[j]);
  }

  lemma SettledNext(b: Batch, t: Tree, j: nat, k: nat, mid: Tree)
    requires Regular(b) && WellFormed(t) && j < k < |Ops(b)|
    requires SettledAt(b, t, j, StateAt(b, t, k).tree)
    requires Partial(b, BlockedRoots(t, b), StateAt(b, t, k), Ops(b)[k], mid)
    ensures SettledAt(b, t, j, mid)
  {
    StatesWellFormed(b, t, k);
    assert RegularAt(b, j) && RegularAt(b, k) && IndependentAt(b, j, k);
    SettledKept(b, BlockedRoots(t, b), Ops(b)[j], StateAt(b, t, j).receipt, StateAt(b, t, j + 1).receipt,
                StateAt(b, t, k), Ops(b)[k], mid);
  }

  lemma WholeStep(b: Batch, t: Tree, k: nat)
    requires k < |Ops(b)|
    ensures Partial(b, BlockedRoots(t, b), StateAt(b, t, k), Ops(b)[k], StateAt(b, t, k + 1).tree)
  {
    StateStep(b, t, k);
  }

  lemma {:induction false} SettledAtState(b: Batch, t: Tree, j: nat, k: nat)
    requires Regular(b) && WellFormed(t) && j < k <= |Ops(b)|
    ensures SettledAt(b, t, j, StateAt(b, t, k).tree)
    decreases k
  {
    hide *;
    if j == k - 1 {
      SettledFirst(b, t, j);
    } else {
      SettledAtState(b, t, j, k - 1);
      WholeStep(b, t, k - 1);
      SettledNext(b, t, j, k - 1, StateAt(b, t, k).tree);
    }
  }

  // ---------- resuming inside a step ----------

  lemma StepResumes(b: Batch, blocked: set<Path>, s: Progress, op: Op, mid: Tree)
    requires WellFormed(s.tree) && OpRegular(b, op) && Partial(b, blocked, s, op, mid)
    ensures Step(b, blocked, Progress(mid, s.receipt), op) == Step(b, blocked, s, op)
  {
    if mid == s.tree {
    } else if op.Retire? {
      RetireResumes(b, blocked, s, op.root, mid);
    } else if mid == Step(b, blocked, s, op).tree {
      if op.Store? {
        StoreFacts(s.tree, op.item);
      } else {
        EraseSettles(s.tree, blocked, op.id);
      }
    } else {
      var n :| PartlyMade(s.tree, op.item.path, n, mid);
      StoreResumes(s.tree, op.item, n);
    }
  }

  lemma RetireResumes(b: Batch, blocked: set<Path>, s: Progress, root: Path, mid: Tree)
    requires WellFormed(s.tree) && OpRegular(b, Retire(root)) && Partial(b, blocked, s, Retire(root), mid)
    ensures Step(b, blocked, Progress(mid, s.receipt), Retire(root)) == Step(b, blocked, s, Retire(root))
  {
    hide WellFormed, PruneAll, Containers, RetireOrder, OpRegular, Partial, AllRemoved, Descendants;
    if mid != s.tree {
      var n := PrunedCount(b, blocked, s, root, mid);
      OrderIsClean(b, root, n);
      PruneResumes(s.tree, RetireOrder(b, root), n);
    }
  }

  lemma RunLast(b: Batch, blocked: set<Path>, s: Progress, ops: seq<Op>, j: nat)
    requires 0 < j <= |ops|
    ensures Run(b, blocked, s, ops[..j]) == Step(b, blocked, Run(b, blocked, s, ops[..j - 1]), ops[j - 1])
  {
    hide Step;
    assert ops[..j][..j - 1] == ops[..j - 1];
  }

  lemma {:induction false} ReplayPrefix(b: Batch, t: Tree, k: nat, mid: Tree, j: nat)
    requires Regular(b) && WellFormed(t) && j <= k < |Ops(b)|
    requires Partial(b, BlockedRoots(t, b), StateAt(b, t, k), Ops(b)[k], mid)
    ensures Run(b, BlockedRoots(t, b), Start(mid, b), Ops(b)[..j]) == Progress(mid, StateAt(b, t, j).receipt)
  {
    if j > 0 {
      ReplayPrefix(b, t, k, mid, j - 1);
      SettledAtState(b, t, j - 1, k);
      SettledNext(b, t, j - 1, k, mid);
      RunLast(b, BlockedRoots(t, b), Start(mid, b), Ops(b), j);
    }
  }

  lemma ResumedStep(b: Batch, t: Tree, k: nat, mid: Tree)
    requires Regular(b) && WellFormed(t) && k < |Ops(b)|
    requires Partial(b, BlockedRoots(t, b), StateAt(b, t, k), Ops(b)[k], mid)
    ensures Step(b, BlockedRoots(t, b), Progress(mid, StateAt(b, t, k).receipt), Ops(b)[k]) == StateAt(b, t, k + 1)
  {
    StatesWellFormed(b, t, k);
    StateStep(b, t, k);
    assert RegularAt(b, k);
    StepResumes(b, BlockedRoots(t, b), StateAt(b, t, k), Ops(b)[k], mid);
  }

  lemma {:induction false} ReplayRest(b: Batch, t: Tree, k: nat, mid: Tree, j: nat)
    requires Regular(b) && WellFormed(t) && k < j <= |Ops(b)|
    requires Partial(b, BlockedRoots(t, b), StateAt(b, t, k), Ops(b)[k], mid)
    ensures Run(b, BlockedRoots(t, b), Start(mid, b), Ops(b)[..j]) == StateAt(b, t, j)
  {
    hide *;
    RunLast(b, BlockedRoots(t, b), Start(mid, b), Ops(b), j);
    if j == k + 1 {
      ReplayPrefix(b, t, k, mid, k);
      ResumedStep(b, t, k, mid);
    } else {
      ReplayRest(b, t, k, mid, j - 1);
      StateStep(b, t, j - 1);
    }
  }

  /** Main result: resuming from any interruption point gives the uninterrupted tree and receipt. */
  lemma CrashReplay(b: Batch, t: Tree, k: nat, mid: Tree)
    requires Regular(b) && WellFormed(t) && k < |Ops(b)|
    requires Partial(b, BlockedRoots(t, b), StateAt(b, t, k), Ops(b)[k], mid)
    ensures WellFormed(mid) && Uninterrupted(b, mid) == Uninterrupted(b, t)
  {
    StatesWellFormed(b, t, k);
    BlockedStable(b, t, k);
    BlockedStep(b, BlockedRoots(t, b), StateAt(b, t, k), k, mid);
    assert RegularAt(b, k);
    PartialFrame(b, BlockedRoots(t, b), StateAt(b, t, k), Ops(b)[k], mid, []);
    ReplayRest(b, t, k, mid, |Ops(b)|);
  }

  lemma FinishedReplay(b: Batch, t: Tree)
    requires Regular(b) && WellFormed(t)
    ensures WellFormed(Uninterrupted(b, t).tree) && Uninterrupted(b, Uninterrupted(b, t).tree) == Uninterrupted(b, t)
  {
    hide Regular, WellFormed, Ops, Step, Partial;
    var n := |Ops(b)|;
    StatesWellFormed(b, t, n);
    if n > 0 {
      WholeStep(b, t, n - 1);
      CrashReplay(b, t, n - 1, Uninterrupted(b, t).tree);
    }
  }
}
