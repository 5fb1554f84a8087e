/** No foreign bytes are lost: at every point of an application, interrupted or not, each entry of the
    receiver is what it was, or one of the changes the batch was entitled to make to it. */
module EvidenceForeign {
  import opened Effects
  import opened Order
  import opened EvidenceModel
  import opened EvidenceReceiver
  import opened EvidenceFrames
  import opened EvidenceSteps
  import opened EvidenceReplay
  import opened EvidenceReceipt

  /** The file at `q` held exactly the digest an upload expected, and now holds that upload. */
  ghost predicate Replaced(b: Batch, t: Tree, u: Tree, q: Path)
    requires q in t && t[q].File?
  {
    exists item :: item in b.files && item.path == q && item.expected == Some(Sha256(t[q].bytes))
                   && q in u && u[q] == File(item.bytes)
  }

  /** The file at `q` held exactly the digest of an acknowledged removal, and is gone. */
  ghost predicate Erased(b: Batch, t: Tree, u: Tree, q: Path)
    requires q in t && t[q].File?
  {
    q !in u && exists id :: id in b.delete && id.path == q && id.sha256 == Sha256(t[q].bytes)
  }

  ghost predicate RetiredDir(b: Batch, q: Path) {
    exists root :: root in b.prune && q in Containers(b, root)
  }

  /** A new entry is an upload that expected nothing, or a directory leading to an upload. */
  ghost predicate Created(b: Batch, u: Tree, q: Path)
    requires q in u
  {
    exists item :: item in b.files
      && ((item.path == q && item.expected == None && u[q] == File(item.bytes)) || (q < item.path && u[q] == Directory))
  }

  ghost predicate Entitled(b: Batch, t: Tree, u: Tree, q: Path) {
    if q in t then
      match t[q]
      case File(_) => SameAt(t, u, q) || Replaced(b, t, u, q) || Erased(b, t, u, q)
      case Directory => SameAt(t, u, q) || (q !in u && RetiredDir(b, q))
      case Other(_) => SameAt(t, u, q)
    else q in u ==> Created(b, u, q)
  }

  // ---------- what one step can do at one path ----------

  ghost predicate Change(b: Batch, s: Progress, op: Op, mid: Tree, q: Path) {
    || SameAt(s.tree, mid, q)
    || (op.Store? && Writes(s.tree, op.item) && q in mid
        && ((q == op.item.path && mid[q] == File(op.item.bytes))
            || (q < op.item.path && q !in s.tree && mid[q] == Directory)))
    || (op.Erase? && q == op.id.path && q !in mid && ReceiverHash(s.tree, q).Matches(op.id.sha256))
    || (op.Retire? && q in Containers(b, op.root) && q in s.tree && s.tree[q].Directory? && q !in mid)
  }

  lemma MadeChange(t: Tree, p: Path, n: nat, q: Path)
    requires n < |p|
    ensures SameAt(t, MakeDirs(t, p[..n]), q)
            || (q < p && q !in t && q in MakeDirs(t, p[..n]) && MakeDirs(t, p[..n])[q] == Directory)
  {
    MakeDirsAt(t, p[..n], q);
    assert q <= p[..n] ==> q < p;
  }

  lemma PrunedChange(b: Batch, t: Tree, root: Path, n: nat, q: Path)
    requires OpRegular(b, Retire(root)) && n <= |RetireOrder(b, root)|
    ensures var mid := PruneAll(t, RetireOrder(b, root)[..n]).0;
      SameAt(t, mid, q) || (q in Containers(b, root) && q in t && t[q].Directory? && q !in mid)
  {
    OrderIsClean(b, root, n);
    var order := RetireOrder(b, root);
    assert forall x :: x in order[..n] ==> x in order;
    PruneAllShrinks(t, order[..n], q);
  }

  lemma PartialChange(b: Batch, blocked: set<Path>, s: Progress, op: Op, mid: Tree, q: Path)
    requires WellFormed(s.tree) && OpRegular(b, op) && Partial(b, blocked, s, op, mid)
    ensures Change(b, s, op, mid, q)
  {
    hide WellFormed, MakeDirs, ReceiverHash, PruneAll, Containers, RetireOrder, AllRemoved, Descendants;
    match op
    case Check(_) =>
    case Store(item) =>
      if mid != s.tree {
        if mid == Step(b, blocked, s, op).tree {
          MadeChange(s.tree, item.path, |item.path| - 1, q);
        } else {
          var n :| PartlyMade(s.tree, item.path, n, mid);
          MadeChange(s.tree, item.path, n, q);
        }
      }
    case Erase(id) =>
    case Retire(root) =>
      if mid != s.tree {
        var n := PrunedCount(b, blocked, s, root, mid);
        PrunedChange(b, s.tree, root, n, q);
      }
  }

  // ---------- entitlement over a whole application ----------

  lemma ShownIsThere(t: Tree, q: Path)
    requires WellFormed(t) && q != []
    ensures ReceiverHash(t, q).Missing? ==> q !in t
    ensures ReceiverHash(t, q).Held? ==> q in t && t[q].File? && ReceiverHash(t, q).digest == Sha256(t[q].bytes)
  {
    if q in t { PresentIsReachable(t, q); }
  }

  lemma EntitledStore(b: Batch, t: Tree, s: Progress, item: Artifact, mid: Tree, q: Path)
    requires WellFormed(t) && NoNesting(BatchPaths(b)) && item in b.files && Clean(item.path)
    requires ReceiverHash(s.tree, item.path) == ReceiverHash(t, item.path)
    requires Entitled(b, t, s.tree, q) && Change(b, s, Store(item), mid, q)
    ensures Entitled(b, t, mid, q)
  {
    hide ReceiverHash, WellFormed;
    ItemPaths(b);
    ShownIsThere(t, item.path);
  }

  lemma EntitledErase(b: Batch, t: Tree, s: Progress, id: Identity, mid: Tree, q: Path)
    requires WellFormed(t) && id in b.delete && Clean(id.path)
    requires ReceiverHash(s.tree, id.path) == ReceiverHash(t, id.path)
    requires Entitled(b, t, s.tree, q) && Change(b, s, Erase(id), mid, q)
    ensures Entitled(b, t, mid, q)
  {
    hide ReceiverHash, WellFormed;
    ShownIsThere(t, id.path);
  }

  lemma EntitledRetire(b: Batch, t: Tree, s: Progress, root: Path, mid: Tree, q: Path)
    requires root in b.prune
    requires Entitled(b, t, s.tree, q) && Change(b, s, Retire(root), mid, q)
    ensures Entitled(b, t, mid, q)
  {
    hide Containers;
  }

  lemma EntitledMidway(allowed: seq<Path>, b: Batch, t: Tree, k: nat, mid: Tree, q: Path)
    requires ValidBatch(allowed, b) && WellFormed(t) && k < |Ops(b)| && Entitled(b, t, StateAt(b, t, k).tree, q)
    requires Partial(b, BlockedRoots(t, b), StateAt(b, t, k), Ops(b)[k], mid)
    ensures Entitled(b, t, mid, q)
  {
    hide StateAt, WellFormed, Ops, Partial, Entitled, ReceiverHash, BlockedRoots, Regular, BatchPaths, Change,
         RootsOk, InventoriesOk, CountsOk, ItemsOk;
    ValidIsRegular(allowed, b);
    StatesWellFormed(b, t, k);
    RegularOp(b, k);
    OpsIndex(b, k);
    var s, op := StateAt(b, t, k), Ops(b)[k];
    PartialChange(b, BlockedRoots(t, b), s, op, mid, q);
    match op
    case Check(_) => UncheckedChange(b, t, s, op, mid, q);
    case Store(item) => DecidedOnOriginal(b, t, k, k); EntitledStore(b, t, s, item, mid, q);
    case Erase(id) => DecidedOnOriginal(b, t, k, k); EntitledErase(b, t, s, id, mid, q);
    case Retire(root) => EntitledRetire(b, t, s, root, mid, q);
  }

  lemma UncheckedChange(b: Batch, t: Tree, s: Progress, op: Op, mid: Tree, q: Path)
    requires op.Check? && Change(b, s, op, mid, q) && Entitled(b, t, s.tree, q)
    ensures Entitled(b, t, mid, q)
  {
  }

  lemma EntitledStart(b: Batch, t: Tree, q: Path)
    ensures StateAt(b, t, 0).tree == t && Entitled(b, t, t, q)
  {
    hide Step, Ops, BlockedRoots;
    assert Ops(b)[..0] == [];
  }

  lemma {:induction false} EntitledAt(allowed: seq<Path>, b: Batch, t: Tree, k: nat, q: Path)
    requires ValidBatch(allowed, b) && WellFormed(t) && k <= |Ops(b)|
    ensures Entitled(b, t, StateAt(b, t, k).tree, q)
    decreases k
  {
    hide *;
    if k == 0 {
      EntitledStart(b, t, q);
    } else {
      EntitledAt(allowed, b, t, k - 1, q);
      WholeStep(b, t, k - 1);
      EntitledMidway(allowed, b, t, k - 1, StateAt(b, t, k).tree, q);
    }
  }

  /** Main result, for every path, at every interruption point inside any step. */
  lemma NoForeignBytesLost(allowed: seq<Path>, b: Batch, t: Tree, k: nat, mid: Tree, q: Path)
    requires ValidBatch(allowed, b) && WellFormed(t) && k < |Ops(b)|
    requires Partial(b, BlockedRoots(t, b), StateAt(b, t, k), Ops(b)[k], mid)
    ensures Entitled(b, t, mid, q)
  {
    hide *;
    EntitledAt(allowed, b, t, k, q);
    EntitledMidway(allowed, b, t, k, mid, q);
  }
}
