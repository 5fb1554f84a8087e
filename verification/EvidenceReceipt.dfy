/** What a receipt says: each item is decided on the tree as it was before the exchange, nothing
    foreign is touched, and the sender's consistency check accepts the receiver's receipt. */
module EvidenceReceipt {
  import opened Effects
  import opened Order
  import opened EvidenceModel
  import opened EvidenceReceiver
  import opened EvidenceFrames
  import opened EvidenceSteps
  import opened EvidenceReplay

  // ---------- decisions are taken on the original tree ----------

  lemma {:induction false} DecidedOnOriginal(b: Batch, t: Tree, j: nat, i: nat)
    requires Regular(b) && WellFormed(t) && j <= i < |Ops(b)| && !Ops(b)[i].Retire?
    ensures ReceiverHash(StateAt(b, t, j).tree, OpPath(Ops(b)[i])) == ReceiverHash(t, OpPath(Ops(b)[i]))
    decreases j
  {
    hide Regular, WellFormed, Ops, Step, ReceiverHash;
    if j > 0 {
      DecidedOnOriginal(b, t, j - 1, i);
      StatesWellFormed(b, t, j - 1);
      StateStep(b, t, j - 1);
      RegularOp(b, j - 1);
      RegularOp(b, i);
      IndependentOps(b, j - 1, i);
      StepFrame(b, BlockedRoots(t, b), StateAt(b, t, j - 1), Ops(b)[j - 1], OpPath(Ops(b)[i]));
    }
  }

  /** The verdict on an item, from the original tree alone. */
  predicate Accepts(b: Batch, t: Tree, op: Op) {
    match op
    case Check(id) => ReceiverHash(t, id.path).Matches(id.sha256)
    case Store(item) =>
      var seen := ReceiverHash(t, item.path);
      seen.Matches(item.sha256) || seen.Expected(item.expected)
    case Erase(id) =>
      var seen := ReceiverHash(t, id.path);
      !InBlocked(BlockedRoots(t, b), id.path) && (seen.Missing? || seen.Matches(id.sha256))
    case Retire(_) => true
  }

  lemma VerdictAt(b: Batch, t: Tree, k: nat)
    requires Regular(b) && WellFormed(t) && k < |Ops(b)| && !Ops(b)[k].Retire?
    ensures Accepts(b, StateAt(b, t, k).tree, Ops(b)[k]) <==> Accepts(b, t, Ops(b)[k])
  {
    hide Regular, WellFormed, ReceiverHash, BlockedRoots, StateAt, Ops;
    DecidedOnOriginal(b, t, k, k);
    BlockedStable(b, t, k);
  }

  // ---------- the books kept by the receipt ----------

  /** The paths of the first `k` steps. */
  ghost function Done(b: Batch, k: nat): set<Path>
    requires k <= |Ops(b)|
  {
    set i | 0 <= i < k :: OpPath(Ops(b)[i])
  }

  lemma DoneStep(b: Batch, k: nat)
    requires Regular(b) && k < |Ops(b)|
    ensures Done(b, k + 1) == Done(b, k) + {OpPath(Ops(b)[k])}
    ensures OpPath(Ops(b)[k]) !in Done(b, k)
  {
    hide Regular, Ops, OpPath;
    forall i | 0 <= i < k ensures OpPath(Ops(b)[i]) != OpPath(Ops(b)[k]) {
      IndependentOps(b, i, k);
    }
  }

  predicate Has(m: map<Path, Digest>, p: Path, d: Digest) { p in m && m[p] == d }

  ghost predicate NoneRemoved(b: Batch, root: Path, removed: map<Path, Digest>) {
    forall id :: id in b.delete && root <= id.path ==> id.path !in removed
  }

  /** A removal taken back because its retirement root was refused. */
  predicate TakenBack(b: Batch, r: Receipt, p: Path) {
    exists root | root in b.prune :: root in r.conflicts && root <= p
  }

  ghost predicate Tallied(b: Batch, t: Tree, r: Receipt, i: int)
    requires 0 <= i < |Ops(b)|
  {
    var op := Ops(b)[i];
    match op
    case Check(id) =>
      if Accepts(b, t, op) then Has(r.accepted, id.path, id.sha256) && id.path !in r.conflicts
      else id.path !in r.accepted && id.path in r.conflicts
    case Store(item) =>
      if Accepts(b, t, op) then Has(r.accepted, item.path, item.sha256) && item.path !in r.conflicts
      else item.path !in r.accepted && item.path in r.conflicts
    case Erase(id) =>
      if Accepts(b, t, op) then
        id.path !in r.conflicts && (Has(r.removed, id.path, id.sha256) || (TakenBack(b, r, id.path) && id.path !in r.removed))
      else id.path !in r.removed && id.path in r.conflicts
    case Retire(root) =>
      || (root in r.pruned && root !in r.conflicts && AllRemoved(b, root, r.removed))
      || (root !in r.pruned && root in r.conflicts && NoneRemoved(b, root, r.removed))
  }

  ghost predicate SentAs(b: Batch, p: Path, d: Digest) {
    || (exists item :: item in b.files && item.path == p && item.sha256 == d)
    || (exists id :: id in b.verify && id.path == p && id.sha256 == d)
  }

  ghost predicate RemovalOf(b: Batch, p: Path, d: Digest) {
    exists id :: id in b.delete && id.path == p && id.sha256 == d
  }

  /** The receipt names only paths in `done`, with the batch's own digests. */
  ghost predicate Accounted(b: Batch, r: Receipt, done: set<Path>) {
    && (forall p :: p in r.accepted ==> SentAs(b, p, r.accepted[p]) && p in done)
    && (forall p :: p in r.removed ==> RemovalOf(b, p, r.removed[p]) && p in done)
    && (forall p :: p in r.pruned ==> p in b.prune && p in done)
    && (forall p :: p in r.conflicts ==> p in done)
    && NoDup(r.conflicts) && NoDup(r.pruned)
  }

  lemma AccountAccept(b: Batch, r: Receipt, done: set<Path>, p: Path, d: Digest)
    requires Accounted(b, r, done) && SentAs(b, p, d)
    ensures Accounted(b, Accept(r, p, d), done + {p})
  {
    hide SentAs, RemovalOf;
  }

  lemma AccountRefuse(b: Batch, r: Receipt, done: set<Path>, p: Path, back: set<Path>)
    requires Accounted(b, r, done) && p !in done
    ensures Accounted(b, Refuse(r, p).(removed := r.removed - back), done + {p})
    ensures Accounted(b, Refuse(r, p), done + {p})
  {
    hide SentAs, RemovalOf;
  }

  lemma AccountRemove(b: Batch, r: Receipt, done: set<Path>, p: Path, d: Digest)
    requires Accounted(b, r, done) && RemovalOf(b, p, d)
    ensures Accounted(b, r.(removed := r.removed[p := d]), done + {p})
  {
    hide SentAs, RemovalOf;
  }

  lemma AccountPrune(b: Batch, r: Receipt, done: set<Path>, p: Path)
    requires Accounted(b, r, done) && p in b.prune && p !in done
    ensures Accounted(b, r.(pruned := r.pruned + [p]), done + {p})
  {
    hide SentAs, RemovalOf;
  }

  lemma AccountedStep(b: Batch, blocked: set<Path>, s: Progress, k: nat)
    requires Regular(b) && k < |Ops(b)| && Accounted(b, s.receipt, Done(b, k))
    ensures Accounted(b, Step(b, blocked, s, Ops(b)[k]).receipt, Done(b, k + 1))
  {
    hide Regular, ReceiverHash, Writes, StoreTree, EraseTree, RetireTree, AllRemoved, Removable, Ops, Done, Accounted;
    OpsIndex(b, k);
    DoneStep(b, k);
    var r, done := s.receipt, Done(b, k);
    match Ops(b)[k]
    case Check(id) =>
      AccountAccept(b, r, done, id.path, id.sha256);
      AccountRefuse(b, r, done, id.path, {});
    case Store(item) =>
      AccountAccept(b, r, done, item.path, item.sha256);
      AccountRefuse(b, r, done, item.path, {});
    case Erase(id) =>
      AccountRemove(b, r, done, id.path, id.sha256);
      AccountRefuse(b, r, done, id.path, {});
    case Retire(root) =>
      AccountPrune(b, r, done, root);
      AccountRefuse(b, r, done, root, set id | id in Descendants(b, root) :: id.path);
  }

  lemma {:induction false} AccountedAt(b: Batch, t: Tree, k: nat)
    requires Regular(b) && k <= |Ops(b)|
    ensures Accounted(b, StateAt(b, t, k).receipt, Done(b, k))
  {
    hide *;
    if k == 0 {
      AccountedStart(b, t);
    } else {
      AccountedAt(b, t, k - 1);
      StateStep(b, t, k - 1);
      AccountedStep(b, BlockedRoots(t, b), StateAt(b, t, k - 1), k - 1);
    }
  }

  lemma AccountedStart(b: Batch, t: Tree)
    ensures Accounted(b, StateAt(b, t, 0).receipt, Done(b, 0))
  {
    hide Step, Ops;
    assert Ops(b)[..0] == [];
  }

  lemma TalliedNow(b: Batch, t: Tree, k: nat)
    requires Regular(b) && WellFormed(t) && k < |Ops(b)|
    ensures Tallied(b, t, StateAt(b, t, k + 1).receipt, k)
  {
    hide Regular, WellFormed, StateAt, ReceiverHash, StoreTree, EraseTree, RetireTree, BlockedRoots, Ops, Done;
    StateStep(b, t, k);
    AccountedAt(b, t, k);
    DoneStep(b, k);
    if !Ops(b)[k].Retire? {
      VerdictAt(b, t, k);
      BlockedStable(b, t, k);
    } else {
      OpsIndex(b, k);
    }
  }

  /** What a step does to the books at another path. */
  lemma StepElsewhere(b: Batch, blocked: set<Path>, s: Progress, op: Op, q: Path)
    requires q != OpPath(op)
    ensures var r, r' := s.receipt, Step(b, blocked, s, op).receipt;
      && (q in r'.accepted <==> q in r.accepted) && (q in r.accepted ==> r'.accepted[q] == r.accepted[q])
      && (q in r'.removed ==> q in r.removed && r'.removed[q] == r.removed[q])
      && (q in r'.conflicts <==> q in r.conflicts)
      && (q in r'.pruned <==> q in r.pruned)
      && (q in r.removed && q !in r'.removed ==> op.Retire? && op.root <= q && op.root in r'.conflicts)
      && (forall p :: p in r.conflicts ==> p in r'.conflicts)
  {
    hide ReceiverHash, Writes, StoreTree, EraseTree, RetireTree, AllRemoved, Removable;
  }

  lemma TakenBackKept(b: Batch, blocked: set<Path>, s: Progress, op: Op, q: Path)
    requires q != OpPath(op) && (op.Retire? ==> op.root in b.prune)
    ensures var r, r' := s.receipt, Step(b, blocked, s, op).receipt;
      && (TakenBack(b, r, q) ==> TakenBack(b, r', q))
      && (q in r.removed && q !in r'.removed ==> TakenBack(b, r', q))
  {
    hide Step;
    StepElsewhere(b, blocked, s, op, q);
  }

  lemma RootTallyKept(b: Batch, blocked: set<Path>, s: Progress, root: Path, op: Op)
    requires op.Retire? && !(root <= op.root) && !(op.root <= root)
    ensures var r, r' := s.receipt, Step(b, blocked, s, op).receipt;
      && (AllRemoved(b, root, r.removed) ==> AllRemoved(b, root, r'.removed))
      && (NoneRemoved(b, root, r.removed) ==> NoneRemoved(b, root, r'.removed))
  {
    hide Step;
    forall id | id in b.delete && root <= id.path
      ensures var r, r' := s.receipt, Step(b, blocked, s, op).receipt;
        (id.path in r'.removed <==> id.path in r.removed) && (id.path in r.removed ==> r'.removed[id.path] == r.removed[id.path])
    {
      StepElsewhere(b, blocked, s, op, id.path);
    }
  }

  lemma TalliedKept(b: Batch, t: Tree, blocked: set<Path>, s: Progress, i: nat, k: nat)
    requires Regular(b) && i < k < |Ops(b)| && Tallied(b, t, s.receipt, i)
    ensures Tallied(b, t, Step(b, blocked, s, Ops(b)[k]).receipt, i)
  {
    hide Regular, Accepts, Step, Ops, Apart, TakenBack, AllRemoved, NoneRemoved;
    IndependentOps(b, i, k);
    OpsIndex(b, k);
    StepElsewhere(b, blocked, s, Ops(b)[k], OpPath(Ops(b)[i]));
    if Ops(b)[i].Retire? {
      RootTallyKept(b, blocked, s, Ops(b)[i].root, Ops(b)[k]);
    } else {
      TakenBackKept(b, blocked, s, Ops(b)[k], OpPath(Ops(b)[i]));
    }
  }

  lemma {:induction false} TalliedAt(b: Batch, t: Tree, i: nat, k: nat)
    requires Regular(b) && WellFormed(t) && i < k <= |Ops(b)|
    ensures Tallied(b, t, StateAt(b, t, k).receipt, i)
    decreases k
  {
    hide *;
    if i == k - 1 {
      TalliedNow(b, t, i);
    } else {
      TalliedAt(b, t, i, k - 1);
      StateStep(b, t, k - 1);
      TalliedKept(b, t, BlockedRoots(t, b), StateAt(b, t, k - 1), i, k - 1);
    }
  }
}
