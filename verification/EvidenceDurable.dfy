/** Durability bookkeeping: which acknowledged paths survive a power loss, and why later steps of the
    same application cannot undo that. */
module EvidenceDurable {
  import opened Effects
  import opened Order
  import opened EvidenceModel
  import opened EvidenceReceiver
  import opened EvidenceFrames
  import opened EvidenceSteps
  import opened EvidenceReplay
  import opened EvidenceReceipt

  /** Some entry on the way to `p` is gone, visibly and durably. */
  ghost predicate GoneIn(t: Tree, durable: Tree, p: Path) {
    exists j :: GoneAt(t, durable, p, j)
  }

  ghost predicate GoneAt(t: Tree, durable: Tree, p: Path, j: int) {
    1 <= j <= |p| && p[..j] !in t && p[..j] !in durable
  }

  /** The first `n` entries on the way to `p` are durable as visible. */
  ghost predicate FirmTo(t: Tree, durable: Tree, p: Path, n: int)
    requires n <= |p|
  {
    forall j :: 1 <= j <= n ==> SameAt(t, durable, p[..j])
  }

  /** A synced file: each ancestor is a durable directory and the bytes have digest `d`. */
  ghost predicate HeldDurably(durable: Tree, p: Path, d: Digest) {
    && (forall j :: 1 <= j < |p| ==> p[..j] in durable && durable[p[..j]] == Directory)
    && p in durable && durable[p].File? && Sha256(durable[p].bytes) == d
  }

  ghost predicate GoneDurably(durable: Tree, p: Path) {
    exists j :: 1 <= j <= |p| && p[..j] !in durable
  }

  /** Entries that did not change visibly stay durable if they were. */
  ghost predicate Steady(t: Tree, durable: Tree, t': Tree, durable': Tree) {
    forall q :: SameAt(t, t', q) && SameAt(t, durable, q) ==> SameAt(t', durable', q)
  }

  lemma HeldChain(t: Tree, p: Path, j: nat)
    requires WellFormed(t) && p != [] && ReceiverHash(t, p).Held? && 1 <= j <= |p|
    ensures p[..j] in t && (j < |p| ==> t[p[..j]] == Directory)
  {
    assert p[..|p|] == p;
    DirChain(t, p, p[..j]);
  }

  lemma HeldMeansDurable(t: Tree, durable: Tree, p: Path, d: Digest)
    requires WellFormed(t) && p != [] && ReceiverHash(t, p) == Held(d) && FirmTo(t, durable, p, |p|)
    ensures HeldDurably(durable, p, d)
  {
    forall j | 1 <= j <= |p| ensures p[..j] in durable && durable[p[..j]] == t[p[..j]] && (j < |p| ==> t[p[..j]] == Directory) {
      HeldChain(t, p, j);
      assert SameAt(t, durable, p[..j]);
    }
    assert p[..|p|] == p;
  }

  // ---------- accepted paths keep showing their digest ----------

  ghost predicate AcceptedShown(s: Progress) {
    forall p :: p in s.receipt.accepted ==> p != [] && ReceiverHash(s.tree, p) == Held(s.receipt.accepted[p])
  }

  ghost predicate ClearOf(b: Batch, op: Op, p: Path) {
    p != OpPath(op) && Apart(b, op, p) && AsideDir(op, p)
  }

  lemma AcceptedShownStep(b: Batch, blocked: set<Path>, s: Progress, op: Op)
    requires WellFormed(s.tree) && OpRegular(b, op) && AcceptedShown(s)
    requires forall p :: p in s.receipt.accepted ==> ClearOf(b, op, p)
    ensures AcceptedShown(Step(b, blocked, s, op))
  {
    hide WellFormed, ReceiverHash, StoreTree, EraseTree, RetireTree, Apart, AsideDir;
    var s' := Step(b, blocked, s, op);
    forall p | p in s'.receipt.accepted ensures p != [] && ReceiverHash(s'.tree, p) == Held(s'.receipt.accepted[p]) {
      if p != OpPath(op) {
        assert ClearOf(b, op, p);
        StepFrame(b, blocked, s, op, p);
      } else {
        AcceptedNow(b, blocked, s, op);
      }
    }
  }

  lemma AcceptedNow(b: Batch, blocked: set<Path>, s: Progress, op: Op)
    requires WellFormed(s.tree) && OpRegular(b, op)
    requires OpPath(op) !in s.receipt.accepted
    ensures OpPath(op) != []
    ensures OpPath(op) in Step(b, blocked, s, op).receipt.accepted ==>
      ReceiverHash(Step(b, blocked, s, op).tree, OpPath(op)) == Held(Step(b, blocked, s, op).receipt.accepted[OpPath(op)])
  {
    if op.Store? && Writes(s.tree, op.item) { StoreFacts(s.tree, op.item); }
  }

  lemma AcceptedIsApart(b: Batch, t: Tree, k: nat, p: Path)
    requires Regular(b) && k < |Ops(b)| && p in StateAt(b, t, k).receipt.accepted
    ensures ClearOf(b, Ops(b)[k], p)
  {
    hide Regular, StateAt, Ops, SentAs, Apart;
    AccountedAt(b, t, k);
    var i :| 0 <= i < k && p == OpPath(Ops(b)[i]);
    AcceptedKind(b, t, k, i);
    IndependentOps(b, i, k);
    ApartAside(b, Ops(b)[k], p);
  }

  lemma ApartAside(b: Batch, op: Op, p: Path)
    requires Apart(b, op, p)
    ensures AsideDir(op, p)
  {
  }

  /** Only verifications and uploads are accepted. */
  lemma AcceptedKind(b: Batch, t: Tree, k: nat, i: nat)
    requires Regular(b) && i < k <= |Ops(b)| && OpPath(Ops(b)[i]) in StateAt(b, t, k).receipt.accepted
    ensures !Ops(b)[i].Retire? && !Ops(b)[i].Erase?
  {
    hide Regular, StateAt, Ops;
    AccountedAt(b, t, k);
    var p := OpPath(Ops(b)[i]);
    var d := StateAt(b, t, k).receipt.accepted[p];
    assert SentAs(b, p, d);
    var m := SentStepIndex(b, p, d);
    if m < i { IndependentOps(b, m, i); }
    if i < m { IndependentOps(b, i, m); }
  }

  lemma SentStepIndex(b: Batch, p: Path, d: Digest) returns (i: nat)
    requires SentAs(b, p, d)
    ensures i < |Ops(b)| && OpPath(Ops(b)[i]) == p && !Ops(b)[i].Retire? && !Ops(b)[i].Erase?
  {
    hide PruneOrder;
    if item :| item in b.files && item.path == p && item.sha256 == d {
      var k :| 0 <= k < |b.files| && b.files[k] == item;
      i := |b.verify| + k;
    } else {
      var id :| id in b.verify && id.path == p && id.sha256 == d;
      i :| 0 <= i < |b.verify| && b.verify[i] == id;
    }
  }

  lemma {:induction false} AcceptedShownAt(b: Batch, t: Tree, k: nat)
    requires Regular(b) && WellFormed(t) && k <= |Ops(b)|
    ensures AcceptedShown(StateAt(b, t, k))
  {
    if k == 0 {
      assert Ops(b)[..0] == [];
    } else {
      hide Regular, WellFormed, Ops, Step, StateAt, AcceptedShown, ClearOf, OpRegular;
      AcceptedShownAt(b, t, k - 1);
      StatesWellFormed(b, t, k - 1);
      StateStep(b, t, k - 1);
      RegularOp(b, k - 1);
      var s, op := StateAt(b, t, k - 1), Ops(b)[k - 1];
      forall p | p in s.receipt.accepted ensures ClearOf(b, op, p) {
        AcceptedIsApart(b, t, k - 1, p);
      }
      AcceptedShownStep(b, BlockedRoots(t, b), s, op);
    }
  }

  // ---------- firmness over the steps ----------

  ghost predicate Firm(s: Progress, durable: Tree) {
    && (forall p :: p in s.receipt.accepted ==> FirmTo(s.tree, durable, p, |p|))
    && (forall p :: p in s.receipt.removed ==> GoneIn(s.tree, durable, p))
    && (forall p :: p in s.receipt.pruned ==> GoneIn(s.tree, durable, p))
  }

  lemma AcceptedStaysFirm(t: Tree, d: Tree, t': Tree, d': Tree, p: Path, sha: Digest)
    requires WellFormed(t) && WellFormed(t') && p != []
    requires ReceiverHash(t, p) == Held(sha) && ReceiverHash(t', p) == Held(sha)
    requires FirmTo(t, d, p, |p|) && Steady(t, d, t', d')
    ensures FirmTo(t', d', p, |p|)
  {
    forall j | 1 <= j <= |p| ensures SameAt(t', d', p[..j]) {
      HeldChain(t, p, j);
      HeldChain(t', p, j);
      assert p[..|p|] == p;
      assert SameAt(t, d, p[..j]) && SameAt(t, t', p[..j]);
    }
  }

  lemma GoneStays(t: Tree, d: Tree, t': Tree, d': Tree, p: Path)
    requires GoneIn(t, d, p) && Steady(t, d, t', d')
    requires forall q :: q in t' ==> q in t
    ensures GoneIn(t', d', p)
  {
    var j :| GoneAt(t, d, p, j);
    assert SameAt(t, t', p[..j]) && SameAt(t, d, p[..j]);
    assert GoneAt(t', d', p, j);
  }

  lemma StepShrinks(b: Batch, blocked: set<Path>, s: Progress, op: Op)
    requires OpRegular(b, op) && (op.Erase? || op.Retire?)
    ensures forall q :: q in Step(b, blocked, s, op).tree ==> q in s.tree
  {
    if op.Retire? {
      OrderIsClean(b, op.root, 0);
      forall q | q in RetireTree(s.tree, b, op.root).0 ensures q in s.tree {
        PruneAllShrinks(s.tree, RetireOrder(b, op.root), q);
      }
    }
  }

  /** The step's own new acknowledgements are firm. */
  ghost predicate NewlyFirm(op: Op, s': Progress, durable': Tree) {
    var p := OpPath(op);
    && (p in s'.receipt.accepted ==> FirmTo(s'.tree, durable', p, |p|))
    && (op.Erase? && p in s'.receipt.removed ==> GoneIn(s'.tree, durable', p))
    && (op.Retire? && p in s'.receipt.pruned ==> GoneIn(s'.tree, durable', p))
  }

  lemma FirmStep(b: Batch, blocked: set<Path>, s: Progress, op: Op, d: Tree, d': Tree)
    requires var s' := Step(b, blocked, s, op);
      && WellFormed(s.tree) && WellFormed(s'.tree) && OpRegular(b, op)
      && AcceptedShown(s) && AcceptedShown(s') && Firm(s, d) && Steady(s.tree, d, s'.tree, d') && NewlyFirm(op, s', d')
    requires !op.Erase? && !op.Retire? ==> s.receipt.removed == map[] && s.receipt.pruned == []
    ensures Firm(Step(b, blocked, s, op), d')
  {
    hide WellFormed, ReceiverHash, FirmTo, GoneIn, Steady, StoreTree, EraseTree, RetireTree, OpRegular, Step;
    var s' := Step(b, blocked, s, op);
    forall p | p in s'.receipt.accepted && p != OpPath(op) ensures FirmTo(s'.tree, d', p, |p|) {
      StepElsewhere(b, blocked, s, op, p);
      AcceptedStaysFirm(s.tree, d, s'.tree, d', p, s.receipt.accepted[p]);
    }
    if op.Erase? || op.Retire? {
      StepShrinks(b, blocked, s, op);
    }
    forall p | p in s'.receipt.removed && !(op.Erase? && p == OpPath(op)) ensures GoneIn(s'.tree, d', p) {
      RemovedBefore(b, blocked, s, op, p);
      GoneStays(s.tree, d, s'.tree, d', p);
    }
    forall p | p in s'.receipt.pruned && !(op.Retire? && p == OpPath(op)) ensures GoneIn(s'.tree, d', p) {
      RemovedBefore(b, blocked, s, op, p);
      GoneStays(s.tree, d, s'.tree, d', p);
    }
  }

  lemma RemovedBefore(b: Batch, blocked: set<Path>, s: Progress, op: Op, p: Path)
    ensures p in Step(b, blocked, s, op).receipt.removed && !(op.Erase? && p == OpPath(op)) ==> p in s.receipt.removed
    ensures p in Step(b, blocked, s, op).receipt.pruned && !(op.Retire? && p == OpPath(op)) ==> p in s.receipt.pruned
  {
    hide ReceiverHash, Writes, StoreTree, EraseTree, RetireTree, AllRemoved, Removable;
  }

  /** Removals and retirements are acknowledged only after all uploads. */
  lemma {:induction false} NothingRemovedYet(b: Batch, t: Tree, k: nat)
    requires k <= |b.verify| + |b.files| && k <= |Ops(b)|
    ensures StateAt(b, t, k).receipt.removed == map[] && StateAt(b, t, k).receipt.pruned == []
  {
    hide Step, Ops, StateAt;
    if k == 0 {
      StateZero(b, t);
    } else {
      NothingRemovedYet(b, t, k - 1);
      StateStep(b, t, k - 1);
      UploadsFirst(b, k - 1);
      UploadsRemoveNothing(b, BlockedRoots(t, b), StateAt(b, t, k - 1), Ops(b)[k - 1]);
    }
  }

  lemma StateZero(b: Batch, t: Tree)
    ensures StateAt(b, t, 0) == Start(t, b)
  {
    hide Step, Ops, BlockedRoots;
    assert Ops(b)[..0] == [];
  }

  lemma UploadsRemoveNothing(b: Batch, blocked: set<Path>, s: Progress, op: Op)
    requires op.Check? || op.Store?
    ensures Step(b, blocked, s, op).receipt.removed == s.receipt.removed
    ensures Step(b, blocked, s, op).receipt.pruned == s.receipt.pruned
  {
  }

  lemma FirmNext(b: Batch, t: Tree, k: nat, d: Tree, d': Tree)
    requires Regular(b) && WellFormed(t) && k < |Ops(b)|
    requires Firm(StateAt(b, t, k), d)
    requires Steady(StateAt(b, t, k).tree, d, StateAt(b, t, k + 1).tree, d')
    requires NewlyFirm(Ops(b)[k], StateAt(b, t, k + 1), d')
    ensures Firm(StateAt(b, t, k + 1), d')
  {
    hide Regular, WellFormed, Ops, Step, StateAt, AcceptedShown, OpRegular, Firm, Steady, NewlyFirm;
    StatesWellFormed(b, t, k);
    StatesWellFormed(b, t, k + 1);
    AcceptedShownAt(b, t, k);
    AcceptedShownAt(b, t, k + 1);
    RegularOp(b, k);
    StateStep(b, t, k);
    UploadsFirst(b, k);
    if k < |b.verify| + |b.files| { NothingRemovedYet(b, t, k); }
    FirmStep(b, BlockedRoots(t, b), StateAt(b, t, k), Ops(b)[k], d, d');
  }

  lemma UploadsFirst(b: Batch, k: nat)
    requires k < |b.verify| + |b.files| || k < |Ops(b)|
    ensures k < |Ops(b)| && (k < |b.verify| + |b.files| <==> Ops(b)[k].Check? || Ops(b)[k].Store?)
  {
    hide PruneOrder;
  }
}
