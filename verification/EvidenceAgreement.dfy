/** The sender's check of a receipt, and the two halves agreeing: the receiver's receipt for a valid
    batch always passes it, and says exactly what happened to the tree. */
module EvidenceAgreement {
  import opened Effects
  import opened Order
  import opened EvidenceModel
  import opened EvidenceReceiver
  import opened EvidenceFrames
  import opened EvidenceSteps
  import opened EvidenceReplay
  import opened EvidenceReceipt

  // ---------- the sender's check ----------

  function FileIds(files: seq<Artifact>): (r: seq<Identity>)
    ensures |r| == |files| && forall i | 0 <= i < |r| :: r[i] == Identity(files[i].path, files[i].sha256)
  {
    seq(|files|, i requires 0 <= i < |files| => Identity(files[i].path, files[i].sha256))
  }

  /** Digest by path; a later entry replaces an earlier one. */
  function Index(ids: seq<Identity>): map<Path, Digest> {
    if ids == [] then map[]
    else Index(ids[..|ids| - 1])[ids[|ids| - 1].path := ids[|ids| - 1].sha256]
  }

  function Sent(b: Batch): map<Path, Digest> { Index(FileIds(b.files) + b.verify) }

  function Deleted(b: Batch): map<Path, Digest> { Index(b.delete) }

  predicate AcceptedConsistent(b: Batch, r: Receipt) {
    && (forall p | p in r.accepted :: Has(Sent(b), p, r.accepted[p]) && p !in r.conflicts)
    && (forall p | p in Sent(b) :: Has(r.accepted, p, Sent(b)[p]) || p in r.conflicts)
  }

  predicate RemovedConsistent(b: Batch, r: Receipt) {
    && (forall p | p in r.removed :: Has(Deleted(b), p, r.removed[p]) && p !in r.conflicts)
    && (forall p | p in Deleted(b) :: Has(r.removed, p, Deleted(b)[p]) || p in r.conflicts || TakenBack(b, r, p))
  }

  predicate PrunedConsistent(b: Batch, r: Receipt) {
    && (forall p | p in r.pruned :: p in b.prune && p !in r.conflicts)
    && (forall root | root in b.prune :: root in r.pruned || root in r.conflicts)
    && (forall root, id | root in b.prune && id in b.delete && root <= id.path ::
          && (root in r.pruned ==> Has(r.removed, id.path, id.sha256))
          && (root in r.conflicts ==> id.path !in r.removed))
  }

  predicate ReceiptConsistent(b: Batch, r: Receipt) {
    && NoDup(r.conflicts) && NoDup(r.pruned)
    && AcceptedConsistent(b, r)
    && RemovedConsistent(b, r)
    && PrunedConsistent(b, r)
    && (forall p | p in r.conflicts :: p in Sent(b) || p in Deleted(b) || p in b.prune)
  }

  // ---------- look-up in the indexes ----------

  lemma LastPathIsNew(ids: seq<Identity>)
    requires ids != [] && NoDup(IdPaths(ids))
    ensures forall id :: id in ids[..|ids| - 1] ==> id.path != ids[|ids| - 1].path
  {
    var n := |ids| - 1;
    forall id | id in ids[..n] ensures id.path != ids[n].path {
      var i :| 0 <= i < n && ids[i] == id;
      assert IdPaths(ids)[i] != IdPaths(ids)[n];
    }
  }

  lemma {:induction false} IndexGet(ids: seq<Identity>)
    requires NoDup(IdPaths(ids))
    ensures forall id :: id in ids ==> Has(Index(ids), id.path, id.sha256)
    ensures forall p :: p in Index(ids) ==> exists id :: id in ids && id.path == p && id.sha256 == Index(ids)[p]
  {
    if ids != [] {
      var n := |ids| - 1;
      assert IdPaths(ids[..n]) == IdPaths(ids)[..n];
      IndexGet(ids[..n]);
      assert ids == ids[..n] + [ids[n]];
      LastPathIsNew(ids);
      forall p | p in Index(ids) ensures exists id :: id in ids && id.path == p && id.sha256 == Index(ids)[p] {
        if p == ids[n].path {
          assert ids[n] in ids;
        } else {
          assert p in Index(ids[..n]);
          var id :| id in ids[..n] && id.path == p && id.sha256 == Index(ids[..n])[p];
          assert id in ids;
        }
      }
    }
  }

  lemma SentPathsDistinct(b: Batch)
    requires NoDup(BatchPaths(b))
    ensures NoDup(IdPaths(FileIds(b.files) + b.verify)) && NoDup(IdPaths(b.delete))
  {
    var q, n, m := BatchPaths(b), |b.verify|, |b.files|;
    var s, d := IdPaths(FileIds(b.files) + b.verify), IdPaths(b.delete);
    forall i, j | 0 <= i < j < |s| ensures s[i] != s[j] {
      assert s[i] == q[if i < m then n + i else i - m];
      assert s[j] == q[if j < m then n + j else j - m];
    }
    forall i, j | 0 <= i < j < |d| ensures d[i] != d[j] {
      assert d[i] == q[n + m + i] && d[j] == q[n + m + j];
    }
  }

  lemma SentIndex(b: Batch, p: Path)
    requires NoDup(BatchPaths(b))
    ensures forall d :: SentAs(b, p, d) <==> Has(Sent(b), p, d)
    ensures forall d :: RemovalOf(b, p, d) <==> Has(Deleted(b), p, d)
  {
    SentPathsDistinct(b);
    var ids := FileIds(b.files) + b.verify;
    IndexGet(ids);
    IndexGet(b.delete);
    forall d | SentAs(b, p, d) ensures Identity(p, d) in ids {
      if item :| item in b.files && item.path == p && item.sha256 == d {
        var i :| 0 <= i < |b.files| && b.files[i] == item;
        assert ids[i] == Identity(p, d);
      }
    }
    forall d | Has(Sent(b), p, d) ensures SentAs(b, p, d) {
      var i :| 0 <= i < |ids| && ids[i].path == p && ids[i].sha256 == d;
      if i < |b.files| { assert b.files[i] in b.files; } else { assert ids[i] in b.verify; }
    }
    forall d | RemovalOf(b, p, d) ensures Identity(p, d) in b.delete {}
  }

  // ---------- a complete receipt, item by item ----------

  /** Something sent is accepted with its digest or a conflict, never both. */
  ghost predicate Settled(r: Receipt, p: Path, d: Digest) {
    if p in r.conflicts then p !in r.accepted else Has(r.accepted, p, d)
  }

  /** A removal is acknowledged with its digest, a conflict, or taken back with a refused root above it. */
  ghost predicate RemovalSettled(b: Batch, r: Receipt, id: Identity) {
    if id.path in r.conflicts then id.path !in r.removed
    else if id.path in r.removed then r.removed[id.path] == id.sha256
    else exists root :: root in b.prune && root in r.conflicts && root <= id.path
  }

  /** A root is pruned, with all removals below it acknowledged, or a conflict, with none of them. */
  ghost predicate RootSettled(b: Batch, r: Receipt, root: Path) {
    && (root in r.pruned <==> root !in r.conflicts)
    && forall id :: id in b.delete && root <= id.path ==>
         if root in r.pruned then Has(r.removed, id.path, id.sha256) else id.path !in r.removed
  }

  /** The receipt settles every item of the batch, once, and speaks of nothing else. */
  ghost predicate Settles(b: Batch, r: Receipt) {
    && NoDup(r.conflicts) && NoDup(r.pruned)
    && (forall item :: item in b.files ==> Settled(r, item.path, item.sha256))
    && (forall id :: id in b.verify ==> Settled(r, id.path, id.sha256))
    && (forall id :: id in b.delete ==> RemovalSettled(b, r, id))
    && (forall root :: root in b.prune ==> RootSettled(b, r, root))
    && (forall p :: p in r.accepted ==> p in FilePaths(b.files) || p in IdPaths(b.verify))
    && (forall p :: p in r.removed ==> p in IdPaths(b.delete))
    && (forall p :: p in r.pruned ==> p in b.prune)
    && (forall p :: p in r.conflicts ==> p in BatchPaths(b) || p in b.prune)
  }

  lemma SentIsListed(b: Batch, p: Path)
    requires NoDup(BatchPaths(b))
    ensures p in Sent(b) <==> p in FilePaths(b.files) || p in IdPaths(b.verify)
    ensures p in Deleted(b) <==> p in IdPaths(b.delete)
    ensures p in BatchPaths(b) <==> p in Sent(b) || p in Deleted(b)
  {
    hide BatchPaths, Sent, Deleted, Index;
    SentIndex(b, p);
    ListedIsSent(b, p);
    ListedIsRemoval(b, p);
    JoinedPaths(b, p);
    assert p in Sent(b) ==> Has(Sent(b), p, Sent(b)[p]);
    assert p in Deleted(b) ==> Has(Deleted(b), p, Deleted(b)[p]);
  }

  lemma JoinedPaths(b: Batch, p: Path)
    ensures p in BatchPaths(b) <==> p in FilePaths(b.files) || p in IdPaths(b.verify) || p in IdPaths(b.delete)
  {
  }

  lemma ListedIsSent(b: Batch, p: Path)
    ensures p in FilePaths(b.files) || p in IdPaths(b.verify) <==> exists d :: SentAs(b, p, d)
  {
    hide RemovalOf;
    if p in FilePaths(b.files) {
      var i :| 0 <= i < |b.files| && FilePaths(b.files)[i] == p;
      assert b.files[i] in b.files && SentAs(b, p, b.files[i].sha256);
    }
    if p in IdPaths(b.verify) {
      var i :| 0 <= i < |b.verify| && IdPaths(b.verify)[i] == p;
      assert b.verify[i] in b.verify && SentAs(b, p, b.verify[i].sha256);
    }
    if d :| SentAs(b, p, d) {
      if item :| item in b.files && item.path == p {
        var i :| 0 <= i < |b.files| && b.files[i] == item;
        assert FilePaths(b.files)[i] == p;
      } else {
        var id :| id in b.verify && id.path == p;
        var i :| 0 <= i < |b.verify| && b.verify[i] == id;
        assert IdPaths(b.verify)[i] == p;
      }
    }
  }

  lemma ListedIsRemoval(b: Batch, p: Path)
    ensures p in IdPaths(b.delete) <==> exists d :: RemovalOf(b, p, d)
  {
    if p in IdPaths(b.delete) {
      var i :| 0 <= i < |b.delete| && IdPaths(b.delete)[i] == p;
      assert b.delete[i] in b.delete && RemovalOf(b, p, b.delete[i].sha256);
    }
    if d :| RemovalOf(b, p, d) {
      var id :| id in b.delete && id.path == p;
      var i :| 0 <= i < |b.delete| && b.delete[i] == id;
      assert IdPaths(b.delete)[i] == p;
    }
  }

  lemma ItemIsSent(b: Batch, item: Artifact)
    requires item in b.files && NoDup(BatchPaths(b))
    ensures Has(Sent(b), item.path, item.sha256)
  {
    hide BatchPaths, Sent;
    SentIndex(b, item.path);
    assert SentAs(b, item.path, item.sha256);
  }

  lemma IdIsSent(b: Batch, id: Identity)
    requires NoDup(BatchPaths(b))
    ensures id in b.verify ==> Has(Sent(b), id.path, id.sha256)
    ensures id in b.delete ==> Has(Deleted(b), id.path, id.sha256)
  {
    hide BatchPaths, Sent, Deleted;
    SentIndex(b, id.path);
    assert id in b.verify ==> SentAs(b, id.path, id.sha256);
    assert id in b.delete ==> RemovalOf(b, id.path, id.sha256);
  }

  /** The sender's check passes exactly when the receipt settles the batch item by item. */
  lemma ConsistentIsExact(b: Batch, r: Receipt)
    requires NoDup(BatchPaths(b))
    ensures ReceiptConsistent(b, r) <==> Settles(b, r)
  {
    hide *;
    if ReceiptConsistent(b, r) { ConsistentSettles(b, r); }
    if Settles(b, r) { SettledIsConsistent(b, r); }
  }

  lemma ConsistentSettles(b: Batch, r: Receipt)
    requires NoDup(BatchPaths(b)) && ReceiptConsistent(b, r)
    ensures Settles(b, r)
  {
    hide BatchPaths, Sent, Deleted, NoDup, FilePaths, IdPaths;
    forall p ensures (p in Sent(b) <==> p in FilePaths(b.files) || p in IdPaths(b.verify)) && (p in Deleted(b) <==> p in IdPaths(b.delete))
      && (p in BatchPaths(b) <==> p in Sent(b) || p in Deleted(b)) { SentIsListed(b, p); }
    forall item | item in b.files ensures Settled(r, item.path, item.sha256) { ItemIsSent(b, item); }
    forall id | id in b.verify ensures Settled(r, id.path, id.sha256) { IdIsSent(b, id); }
    forall id | id in b.delete ensures RemovalSettled(b, r, id) { IdIsSent(b, id); }
  }

  lemma SettledIsConsistent(b: Batch, r: Receipt)
    requires NoDup(BatchPaths(b)) && Settles(b, r)
    ensures ReceiptConsistent(b, r)
  {
    hide BatchPaths, Sent, Deleted, NoDup, FilePaths, IdPaths;
    forall p ensures (p in Sent(b) <==> p in FilePaths(b.files) || p in IdPaths(b.verify)) && (p in Deleted(b) <==> p in IdPaths(b.delete))
      && (p in BatchPaths(b) <==> p in Sent(b) || p in Deleted(b)) { SentIsListed(b, p); }
    forall p ensures p in Sent(b) ==> Settled(r, p, Sent(b)[p]) { SentSettled(b, r, p); }
    forall p ensures p in Deleted(b) ==> RemovalSettled(b, r, Identity(p, Deleted(b)[p])) { SentSettled(b, r, p); }
  }

  lemma SentSettled(b: Batch, r: Receipt, p: Path)
    requires NoDup(BatchPaths(b)) && Settles(b, r)
    ensures p in Sent(b) ==> Settled(r, p, Sent(b)[p])
    ensures p in Deleted(b) ==> RemovalSettled(b, r, Identity(p, Deleted(b)[p]))
  {
    hide BatchPaths, Sent, Deleted, NoDup, FilePaths, IdPaths, Settled, RemovalSettled;
    SentIndex(b, p);
    if p in Sent(b) { assert Has(Sent(b), p, Sent(b)[p]) && SentAs(b, p, Sent(b)[p]); }
    if p in Deleted(b) {
      assert Has(Deleted(b), p, Deleted(b)[p]) && RemovalOf(b, p, Deleted(b)[p]);
      assert Identity(p, Deleted(b)[p]) in b.delete;
    }
  }

  // ---------- from items to steps ----------

  lemma SentStep(b: Batch, p: Path, d: Digest) returns (i: nat)
    requires SentAs(b, p, d)
    ensures i < |Ops(b)| && OpPath(Ops(b)[i]) == p
    ensures Ops(b)[i].Check? ==> Ops(b)[i].id.sha256 == d
    ensures Ops(b)[i].Store? ==> Ops(b)[i].item.sha256 == d
    ensures Ops(b)[i].Check? || Ops(b)[i].Store?
  {
    if item :| item in b.files && item.path == p && item.sha256 == d {
      i := FileStep(b, item);
    } else {
      var id :| id in b.verify && id.path == p && id.sha256 == d;
      i := VerifyStep(b, id);
    }
  }

  lemma FileStep(b: Batch, item: Artifact) returns (i: nat)
    requires item in b.files
    ensures i < |Ops(b)| && Ops(b)[i] == Store(item)
  {
    var k :| 0 <= k < |b.files| && b.files[k] == item;
    i := |b.verify| + k;
  }

  lemma VerifyStep(b: Batch, id: Identity) returns (i: nat)
    requires id in b.verify
    ensures i < |Ops(b)| && Ops(b)[i] == Check(id)
  {
    var k :| 0 <= k < |b.verify| && b.verify[k] == id;
    i := k;
  }

  lemma RootStep(b: Batch, root: Path) returns (i: nat)
    requires root in b.prune
    ensures i < |Ops(b)| && Ops(b)[i] == Retire(root)
  {
    assert root in PruneOrder(b);
    var k :| 0 <= k < |PruneOrder(b)| && PruneOrder(b)[k] == root;
    i := |b.verify| + |b.files| + |b.delete| + k;
  }

  // ---------- agreement ----------

  ghost predicate AllTallied(b: Batch, t: Tree, r: Receipt) {
    forall i :: 0 <= i < |Ops(b)| ==> Tallied(b, t, r, i)
  }

  lemma ReceiptBooks(b: Batch, t: Tree)
    requires Regular(b) && WellFormed(t)
    ensures AllTallied(b, t, Uninterrupted(b, t).receipt)
    ensures Accounted(b, Uninterrupted(b, t).receipt, Done(b, |Ops(b)|))
  {
    hide Tallied, Accounted, Regular, WellFormed, StateAt, Ops;
    forall i | 0 <= i < |Ops(b)| ensures Tallied(b, t, Uninterrupted(b, t).receipt, i) {
      TalliedAt(b, t, i, |Ops(b)|);
    }
    AccountedAt(b, t, |Ops(b)|);
  }

  lemma AcceptedAgrees(b: Batch, t: Tree, r: Receipt, p: Path)
    requires NoDup(BatchPaths(b)) && AllTallied(b, t, r) && Accounted(b, r, Done(b, |Ops(b)|))
    ensures p in r.accepted ==> Has(Sent(b), p, r.accepted[p]) && p !in r.conflicts
    ensures p in Sent(b) ==> Has(r.accepted, p, Sent(b)[p]) || p in r.conflicts
  {
    hide Ops, Accepts, TakenBack, AllRemoved, NoneRemoved, Sent, Deleted, BatchPaths, Done, SentAs, RemovalOf;
    SentIndex(b, p);
    if p in r.accepted {
      var i := SentStep(b, p, r.accepted[p]);
      assert Tallied(b, t, r, i);
    }
    if p in Sent(b) {
      assert Has(Sent(b), p, Sent(b)[p]);
      var i := SentStep(b, p, Sent(b)[p]);
      assert Tallied(b, t, r, i);
    }
  }

  lemma RemovedAgrees(b: Batch, t: Tree, r: Receipt, p: Path)
    requires NoDup(BatchPaths(b)) && AllTallied(b, t, r) && Accounted(b, r, Done(b, |Ops(b)|))
    ensures p in r.removed ==> Has(Deleted(b), p, r.removed[p]) && p !in r.conflicts
    ensures p in Deleted(b) ==> Has(r.removed, p, Deleted(b)[p]) || p in r.conflicts || TakenBack(b, r, p)
  {
    hide Ops, Accepts, TakenBack, AllRemoved, NoneRemoved, Sent, Deleted, BatchPaths, Done, SentAs;
    SentIndex(b, p);
    if p in r.removed {
      assert RemovalOf(b, p, r.removed[p]);
      var i := IndexOfDelete(b, Identity(p, r.removed[p]));
      assert Tallied(b, t, r, i);
    }
    if p in Deleted(b) {
      assert Has(Deleted(b), p, Deleted(b)[p]);
      assert RemovalOf(b, p, Deleted(b)[p]);
      var i := IndexOfDelete(b, Identity(p, Deleted(b)[p]));
      assert Tallied(b, t, r, i);
    }
  }

  lemma PrunedAgrees(b: Batch, t: Tree, r: Receipt, root: Path)
    requires AllTallied(b, t, r) && root in b.prune
    ensures root in r.pruned || root in r.conflicts
    ensures root in r.pruned ==> root !in r.conflicts
    ensures forall id :: id in b.delete && root <= id.path ==>
      (root in r.pruned ==> Has(r.removed, id.path, id.sha256)) && (root in r.conflicts ==> id.path !in r.removed)
  {
    hide Ops;
    var i := RootStep(b, root);
    assert Tallied(b, t, r, i);
  }

  lemma ConflictsAgree(b: Batch, t: Tree, r: Receipt, p: Path)
    requires Regular(b) && NoDup(BatchPaths(b)) && Accounted(b, r, Done(b, |Ops(b)|)) && p in r.conflicts
    ensures p in Sent(b) || p in Deleted(b) || p in b.prune
  {
    hide Ops, Regular, Sent, Deleted, BatchPaths;
    var i :| 0 <= i < |Ops(b)| && p == OpPath(Ops(b)[i]);
    OpsIndex(b, i);
    SentIndex(b, p);
    match Ops(b)[i]
    case Check(id) => assert SentAs(b, p, id.sha256);
    case Store(item) => assert SentAs(b, p, item.sha256);
    case Erase(id) => assert RemovalOf(b, p, id.sha256);
    case Retire(_) =>
  }

  /** Main result: whatever the receiver holds, its receipt for a valid batch passes the sender's check. */
  lemma SenderAcceptsReceipt(allowed: seq<Path>, b: Batch, t: Tree)
    requires ValidBatch(allowed, b) && WellFormed(t)
    ensures ReceiptConsistent(b, Uninterrupted(b, t).receipt)
  {
    hide Ops, WellFormed, BatchPaths, Done, Sent, Deleted, Has, TakenBack, Uninterrupted, AllTallied, RootsOk, InventoriesOk, CountsOk, ItemsOk;
    ValidIsRegular(allowed, b);
    ReceiptBooks(b, t);
    var r := Uninterrupted(b, t).receipt;
    assert AcceptedConsistent(b, r) by {
      forall p ensures p in r.accepted ==> Has(Sent(b), p, r.accepted[p]) && p !in r.conflicts { AcceptedAgrees(b, t, r, p); }
      forall p ensures p in Sent(b) ==> Has(r.accepted, p, Sent(b)[p]) || p in r.conflicts { AcceptedAgrees(b, t, r, p); }
    }
    assert RemovedConsistent(b, r) by {
      forall p ensures p in r.removed ==> Has(Deleted(b), p, r.removed[p]) && p !in r.conflicts { RemovedAgrees(b, t, r, p); }
      forall p ensures p in Deleted(b) ==> Has(r.removed, p, Deleted(b)[p]) || p in r.conflicts || TakenBack(b, r, p) {
        RemovedAgrees(b, t, r, p);
      }
    }
    assert PrunedConsistent(b, r) by {
      forall root | root in b.prune
        ensures root in r.pruned || root in r.conflicts
        ensures root in r.pruned ==> root !in r.conflicts
        ensures forall id :: id in b.delete && root <= id.path ==>
          (root in r.pruned ==> Has(r.removed, id.path, id.sha256)) && (root in r.conflicts ==> id.path !in r.removed)
      {
        PrunedAgrees(b, t, r, root);
      }
    }
    forall p | p in r.conflicts ensures p in Sent(b) || p in Deleted(b) || p in b.prune { ConflictsAgree(b, t, r, p); }
  }

  // ---------- what the receipt says about the tree ----------

  lemma {:induction false} ShownAfter(b: Batch, t: Tree, i: nat, k: nat)
    requires Regular(b) && WellFormed(t) && i < k <= |Ops(b)| && !Ops(b)[i].Retire?
    ensures ReceiverHash(StateAt(b, t, k).tree, OpPath(Ops(b)[i])) == ReceiverHash(StateAt(b, t, i + 1).tree, OpPath(Ops(b)[i]))
    decreases k
  {
    hide Regular, WellFormed, Ops, Step, ReceiverHash, StateAt;
    if i + 1 < k {
      ShownAfter(b, t, i, k - 1);
      StatesWellFormed(b, t, k - 1);
      StateStep(b, t, k - 1);
      RegularOp(b, k - 1);
      RegularOp(b, i);
      IndependentOps(b, i, k - 1);
      StepFrame(b, BlockedRoots(t, b), StateAt(b, t, k - 1), Ops(b)[k - 1], OpPath(Ops(b)[i]));
    }
  }

  lemma ShownAtOnce(b: Batch, blocked: set<Path>, s: Progress, op: Op)
    requires WellFormed(s.tree) && OpRegular(b, op) && !op.Retire?
    requires BlockedRoots(s.tree, b) == blocked
    ensures var u := Step(b, blocked, s, op).tree;
      if Accepts(b, s.tree, op) then
        match op
        case Check(id) => ReceiverHash(u, id.path) == Held(id.sha256)
        case Store(item) => ReceiverHash(u, item.path) == Held(item.sha256)
        case Erase(id) => ReceiverHash(u, id.path) == Missing
      else ReceiverHash(u, OpPath(op)) == ReceiverHash(s.tree, OpPath(op))
  {
    match op
    case Check(_) =>
    case Store(item) =>
      if Writes(s.tree, item) { StoreFacts(s.tree, item); }
    case Erase(id) => EraseSettles(s.tree, blocked, id);
  }

  /** Main result: an accepted upload or verification is held with exactly its digest, an accepted
      deletion is gone, and a refused item is a conflict whose path shows what it showed before. */
  lemma ReceiptMatchesTree(b: Batch, t: Tree, i: nat)
    requires Regular(b) && WellFormed(t) && i < |Ops(b)| && !Ops(b)[i].Retire?
    ensures var op, u, r := Ops(b)[i], Uninterrupted(b, t).tree, Uninterrupted(b, t).receipt;
      if Accepts(b, t, op) then
        && OpPath(op) !in r.conflicts
        && (match op
            case Check(id) => ReceiverHash(u, id.path) == Held(id.sha256) && Has(r.accepted, id.path, id.sha256)
            case Store(item) => ReceiverHash(u, item.path) == Held(item.sha256) && Has(r.accepted, item.path, item.sha256)
            case Erase(id) => ReceiverHash(u, id.path) == Missing
                              && (Has(r.removed, id.path, id.sha256) || TakenBack(b, r, id.path)))
      else
        && OpPath(op) in r.conflicts && OpPath(op) !in (if op.Erase? then r.removed else r.accepted)
        && ReceiverHash(u, OpPath(op)) == ReceiverHash(t, OpPath(op))
  {
    hide Regular, WellFormed, Ops, Step, StateAt, BlockedRoots, OpRegular, ReceiverHash, TakenBack;
    var n := |Ops(b)|;
    ShownAfter(b, t, i, n);
    StatesWellFormed(b, t, i);
    BlockedStable(b, t, i);
    VerdictAt(b, t, i);
    DecidedOnOriginal(b, t, i, i);
    RegularOp(b, i);
    ShownAtOnce(b, BlockedRoots(t, b), StateAt(b, t, i), Ops(b)[i]);
    StateStep(b, t, i);
    TalliedAt(b, t, i, n);
  }
}
