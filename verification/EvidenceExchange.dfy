/** The sender's checkpoint: prepare a batch or repeat the pending one, adopt a receipt only when it is
    complete, and keep the acknowledged inventory prefix-free over every run. */
module EvidenceExchange {
  import opened Effects
  import opened Order
  import opened EvidenceModel
  import opened EvidenceFrames
  import opened EvidenceReceiver
  import opened EvidenceReplay
  import opened EvidenceReceipt
  import opened EvidenceAgreement
  import opened EvidenceValidation
  import opened EvidenceLedger
  import opened EvidenceCollector
  import opened EvidenceRetirement
  import opened EvidenceDiscovery
  import opened EvidenceAssembly
  import opened EvidenceMirror

  /** The acknowledged inventory: within the roots, well formed, bounded and prefix-free. */
  ghost predicate KnownOk(allowed: seq<Path>, known: Known) {
    && (forall k :: k in known ==> InRoots(k, allowed) && known[k].Sha256?)
    && KnownPrefixFree(allowed, known)
    && |known| <= INVENTORY_LIMIT
  }

  ghost predicate PendingOk(allowed: seq<Path>, known: Known, b: Batch) {
    ValidBatch(allowed, b) && b.exchangeId.Some? && BindsKnown(allowed, known, b)
  }

  ghost predicate CheckpointOk(allowed: seq<Path>, known: Known, cursor: seq<Path>, pending: Option<Batch>) {
    && KnownOk(allowed, known)
    && (forall c :: c in cursor ==> Relative(c, allowed)) && |cursor| <= INVENTORY_LIMIT
    && (pending.Some? ==> PendingOk(allowed, known, pending.value))
  }

  // ---------- a collected batch is ready to send ----------

  lemma ReadyIsValid(allowed: seq<Path>, known: Known, b: Batch, nonce: Bytes)
    requires Ready(allowed, known, b) && KnownOk(allowed, known)
    ensures PendingOk(allowed, known, b.(exchangeId := Some(Nonce(nonce))))
  {
    hide InventoriesOk, CountsOk, ShapeOk, FileOk, IdOk, RootsOk, KnownPrefixFree, NewFiles, Unnested;
    var b' := b.(exchangeId := Some(Nonce(nonce)));
    forall item | item in b.files ensures item.expected.Some? ==> item.expected.value.Sha256? {
      assert item.expected == KnownDigest(known, item.path);
    }
    assert ItemsOk(allowed, b) && ShapeOk(b);
    NonceKeeps(allowed, b, b'.exchangeId);
  }

  lemma ReadyHasNoNonce(allowed: seq<Path>, known: Known, b: Batch)
    requires Ready(allowed, known, b)
    ensures b.exchangeId == None
  {
    hide InventoriesOk, CountsOk, ShapeOk, ItemsOk, RootsOk, KnownPrefixFree, BindsKnown, ExpectedWellFormed;
  }

  lemma NonceKeeps(allowed: seq<Path>, b: Batch, id: Option<Nonce>)
    ensures var b' := b.(exchangeId := id);
      && (InventoriesOk(allowed, b') <==> InventoriesOk(allowed, b)) && (CountsOk(b') <==> CountsOk(b))
      && (ItemsOk(allowed, b') <==> ItemsOk(allowed, b)) && (ShapeOk(b') <==> ShapeOk(b))
  {
  }

  // ---------- counting the paths of a batch ----------

  ghost function NewPaths(known: Known, files: seq<Artifact>): set<Path> {
    set item | item in files && item.path !in known :: item.path
  }

  lemma {:induction false} NewPathsBound(known: Known, files: seq<Artifact>)
    ensures |NewPaths(known, files)| <= NewFiles(known, files)
  {
    if files == [] {
      assert NewPaths(known, files) == {};
    } else {
      var rest, last := files[..|files| - 1], files[|files| - 1];
      NewPathsBound(known, rest);
      assert files == rest + [last];
      if last.path in known {
        assert NewPaths(known, files) == NewPaths(known, rest);
      } else {
        assert NewPaths(known, files) == NewPaths(known, rest) + {last.path};
      }
    }
  }

  /** Everything a batch speaks of is acknowledged or a new upload. */
  lemma PathsFit(allowed: seq<Path>, known: Known, b: Batch, s: set<Path>)
    requires BindsKnown(allowed, known, b) && |known| <= INVENTORY_LIMIT
    requires forall p :: p in s ==> p in known || p in BatchPaths(b)
    ensures |s| <= INVENTORY_LIMIT
  {
    hide Unnested, NewFiles;
    NewPathsBound(known, b.files);
    var all := known.Keys + NewPaths(known, b.files);
    forall p | p in s ensures p in all {
      if p !in known { PathIsNew(allowed, known, b, p); }
    }
    assert s <= all;
    SubsetOfSameSize(s, all);
    assert |all| <= |known.Keys| + |NewPaths(known, b.files)|;
  }

  lemma PathIsNew(allowed: seq<Path>, known: Known, b: Batch, p: Path)
    requires BindsKnown(allowed, known, b) && p in BatchPaths(b) && p !in known
    ensures p in NewPaths(known, b.files)
  {
    hide Unnested, NewFiles;
    PathsOf(b, p);
    VerifiedIsKnown(allowed, known, b, p);
    var i :| 0 <= i < |b.files| && FilePaths(b.files)[i] == p;
    assert b.files[i] in b.files;
  }

  lemma VerifiedIsKnown(allowed: seq<Path>, known: Known, b: Batch, p: Path)
    requires BindsKnown(allowed, known, b)
    ensures p in IdPaths(b.verify) ==> p in known
  {
    hide Unnested, NewFiles;
    if p in IdPaths(b.verify) {
      var i :| 0 <= i < |b.verify| && IdPaths(b.verify)[i] == p;
      assert b.verify[i] in b.verify;
    }
  }

  // ---------- the conflict cursor ----------

  /** A path of the batch that stands for a conflict: itself, or a removal below a refused root. */
  ghost predicate StandsFor(b: Batch, c: Path, p: Path) { p in BatchPaths(b) && c <= p }

  lemma Representative(b: Batch, c: Path) returns (p: Path)
    requires ShapeOk(b) && (c in BatchPaths(b) || c in b.prune)
    ensures StandsFor(b, c, p)
  {
    hide NoDup, NoNesting, BatchPaths;
    if c in BatchPaths(b) {
      p := c;
    } else {
      assert RetirementOk(b, c);
      var id :| id in b.delete && c < id.path;
      ItemInPaths(b, id);
      p := id.path;
    }
  }

  lemma ItemInPaths(b: Batch, id: Identity)
    requires id in b.delete
    ensures id.path in BatchPaths(b)
  {
    var k :| 0 <= k < |b.delete| && b.delete[k] == id;
    assert IdPaths(b.delete)[k] == id.path;
    PathsOf(b, id.path);
  }

  lemma FrontApart(q: seq<Path>)
    requires q != [] && NoNesting(q) && NoDup(q)
    ensures var rest, last := q[..|q| - 1], q[|q| - 1];
      NoNesting(rest) && NoDup(rest) && forall c :: c in rest ==> !(c <= last) && !(last <= c)
  {
    var rest, last := q[..|q| - 1], q[|q| - 1];
    assert last in q && forall c :: c in rest ==> c in q;
    forall c | c in rest ensures c != last {
      var i :| 0 <= i < |rest| && rest[i] == c;
      assert q[i] != q[|q| - 1];
    }
  }

  /** Conflicts that do not nest are no more than the paths of the batch. */
  lemma {:induction false} Representatives(b: Batch, cursor: seq<Path>) returns (s: set<Path>)
    requires ShapeOk(b) && NoNesting(cursor) && NoDup(cursor)
    requires forall c :: c in cursor ==> c in BatchPaths(b) || c in b.prune
    ensures |s| == |cursor| && forall p :: p in s ==> p in BatchPaths(b) && exists c :: c in cursor && c <= p
  {
    hide ShapeOk, BatchPaths, NoNesting, NoDup;
    if cursor == [] {
      s := {};
    } else {
      var rest, last := cursor[..|cursor| - 1], cursor[|cursor| - 1];
      assert cursor == rest + [last];
      FrontApart(cursor);
      s := Representatives(b, rest);
      var p := Representative(b, last);
      if p in s {
        var c :| c in rest && c <= p;
        Comparable(c, last, p);
      }
      forall q | q in s ensures exists c :: c in cursor && c <= q {
        var c :| c in rest && c <= q;
        assert c in cursor;
      }
      assert last in cursor;
      s := s + {p};
    }
  }

  lemma CursorFits(allowed: seq<Path>, known: Known, b: Batch, cursor: seq<Path>)
    requires ShapeOk(b) && BindsKnown(allowed, known, b) && |known| <= INVENTORY_LIMIT
    requires NoNesting(cursor) && NoDup(cursor) && forall c :: c in cursor ==> c in BatchPaths(b) || c in b.prune
    ensures |cursor| <= INVENTORY_LIMIT
  {
    hide ShapeOk, BindsKnown, BatchPaths, NoNesting, NoDup;
    var s := Representatives(b, cursor);
    PathsFit(allowed, known, b, s);
  }

  // ---------- the inventory after a receipt ----------

  function Advance(known: Known, r: Receipt): Known { (known - r.removed.Keys) + r.accepted }

  lemma SentPath(b: Batch, p: Path)
    ensures p in Sent(b) ==> Observed(b, p)
    ensures p in Deleted(b) ==> p in IdPaths(b.delete)
  {
    if p in Sent(b) {
      IndexHasItem(FileIds(b.files) + b.verify, p);
      var id :| id in FileIds(b.files) + b.verify && id.path == p;
      var i :| 0 <= i < |FileIds(b.files) + b.verify| && (FileIds(b.files) + b.verify)[i] == id;
      if i < |b.files| {
        assert FilePaths(b.files)[i] == p;
      } else {
        assert IdPaths(b.verify)[i - |b.files|] == p;
      }
    }
    if p in Deleted(b) {
      IndexHasItem(b.delete, p);
      var id :| id in b.delete && id.path == p;
      var i :| 0 <= i < |b.delete| && b.delete[i] == id;
      assert IdPaths(b.delete)[i] == p;
    }
  }

  /** An accepted path is one the batch sent, with its digest. */
  lemma AcceptedItem(allowed: seq<Path>, known: Known, b: Batch, r: Receipt, p: Path)
    requires PendingOk(allowed, known, b) && AcceptedConsistent(b, r) && p in r.accepted
    ensures p in BatchPaths(b) && InRoots(p, allowed) && r.accepted[p].Sha256? && Unnested(allowed, known, p)
  {
    hide RootsOk, InventoriesOk, CountsOk, Unnested, NewFiles, NoNesting, Sent, Deleted, InRoots;
    var d := r.accepted[p];
    assert Has(Sent(b), p, d);
    SentIndex(b, p);
    assert SentAs(b, p, d);
    SentPath(b, p);
    PathsOf(b, p);
    if item :| item in b.files && item.path == p && item.sha256 == d {
      assert FileOk(allowed, item);
    } else {
      var id :| id in b.verify && id.path == p && id.sha256 == d;
      assert IdOk(allowed, id);
    }
  }

  lemma AdvancePrefixFree(allowed: seq<Path>, known: Known, b: Batch, r: Receipt, a: Path, k: Path)
    requires KnownOk(allowed, known) && PendingOk(allowed, known, b) && AcceptedConsistent(b, r)
    requires a in Advance(known, r) && k in Advance(known, r) && InRoots(a, allowed) && InRoots(k, allowed)
    ensures !(a < k)
  {
    hide ValidBatch, BindsKnown, InRoots, AcceptedConsistent, BatchPaths;
    if a in r.accepted { AcceptedItem(allowed, known, b, r, a); }
    if k in r.accepted { AcceptedItem(allowed, known, b, r, k); }
    PathsUnnested(allowed, b);
  }

  lemma AdvanceIsOk(allowed: seq<Path>, known: Known, b: Batch, r: Receipt)
    requires KnownOk(allowed, known) && PendingOk(allowed, known, b) && AcceptedConsistent(b, r)
    ensures KnownOk(allowed, Advance(known, r))
  {
    hide ValidBatch, BindsKnown, InRoots, AcceptedConsistent, BatchPaths, Unnested;
    var after := Advance(known, r);
    forall k | k in after ensures InRoots(k, allowed) && after[k].Sha256? && (k in known || k in BatchPaths(b)) {
      if k in r.accepted { AcceptedItem(allowed, known, b, r, k); }
    }
    PathsFit(allowed, known, b, after.Keys);
    forall a, k | a in after && k in after && InRoots(a, allowed) && InRoots(k, allowed) ensures !(a < k) {
      AdvancePrefixFree(allowed, known, b, r, a, k);
    }
  }

  lemma PathsUnnested(allowed: seq<Path>, b: Batch)
    requires ValidBatch(allowed, b)
    ensures NoNesting(BatchPaths(b)) && ShapeOk(b)
  {
  }

  lemma ConflictIsScoped(allowed: seq<Path>, b: Batch, r: Receipt, p: Path)
    requires ValidBatch(allowed, b) && ReceiptConsistent(b, r) && p in r.conflicts
    ensures Relative(p, allowed) && (p in BatchPaths(b) || p in b.prune)
  {
    hide RootsOk, CountsOk, NoNesting, Sent, Deleted, InRoots, Relative, AcceptedConsistent, RemovedConsistent, PrunedConsistent, NoDup;
    SentPath(b, p);
    PathsOf(b, p);
    if p in FilePaths(b.files) {
      var i :| 0 <= i < |b.files| && FilePaths(b.files)[i] == p;
      assert b.files[i] in b.files && FileOk(allowed, b.files[i]);
    } else if p in IdPaths(b.verify) {
      var i :| 0 <= i < |b.verify| && IdPaths(b.verify)[i] == p;
      assert b.verify[i] in b.verify && IdOk(allowed, b.verify[i]);
    } else if p in IdPaths(b.delete) {
      var i :| 0 <= i < |b.delete| && IdPaths(b.delete)[i] == p;
      assert b.delete[i] in b.delete && IdOk(allowed, b.delete[i]);
    }
  }

  // ---------- the checkpoint ----------

  datatype Preparation = Prepared | NotCollected | Oversized | Rejected

  class Exchange {
    var known: Known
    var cursor: seq<Path>
    var pending: Option<Batch>
    var lastReceipt: Option<Receipt>

    constructor (known: Known)
      ensures this.known == known && cursor == [] && pending == None && lastReceipt == None
    {
      this.known, cursor, pending, lastReceipt := known, [], None, None;
    }

    ghost predicate Valid(allowed: seq<Path>)
      reads this
    {
      CheckpointOk(allowed, known, cursor, pending)
    }

    /** Prepare a bounded batch, or keep the pending one unchanged. */
    method Prepare(source: Tree, allowed: seq<Path>, nonce: Bytes) returns (r: Preparation)
      requires WellFormed(source) && NamesNormal(source)
      modifies this`pending
      ensures old(pending).Some? ==> pending == old(pending)
      ensures !r.Prepared? ==> pending == old(pending)
      ensures r.Prepared? ==> pending.Some? && ValidBatch(allowed, pending.value) && pending.value.exchangeId.Some?
      ensures r.Oversized? <==> |allowed| > INVENTORY_LIMIT || |known| > INVENTORY_LIMIT || |cursor| > INVENTORY_LIMIT
      ensures old(Valid(allowed)) ==> Valid(allowed) && !r.Rejected?
      ensures old(pending).None? && r.Prepared? ==> Gathered(source, allowed, known, cursor, pending.value.(exchangeId := None))
      ensures r.NotCollected? ==> forall unit: nat :: !Fits(source, allowed, known, unit)
    {
      hide ValidBatch, WellFormed, NamesNormal, Ready, Relative, KnownOk, BindsKnown, Complete, Fits;
      if |allowed| > INVENTORY_LIMIT || |known| > INVENTORY_LIMIT || |cursor| > INVENTORY_LIMIT { return Oversized; }
      if exists c | c in cursor :: !Relative(c, allowed) { return Rejected; }
      if pending.None? {
        var ok, b := Collect(source, allowed, known, cursor);
        if !ok { return NotCollected; }
        if old(Valid(allowed)) { ReadyIsValid(allowed, known, b, nonce); }
        ReadyHasNoNonce(allowed, known, b);
        assert b.(exchangeId := Some(Nonce(nonce))).(exchangeId := None) == b;
        b := b.(exchangeId := Some(Nonce(nonce)));
        var valid, _ := Validate(map[], allowed, b);
        if !valid { return Rejected; }
        pending := Some(b);
        return Prepared;
      }
      var valid, _ := Validate(map[], allowed, pending.value);
      if !valid || !pending.value.exchangeId.Some? { return Rejected; }
      r := Prepared;
    }

    /** Conflicts that no other conflict contains, in order. */
    method Outermost(conflicts: seq<Path>) returns (outer: seq<Path>)
      ensures NoNesting(outer) && NoDup(outer) && (forall c :: c in outer ==> c in conflicts)
      ensures forall p :: p in conflicts ==> InRoots(p, outer)
    {
      hide Sorted, NoNesting, NoDup, Elements, InRoots, CoverSoFar;
      var keys := Sorted(set c | c in conflicts);
      outer := [];
      CoverNoRoots(keys);
      for i := 0 to |keys|
        invariant CoverSoFar(keys, i, outer)
      {
        CoverRoot((set c | c in conflicts), i, outer);
        if !InRoots(keys[i], outer) { outer := outer + [keys[i]]; }
      }
      CoverEnd(conflicts, outer);
    }

    /** Adopt a complete receipt bound to the pending batch; cursor, inventory and receipt advance
        together or not at all. A receipt of a sound checkpoint's batch is adopted only when it settles every item
        of the batch and speaks of nothing else. */
    method Acknowledge(r: Receipt, ghost allowed: seq<Path>) returns (ok: bool)
      modifies this
      ensures !ok ==> known == old(known) && cursor == old(cursor) && pending == old(pending) && lastReceipt == old(lastReceipt)
      ensures ok ==> old(pending).Some? && r.batchSha256 == BatchDigest(old(pending).value) && ReceiptConsistent(old(pending).value, r)
      ensures ok && old(Valid(allowed)) ==> Settles(old(pending).value, r)
      ensures ok ==> pending == None && lastReceipt == Some(r)
      ensures ok ==> forall p :: p in known <==> p in r.accepted || (p in old(known) && p !in r.removed)
      ensures ok ==> forall p :: p in known ==> known[p] == if p in r.accepted then r.accepted[p] else old(known)[p]
      ensures ok ==> known == Advance(old(known), r)
      ensures ok ==> (forall p :: p in r.conflicts ==> InRoots(p, cursor)) && (forall c :: c in cursor ==> c in r.conflicts)
      ensures old(Valid(allowed)) ==> Valid(allowed)
      ensures old(Valid(allowed)) && old(pending).Some? && FromReceiver(old(pending).value, r) ==> ok
    {
      hide *;
      ValidIs(allowed);
      if pending.None? { return false; }
      ghost var sound, b := Valid(allowed), pending.value;
      if sound { CheckpointParts(allowed, known, cursor, pending); }
      var after, outer;
      ok, after, outer := Judge(known, pending.value, r, allowed);
      if !ok { return; }
      AdvanceIs(known, r);
      if sound {
        CheckpointHolds(allowed, after, outer);
        AdoptedSettles(allowed, known, b, r);
      }
      known, cursor, lastReceipt, pending := after, outer, Some(r), None;
      ValidIs(allowed);
    }

    lemma ValidIs(allowed: seq<Path>)
      ensures Valid(allowed) <==> CheckpointOk(allowed, known, cursor, pending)
    {
    }

    /** Check a receipt of `b` against the inventory: the inventory and the cursor it leads to. */
    method Judge(known: Known, b: Batch, r: Receipt, ghost allowed: seq<Path>) returns (ok: bool, after: Known, outer: seq<Path>)
      ensures ok ==> r.batchSha256 == BatchDigest(b) && ReceiptConsistent(b, r) && after == Advance(known, r)
      ensures ok ==> (forall p :: p in r.conflicts ==> InRoots(p, outer)) && (forall c :: c in outer ==> c in r.conflicts)
      ensures KnownOk(allowed, known) && PendingOk(allowed, known, b) ==>
                && (FromReceiver(b, r) ==> ok)
                && (ok ==> KnownOk(allowed, after) && |outer| <= INVENTORY_LIMIT && forall c :: c in outer ==> Relative(c, allowed))
    {
      hide ReceiptConsistent, PendingOk, KnownOk, Relative, NoNesting, NoDup, InRoots, FromReceiver, Has;
      after, outer := known, [];
      ghost var sound := KnownOk(allowed, known) && PendingOk(allowed, known, b);
      if sound { ReceiptFacts(allowed, known, b, r); }
      if b.exchangeId.None? || b.exchangeId.value.BadNonce? { return false, after, outer; }
      if r.batchSha256 != BatchDigest(b) || !ReceiptConsistent(b, r) { return false, after, outer; }
      if exists p | p in r.removed :: !Has(known, p, r.removed[p]) { return false, after, outer; }
      after := (known - r.removed.Keys) + r.accepted;
      if |after| > INVENTORY_LIMIT { return false, after, outer; }
      outer := Outermost(r.conflicts);
      if sound { OuterFits(allowed, known, b, r, outer); }
      ok := |outer| <= INVENTORY_LIMIT;
    }
  }

  lemma AdvanceIs(known: Known, r: Receipt)
    ensures var after := Advance(known, r);
      && (forall p :: p in after <==> p in r.accepted || (p in known && p !in r.removed))
      && (forall p :: p in after ==> after[p] == if p in r.accepted then r.accepted[p] else known[p])
  {
  }

  lemma AdoptedSettles(allowed: seq<Path>, known: Known, b: Batch, r: Receipt)
    requires PendingOk(allowed, known, b) && ReceiptConsistent(b, r)
    ensures Settles(b, r)
  {
    hide ReceiptConsistent, Settles, BindsKnown, ValidBatch;
    ValidIsDistinct(allowed, b);
    ConsistentIsExact(b, r);
  }

  lemma CheckpointParts(allowed: seq<Path>, known: Known, cursor: seq<Path>, pending: Option<Batch>)
    requires CheckpointOk(allowed, known, cursor, pending)
    ensures KnownOk(allowed, known) && (pending.Some? ==> PendingOk(allowed, known, pending.value))
  {
    hide KnownOk, PendingOk, Relative;
  }

  lemma CheckpointHolds(allowed: seq<Path>, known: Known, cursor: seq<Path>)
    requires KnownOk(allowed, known) && |cursor| <= INVENTORY_LIMIT && forall c :: c in cursor ==> Relative(c, allowed)
    ensures CheckpointOk(allowed, known, cursor, None)
  {
    hide KnownOk, PendingOk, Relative;
  }

  /** On a sound checkpoint: the receiver's receipt is bound and consistent, and a consistent receipt
      advances the inventory soundly and within its bound. */
  lemma ReceiptFacts(allowed: seq<Path>, known: Known, b: Batch, r: Receipt)
    requires KnownOk(allowed, known) && PendingOk(allowed, known, b)
    ensures b.exchangeId.Some? && b.exchangeId.value.Nonce?
    ensures FromReceiver(b, r) ==> r.batchSha256 == BatchDigest(b) && ReceiptConsistent(b, r)
    ensures ReceiptConsistent(b, r) ==>
      && (forall p :: p in r.removed ==> Has(known, p, r.removed[p]))
      && |Advance(known, r)| <= INVENTORY_LIMIT && KnownOk(allowed, Advance(known, r))
  {
    hide ReceiptConsistent, KnownOk, FromReceiver, Has, ValidBatch, BindsKnown;
    NonceIsGood(allowed, b);
    if FromReceiver(b, r) { ReceiverReceiptPasses(allowed, known, b, r); }
    if ReceiptConsistent(b, r) {
      RemovedAreKnown(allowed, known, b, r);
      AdvanceFits(allowed, known, b, r);
    }
  }

  /** `r` is what some receiver holding any tree answers to `b`. */
  ghost predicate FromReceiver(b: Batch, r: Receipt) {
    exists t :: WellFormed(t) && Uninterrupted(b, t).receipt == r
  }

  lemma CoverEnd(conflicts: seq<Path>, outer: seq<Path>)
    requires var keys := Sorted(set c | c in conflicts); CoverSoFar(keys, |keys|, outer)
    ensures NoNesting(outer) && NoDup(outer) && (forall c :: c in outer ==> c in conflicts)
    ensures forall p :: p in conflicts ==> InRoots(p, outer)
  {
    hide Sorted, NoDup, NoNesting, InRoots;
    var keys := Sorted(set c | c in conflicts);
    assert keys[..|keys|] == keys;
    forall p | p in conflicts ensures InRoots(p, outer) {
      assert p in keys;
      var j :| 0 <= j < |keys| && keys[j] == p;
    }
  }

  lemma NonceIsGood(allowed: seq<Path>, b: Batch)
    requires ValidBatch(allowed, b) && b.exchangeId.Some?
    ensures !b.exchangeId.value.BadNonce?
  {
  }

  lemma ReceiverReceiptPasses(allowed: seq<Path>, known: Known, b: Batch, r: Receipt)
    requires PendingOk(allowed, known, b) && FromReceiver(b, r)
    ensures r.batchSha256 == BatchDigest(b) && ReceiptConsistent(b, r)
  {
    hide ValidBatch, ReceiptConsistent, BindsKnown, WellFormed, Uninterrupted;
    var t :| WellFormed(t) && Uninterrupted(b, t).receipt == r;
    SenderAcceptsReceipt(allowed, b, t);
    BoundToBatch(b, t, |Ops(b)|);
    assert Uninterrupted(b, t) == StateAt(b, t, |Ops(b)|) by { UninterruptedIsLast(b, t); }
  }

  lemma UninterruptedIsLast(b: Batch, t: Tree)
    ensures Uninterrupted(b, t) == StateAt(b, t, |Ops(b)|)
  {
  }

  lemma {:induction false} BoundToBatch(b: Batch, t: Tree, k: nat)
    requires k <= |Ops(b)|
    ensures StateAt(b, t, k).receipt.batchSha256 == BatchDigest(b)
  {
    hide Step, Ops, StateAt;
    if k == 0 {
      StartOfRun(b, t);
    } else {
      BoundToBatch(b, t, k - 1);
      StateStep(b, t, k - 1);
      StepKeepsDigest(b, BlockedRoots(t, b), StateAt(b, t, k - 1), Ops(b)[k - 1]);
    }
  }

  lemma StartOfRun(b: Batch, t: Tree)
    ensures StateAt(b, t, 0) == Start(t, b)
  {
    hide Step, Ops, BlockedRoots;
    assert Ops(b)[..0] == [];
  }

  lemma StepKeepsDigest(b: Batch, blocked: set<Path>, s: Progress, op: Op)
    ensures Step(b, blocked, s, op).receipt.batchSha256 == s.receipt.batchSha256
  {
    hide ReceiverHash, Writes, StoreTree, EraseTree, RetireTree, AllRemoved, Removable;
  }

  lemma RemovedAreKnown(allowed: seq<Path>, known: Known, b: Batch, r: Receipt)
    requires PendingOk(allowed, known, b) && ReceiptConsistent(b, r)
    ensures forall p :: p in r.removed ==> Has(known, p, r.removed[p])
  {
    hide ValidBatch, AcceptedConsistent, PrunedConsistent, Sent, Deleted, NoDup, Unnested, NewFiles;
    forall p | p in r.removed ensures Has(known, p, r.removed[p]) {
      assert Has(Deleted(b), p, r.removed[p]);
      ValidIsDistinct(allowed, b);
      SentIndex(b, p);
      assert RemovalOf(b, p, r.removed[p]);
    }
  }

  lemma ValidIsDistinct(allowed: seq<Path>, b: Batch)
    requires ValidBatch(allowed, b)
    ensures NoDup(BatchPaths(b))
  {
  }

  lemma AdvanceFits(allowed: seq<Path>, known: Known, b: Batch, r: Receipt)
    requires KnownOk(allowed, known) && PendingOk(allowed, known, b) && ReceiptConsistent(b, r)
    ensures |Advance(known, r)| <= INVENTORY_LIMIT && KnownOk(allowed, Advance(known, r))
  {
    hide ValidBatch, BindsKnown, AcceptedConsistent, RemovedConsistent, PrunedConsistent, NoDup;
    AdvanceIsOk(allowed, known, b, r);
  }

  lemma OuterFits(allowed: seq<Path>, known: Known, b: Batch, r: Receipt, outer: seq<Path>)
    requires KnownOk(allowed, known) && PendingOk(allowed, known, b) && ReceiptConsistent(b, r)
    requires NoNesting(outer) && NoDup(outer) && forall c :: c in outer ==> c in r.conflicts
    ensures |outer| <= INVENTORY_LIMIT && forall c :: c in outer ==> Relative(c, allowed)
  {
    hide ValidBatch, BindsKnown, NoNesting, NoDup, ReceiptConsistent, Relative, BatchPaths;
    forall c | c in outer ensures Relative(c, allowed) && (c in BatchPaths(b) || c in b.prune) {
      ConflictIsScoped(allowed, b, r, c);
    }
    PathsUnnested(allowed, b);
    CursorFits(allowed, known, b, outer);
  }

  // ---------- whole campaigns ----------

  /** One turn: the source as it is now, whatever other writers left at the receiver, and a nonce. */
  datatype Turn = Turn(source: Tree, receiver: Tree, nonce: Bytes)

  /** Main result over runs: with every source, every state of the receiver, every failure and every lost reply, the
      checkpoint stays sound and every receipt of the receiver that arrives is adopted. */
  method Campaign(e: Exchange, m: Mirror, allowed: seq<Path>, turns: seq<Turn>) returns (adopted: bool)
    requires e.Valid(allowed)
    requires forall i :: 0 <= i < |turns| ==> WellFormed(turns[i].source) && NamesNormal(turns[i].source) && WellFormed(turns[i].receiver)
    modifies e, m
    ensures e.Valid(allowed) && adopted
  {
    hide WellFormed, NamesNormal, ValidBatch, CheckpointOk, ReceiptConsistent;
    adopted := true;
    for i := 0 to |turns|
      invariant e.Valid(allowed) && adopted
    {
      var prepared := e.Prepare(turns[i].source, allowed, turns[i].nonce);
      if prepared.Prepared? {
        m.tree := turns[i].receiver;
        var out := m.Apply(allowed, e.pending.value);
        // The reply may be lost; the pending batch is then sent again.
        var arrived := *;
        if out.Applied? && arrived {
          assert FromReceiver(e.pending.value, out.receipt);
          var ok := e.Acknowledge(out.receipt, allowed);
          adopted := adopted && ok;
        }
      }
    }
  }
}
