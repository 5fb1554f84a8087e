/** The whole collection: what a returned batch says about the source, which collections are never refused, and when
    every source yields an item-valid batch. */
module EvidenceAssembly {
  import opened Effects
  import opened Order
  import opened EvidenceModel
  import opened EvidenceFrames
  import opened EvidenceReceipt
  import opened EvidenceAgreement
  import opened EvidenceLedger
  import opened EvidenceCollector
  import opened EvidenceRetirement
  import opened EvidenceDiscovery
  import opened EvidenceValidation

  function Carried(b: Batch): nat { FilesTotal(b.files) + IdsTotal(b.verify) + IdsTotal(b.delete) }

  /** A file in scope that replaces acknowledged descendants: nothing in scope above it is acknowledged, and it is
      neither omitted nor left to wait by the cursor. */
  ghost predicate Replacing(source: Tree, allowed: seq<Path>, known: Known, cursor: seq<Path>, b: Batch, t: Path) {
    && t in source && source[t].File? && InRoots(t, allowed) && !InRoots(t, cursor) && !InRoots(t, b.omitted)
    && forall a :: a in known && InRoots(a, allowed) ==> !(a < t)
  }

  /** The batch removes every acknowledged path below `d`, and there is one. */
  ghost predicate Emptied(known: Known, b: Batch, d: Path) {
    && (exists k :: k in known && d < k)
    && (forall k :: k in known && d < k ==> Identity(k, known[k]) in b.delete)
  }

  /** Every directory that a replacing file empties is retired: a root of the batch is at or above it. */
  ghost predicate Retires(source: Tree, allowed: seq<Path>, known: Known, cursor: seq<Path>, b: Batch) {
    forall t, d :: Replacing(source, allowed, known, cursor, b, t) && t <= d && Emptied(known, b, d) ==>
                     exists r :: r in b.prune && r <= d
  }

  /** A batch tells the truth about its source and leaves nothing out without a reason: uploads and verifications are
      the source's bytes, deletions are gone, every entry in scope and every acknowledged path is answered, and what
      is emptied for a replacing file is retired. */
  ghost predicate Complete(source: Tree, allowed: seq<Path>, known: Known, cursor: seq<Path>, b: Batch) {
    && (forall item :: item in b.files ==> FileFrom(source, allowed, known, item))
    && (forall id :: id in b.verify ==> VerifyFrom(source, allowed, known, id))
    && (forall id :: id in b.delete ==> Gone(source, id.path) && Relative(id.path, allowed))
    && (forall p :: p in source && InRoots(p, allowed) && !source[p].Directory? ==> Listed(b, p))
    && (forall k :: k in known && InRoots(k, allowed) ==> Answered(source, b, k))
    && Justified(source, allowed, known, cursor, b, Carried(b)) && Retires(source, allowed, known, cursor, b)
  }

  ghost predicate Gathered(source: Tree, allowed: seq<Path>, known: Known, cursor: seq<Path>, b: Batch) {
    Ready(allowed, known, b) && Complete(source, allowed, known, cursor, b)
  }

  // ---------- collections that are never refused ----------

  /** Within every bound: `unit` bounds the encoding of any entry or name, and the entries together fit. */
  ghost predicate Fits(source: Tree, allowed: seq<Path>, known: Known, unit: nat) {
    && RootsOk(allowed) && [GIT] !in source
    && |source| + |allowed| + |known| < INVENTORY_LIMIT && (|source| + |allowed| + |known| + 1) * unit <= PAYLOAD_LIMIT
    && (forall p :: p in source ==> |p| <= DEPTH_LIMIT && (source[p].File? ==> 4 * |source[p].bytes| + NameSize(p) <= unit))
    && (forall p :: Named(source, allowed, known, p) ==> NameSize(p) <= unit)
    && (forall p, k :: p in source && source[p].File? && k in known ==> !(p < k))
    && (forall k :: k in known && InRoots(k, allowed) ==>
          Relative(k, allowed) && !OpenDir(source, Parent(k)).Blocked? && (known[k].Malformed? ==> !Gone(source, k)))
  }

  lemma OneMore(n: nat, unit: nat)
    ensures (n + 1) * unit == n * unit + unit
  {
  }

  lemma {:induction false} NamesFit(q: seq<Path>, unit: nat)
    requires forall p :: p in q ==> NameSize(p) <= unit
    ensures NamesTotal(q) <= |q| * unit
  {
    hide NameSize;
    if q != [] {
      var rest, last := q[..|q| - 1], q[|q| - 1];
      assert last in q && forall p :: p in rest ==> p in q;
      NamesFit(rest, unit);
      OneMore(|rest|, unit);
    }
  }

  lemma {:induction false} FilesFit(q: seq<Artifact>, unit: nat)
    requires forall item :: item in q ==> FileSize(item) <= unit
    ensures FilesTotal(q) <= |q| * unit
  {
    hide FileSize;
    if q != [] {
      var rest, last := q[..|q| - 1], q[|q| - 1];
      assert last in q && forall x :: x in rest ==> x in q;
      FilesFit(rest, unit);
      OneMore(|rest|, unit);
    }
  }

  lemma {:induction false} IdsFit(q: seq<Identity>, unit: nat)
    requires forall id :: id in q ==> NameSize(id.path) <= unit
    ensures IdsTotal(q) <= |q| * unit
  {
    hide NameSize;
    if q != [] {
      var rest, last := q[..|q| - 1], q[|q| - 1];
      assert last in q && forall x :: x in rest ==> x in q;
      IdsFit(rest, unit);
      OneMore(|rest|, unit);
    }
  }

  lemma Distribute(a: nat, b: nat, c: nat, d: nat, e: nat, unit: nat)
    ensures (a + b + c + d + e) * unit == a * unit + b * unit + c * unit + d * unit + e * unit
  {
  }

  lemma Times(a: nat, b: nat, unit: nat)
    requires a <= b
    ensures a * unit <= b * unit
  {
    assert b * unit == a * unit + (b - a) * unit;
  }

  /** The whole encoding is at most one unit for each record. */
  lemma RecordsFit(source: Tree, allowed: seq<Path>, known: Known, cursor: seq<Path>, b: Batch, size: nat, unit: nat)
    requires Fits(source, allowed, known, unit) && Justified(source, allowed, known, cursor, b, size)
    requires forall item :: item in b.files ==> FileFrom(source, allowed, known, item)
    requires forall id :: id in b.verify ==> VerifyFrom(source, allowed, known, id)
    requires forall id :: id in b.delete ==> id.path in known
    ensures Carried(b) + NamesTotal(b.omitted) + NamesTotal(b.deferred) <= Load(b) * unit
  {
    hide *;
    forall item | item in b.files ensures FileSize(item) <= unit { FileFits(source, allowed, known, item, unit); }
    forall id | id in b.verify ensures NameSize(id.path) <= unit {
      VerifiedIsKnownHere(source, allowed, known, id);
      NameFits(source, allowed, known, id.path, unit);
    }
    forall id | id in b.delete ensures NameSize(id.path) <= unit { NameFits(source, allowed, known, id.path, unit); }
    forall p | p in b.omitted ensures NameSize(p) <= unit { ListedFits(source, allowed, known, cursor, b, size, p, unit); }
    forall p | p in b.deferred ensures NameSize(p) <= unit { ListedFits(source, allowed, known, cursor, b, size, p, unit); }
    FilesFit(b.files, unit);
    IdsFit(b.verify, unit);
    IdsFit(b.delete, unit);
    NamesFit(b.omitted, unit);
    NamesFit(b.deferred, unit);
    SumFits(b, unit);
  }

  lemma SumFits(b: Batch, unit: nat)
    requires FilesTotal(b.files) <= |b.files| * unit && IdsTotal(b.verify) <= |b.verify| * unit
    requires IdsTotal(b.delete) <= |b.delete| * unit
    requires NamesTotal(b.omitted) <= |b.omitted| * unit && NamesTotal(b.deferred) <= |b.deferred| * unit
    ensures Carried(b) + NamesTotal(b.omitted) + NamesTotal(b.deferred) <= Load(b) * unit
  {
    hide FilesTotal, IdsTotal, NamesTotal;
    Distribute(|b.files|, |b.verify|, |b.delete|, |b.omitted|, |b.deferred|, unit);
  }

  lemma FileFits(source: Tree, allowed: seq<Path>, known: Known, item: Artifact, unit: nat)
    requires Fits(source, allowed, known, unit) && FileFrom(source, allowed, known, item)
    ensures FileSize(item) <= unit
  {
    hide NameSize, OpenDir, Relative, Unnested, Gone;
  }

  lemma NameFits(source: Tree, allowed: seq<Path>, known: Known, p: Path, unit: nat)
    requires Fits(source, allowed, known, unit) && (p in known || p in source || p in allowed)
    ensures NameSize(p) <= unit
  {
    hide NameSize, OpenDir, Relative, Gone;
    assert Named(source, allowed, known, p);
  }

  lemma ListedFits(source: Tree, allowed: seq<Path>, known: Known, cursor: seq<Path>, b: Batch, size: nat, p: Path, unit: nat)
    requires Fits(source, allowed, known, unit) && Justified(source, allowed, known, cursor, b, size)
    requires p in b.omitted || p in b.deferred
    ensures NameSize(p) <= unit
  {
    hide NameSize, OpenDir, Relative, Gone, OmitReason, DeferReason;
  }

  lemma WalkFits(source: Tree, allowed: seq<Path>, known: Known, cursor: seq<Path>, b: Batch, size: nat, entries: nat, unit: nat)
    requires Walked(source, allowed, known, b) && Justified(source, allowed, known, cursor, b, size) && size == Carried(b)
    requires Load(b) <= |allowed| + |source| && entries <= |allowed| + |source|
    requires Refused(source, known, b, size, entries)
    ensures !Fits(source, allowed, known, unit)
  {
    hide NameSize, Justified, OpenDir, Relative, FilesTotal, IdsTotal, NamesTotal, FileFrom, VerifyFrom, TransitionFrom, Gone;
    if Fits(source, allowed, known, unit) {
      SeqMembers(source, allowed, known, b);
      RecordsFit(source, allowed, known, cursor, b, size, unit);
      Times(Load(b) + 1, |source| + |allowed| + |known| + 1, unit);
      OneMore(Load(b), unit);
      TooBig(source, allowed, known, b, size, entries, unit);
    }
  }

  lemma TooBig(source: Tree, allowed: seq<Path>, known: Known, b: Batch, size: nat, entries: nat, unit: nat)
    requires Fits(source, allowed, known, unit) && Load(b) <= |allowed| + |source| && entries <= |allowed| + |source|
    requires size + unit <= PAYLOAD_LIMIT
    ensures !Refused(source, known, b, size, entries)
  {
    hide NameSize, OpenDir, Relative, Gone;
    forall p | p in source && p in known ensures size + NameSize(p) <= PAYLOAD_LIMIT {
      assert Named(source, allowed, known, p);
    }
  }

  lemma SeqMembers(source: Tree, allowed: seq<Path>, known: Known, b: Batch)
    requires Walked(source, allowed, known, b)
    ensures forall item :: item in b.files ==> FileFrom(source, allowed, known, item)
    ensures forall id :: id in b.verify ==> VerifyFrom(source, allowed, known, id)
    ensures b.delete == []
  {
    hide FileFrom, VerifyFrom, TransitionFrom, Relative, ScopedRelative, NoDup;
  }

  lemma DiscoveryFits(source: Tree, allowed: seq<Path>, known: Known, b: Batch, unit: nat)
    requires Load(b) <= |allowed| + |source| + |known| && Unannounced(source, allowed, known, b)
    ensures !Fits(source, allowed, known, unit)
  {
    hide NameSize, OpenDir, Relative, Gone;
  }

  /** Where everything fits, no file replaces acknowledged descendants. */
  lemma NoTransitions(source: Tree, allowed: seq<Path>, known: Known, start: Batch, unit: nat)
    requires Walked(source, allowed, known, start) && Fits(source, allowed, known, unit)
    ensures start.prune == []
  {
    hide NameSize, OpenDir, Relative, Gone, Walked;
    if start.prune != [] {
      assert start.prune[0] in start.prune;
      TransitionInSource(source, allowed, known, start, start.prune[0]);
    }
  }

  lemma RootsFew(allowed: seq<Path>, unique: seq<Path>)
    requires RootsCover(allowed, unique)
    ensures |unique| <= |allowed|
  {
    hide NoNesting;
    DistinctFew(unique, allowed);
  }

  lemma {:induction false} DistinctFew(q: seq<Path>, all: seq<Path>)
    requires NoDup(q) && forall p :: p in q ==> p in all
    ensures |q| <= |all|
    decreases q
  {
    if q != [] {
      var rest, last := q[..|q| - 1], q[|q| - 1];
      assert last in q && q == rest + [last];
      var i :| 0 <= i < |all| && all[i] == last;
      var others := all[..i] + all[i + 1..];
      forall p | p in rest ensures p in others {
        var j :| 0 <= j < |rest| && rest[j] == p;
        assert q[j] != q[|q| - 1] && p in all;
        var k :| 0 <= k < |all| && all[k] == p;
        assert k != i;
        assert p in all[..i] || p in all[i + 1..];
      }
      DistinctFew(rest, others);
    }
  }

  // ---------- the collection ----------

  /** Whatever replaces acknowledged descendants was marked by the walk. */
  lemma ReplacingIsMarked(
    source: Tree, allowed: seq<Path>, known: Known, cursor: seq<Path>, start: Batch, size: nat, t: Path)
    requires WellFormed(source) && Walked(source, allowed, known, start) && Justified(source, allowed, known, cursor, start, size)
    requires Retiring(source, known, cursor, start) && Replacing(source, allowed, known, cursor, start, t)
    requires Listed(start, t) && exists k :: k in known && t < k
    ensures t in start.prune
  {
    hide WellFormed, Relative, ScopedRelative, NoDup, NameSize, NewFiles, OmitReason, Named, WalkPaths;
    if Observed(start, t) {
      ObservedInSource(source, allowed, known, start, t);
    } else {
      var d :| d in start.deferred && d <= t;
      assert DeferReason(source, known, cursor, start, size, d);
      if d != t {
        WaitsAbove(source, known, cursor, start, size, d, t);
        DeferredInScope(source, allowed, known, start, d);
      }
    }
  }

  lemma DeferredInScope(source: Tree, allowed: seq<Path>, known: Known, b: Batch, d: Path)
    requires Walked(source, allowed, known, b) && d in b.deferred
    ensures InRoots(d, allowed)
  {
    hide FileFrom, VerifyFrom, TransitionFrom, Marked, NormalName, NoDup, WalkPaths;
  }

  /** Nothing else makes a file wait from above. */
  lemma WaitsAbove(source: Tree, known: Known, cursor: seq<Path>, b: Batch, size: nat, d: Path, t: Path)
    requires WellFormed(source) && t in source && d < t && DeferReason(source, known, cursor, b, size, d)
    ensures InRoots(t, cursor) || d in known
  {
    hide WellFormed, NoRoomFor;
    if InRoots(d, cursor) {
      var c :| c in cursor && c <= d;
      assert c <= t;
    }
    if d in source && source[d].File? { FilesDoNotNest(source, d, t); }
  }

  /** What is emptied is drained. */
  lemma EmptiedIsDrained(known: Known, b: Batch, d: Path)
    requires Emptied(known, b, d) && NoDup(IdPaths(b.delete))
    ensures Drained(known, Deleted(b), d)
  {
    hide NoDup, IdPaths, Index;
    IndexGet(b.delete);
  }

  lemma RetiresAll(
    source: Tree, allowed: seq<Path>, known: Known, cursor: seq<Path>, start: Batch, size: nat, found: Batch, b: Batch)
    requires Assembled(source, allowed, known, start, found, b) && Justified(source, allowed, known, cursor, start, size)
    requires Retiring(source, known, cursor, start)
    requires forall p :: p in source && InRoots(p, allowed) && !source[p].Directory? ==> Listed(start, p)
    ensures Retires(source, allowed, known, cursor, b)
  {
    hide WellFormed, Walked, Justified, Retiring, Listed, NoDup, NoNesting, Sorted, DeletionFrom, AnsweredTo, IdPaths, Deleted, Drained,
         InRoots, Elements, Load;
    forall t, d | Replacing(source, allowed, known, cursor, b, t) && t <= d && Emptied(known, b, d) ensures CoveredBy(b.prune, d) {
      var k :| k in known && d < k;
      assert t < k;
      InRootsGrow(t, start.omitted, b.omitted);
      ReplacingIsMarked(source, allowed, known, cursor, start, size, t);
      assert IsContainer(known, start.prune, d);
      EmptiedIsDrained(known, b, d);
    }
  }

  lemma CompleteFrom(source: Tree, allowed: seq<Path>, known: Known, cursor: seq<Path>, start: Batch, found: Batch, b: Batch)
    requires Assembled(source, allowed, known, start, found, b) && Justified(source, allowed, known, cursor, found, Carried(found))
    requires forall p :: p in source && InRoots(p, allowed) && !source[p].Directory? ==> Listed(start, p)
    requires Retires(source, allowed, known, cursor, b)
    ensures Complete(source, allowed, known, cursor, b)
  {
    hide Walked, Discovered, FileFrom, VerifyFrom, Relative, Gone, Listed, Answered, InRoots, Sorted, WellFormed, Grows,
         OmitReason, DeferReason, FilesTotal, IdsTotal, NoDup, NoNesting, IsContainer, Drained, Retires, CoveredBy;
    SeqMembers(source, allowed, known, start);
    AllDiscovered(source, allowed, known, start, found);
    forall p | p in source && InRoots(p, allowed) && !source[p].Directory? ensures Listed(b, p) {
      StillListed(start, found, p);
      SameListed(source, found, b, p);
    }
    forall k | k in known && InRoots(k, allowed) ensures Answered(source, b, k) { SameListed(source, found, b, k); }
    assert Carried(b) == Carried(found);
    JustifiedKept(source, allowed, known, cursor, found, Carried(found), b, Carried(b));
  }

  lemma AllDiscovered(source: Tree, allowed: seq<Path>, known: Known, start: Batch, found: Batch)
    requires Discovered(source, allowed, known, Sorted(known.Keys), |known|, start, found)
    ensures found.files == start.files && found.verify == start.verify && Grows(start, found)
    ensures forall id :: id in found.delete ==> Gone(source, id.path) && Relative(id.path, allowed) && id.path in known
    ensures forall k :: k in known && InRoots(k, allowed) ==> Answered(source, found, k)
  {
    hide Relative, ScopedRelative, NoDup, Elements, Answered, Gone, InRoots, Sorted, Grows, Load;
    var names := Sorted(known.Keys);
    forall k | k in known && InRoots(k, allowed) ensures Answered(source, found, k) {
      assert k in names;
      var j :| 0 <= j < |names| && names[j] == k;
    }
  }

  lemma SameListed(source: Tree, a: Batch, b: Batch, p: Path)
    requires b == a.(prune := b.prune)
    ensures (Listed(b, p) <==> Listed(a, p)) && (Answered(source, b, p) <==> Answered(source, a, p))
  {
  }

  lemma LoadFew(a: Batch, b: Batch)
    requires b == a.(prune := b.prune)
    ensures Load(b) == Load(a) && Carried(b) == Carried(a)
  {
  }

  /** The last bound is never met where everything fits. */
  lemma AllFits(
    source: Tree, allowed: seq<Path>, known: Known, cursor: seq<Path>, start: Batch, found: Batch, b: Batch, size: nat, unit: nat)
    requires Assembled(source, allowed, known, start, found, b) && Justified(source, allowed, known, cursor, b, size)
    requires Load(b) <= |allowed| + |source| + |known| && (start.prune == [] ==> b.prune == [])
    requires Carried(b) + NamesTotal(b.omitted) + NamesTotal(b.deferred) + NamesTotal(b.prune) > PAYLOAD_LIMIT
    ensures !Fits(source, allowed, known, unit)
  {
    hide *;
    if Fits(source, allowed, known, unit) {
      AssembledItems(source, allowed, known, start, found, b);
      NoTransitions(source, allowed, known, start, unit);
      RecordsFit(source, allowed, known, cursor, b, size, unit);
      WithinPayload(source, allowed, known, Load(b), unit);
      assert NamesTotal(b.prune) == 0 by { NoNames(b.prune); }
    }
  }

  lemma NoNames(q: seq<Path>)
    ensures q == [] ==> NamesTotal(q) == 0
  {
  }

  lemma WithinPayload(source: Tree, allowed: seq<Path>, known: Known, n: nat, unit: nat)
    requires Fits(source, allowed, known, unit) && n <= |allowed| + |source| + |known|
    ensures n * unit <= PAYLOAD_LIMIT
  {
    hide NameSize, OpenDir, Relative, Gone, RootsOk;
    Times(n, |source| + |allowed| + |known| + 1, unit);
  }

  lemma AssembledItems(source: Tree, allowed: seq<Path>, known: Known, start: Batch, found: Batch, b: Batch)
    requires Assembled(source, allowed, known, start, found, b)
    ensures Walked(source, allowed, known, start)
    ensures forall item :: item in b.files ==> FileFrom(source, allowed, known, item)
    ensures forall id :: id in b.verify ==> VerifyFrom(source, allowed, known, id)
    ensures forall id :: id in b.delete ==> id.path in known
  {
    hide Walked, Discovered, Gone, Relative, Sorted, WellFormed, FileFrom, VerifyFrom, NoDup, NoNesting, IsContainer, Drained;
    SeqMembers(source, allowed, known, start);
    AllDiscovered(source, allowed, known, start, found);
  }

  /** Collect one bounded batch. A returned batch is ready and complete, and where everything fits one is returned. */
  method Collect(source: Tree, allowed: seq<Path>, known: Known, cursor: seq<Path>) returns (ok: bool, b: Batch)
    requires WellFormed(source) && NamesNormal(source)
    requires forall c :: c in cursor ==> Relative(c, allowed)
    ensures ok ==> Gathered(source, allowed, known, cursor, b)
    ensures !ok ==> forall unit: nat :: !Fits(source, allowed, known, unit)
  {
    hide Walked, Discovered, Relative, NoDup, NoNesting, Sorted, Fresh, WellFormed, NamesNormal, NoneAbove, Justified, Listed, Refused, Load,
         RootsCover, IsContainer, Drained, Ready, RootsOk, NewFiles, FilesTotal, IdsTotal, NamesTotal, OpenDir, Deleted, Complete,
         Unannounced, Fits, InRoots, Retiring, Retires, CoveredBy;
    b := Batch(None, [], [], [], [], [], []);
    var fine, unique := UniqueRoots(allowed);
    if !fine || [GIT] in source {
      RootsMisfit(source, allowed, known);
      return false, b;
    }
    RootsFew(allowed, unique);
    EmptyLoad();
    var c := new Collection(source, allowed, known, cursor);
    fine := WalkRoots(c, unique);
    if !fine {
      forall unit: nat { WalkFits(source, allowed, known, cursor, c.batch, c.size, c.entries, unit); }
      return false, b;
    }
    var start := c.batch;
    NothingDiscovered(source, allowed, known, Sorted(known.Keys), start);
    var found, size;
    fine, found, size := DiscoverDeletions(source, allowed, unique, known, cursor, start, c.size);
    if !fine {
      forall unit: nat { DiscoveryFits(source, allowed, known, found, unit); }
      return false, b;
    }
    TransitionsApart(source, allowed, known, start);
    var counts;
    fine, counts := CountContainers(known, Deleted(found), start.prune);
    if !fine {
      forall unit: nat { TransitionsMisfit(source, allowed, known, start, unit); }
      return false, b;
    }
    var roots := OutermostDrained(counts);
    b := found.(prune := roots);
    SameDeletions(found, b);
    LoadFew(found, b);
    AssembledSo(source, allowed, known, start, found, b, counts);
    JustifiedKept(source, allowed, known, cursor, found, size, b, size);
    if size + NamesTotal(b.omitted) + NamesTotal(b.deferred) + NamesTotal(b.prune) > PAYLOAD_LIMIT {
      forall unit: nat { AllFits(source, allowed, known, cursor, start, found, b, size, unit); }
      return false, b;
    }
    CollectedIsReady(source, allowed, known, start, found, b, c.newRemaining);
    RetiresAll(source, allowed, known, cursor, start, c.size, found, b);
    CompleteFrom(source, allowed, known, cursor, start, found, b);
    ok := true;
  }

  lemma EmptyLoad()
    ensures var b := Batch(None, [], [], [], [], [], []); Load(b) == 0 && WalkPaths(b) == []
  {
  }

  lemma RootsMisfit(source: Tree, allowed: seq<Path>, known: Known)
    requires !RootsOk(allowed) || [GIT] in source
    ensures forall unit: nat :: !Fits(source, allowed, known, unit)
  {
    hide NameSize, OpenDir, Relative, Gone, RootsOk;
  }

  lemma TransitionsMisfit(source: Tree, allowed: seq<Path>, known: Known, start: Batch, unit: nat)
    requires Walked(source, allowed, known, start) && start.prune != []
    ensures !Fits(source, allowed, known, unit)
  {
    hide Walked, Fits;
    if Fits(source, allowed, known, unit) { NoTransitions(source, allowed, known, start, unit); }
  }

  lemma AssembledSo(source: Tree, allowed: seq<Path>, known: Known, start: Batch, found: Batch, b: Batch, counts: Counts)
    requires WellFormed(source) && Walked(source, allowed, known, start)
    requires Discovered(source, allowed, known, Sorted(known.Keys), |known|, start, found)
    requires b == found.(prune := b.prune) && Deleted(b) == Deleted(found) && NoDup(b.prune) && NoNesting(b.prune)
    requires |b.prune| <= |counts|
    requires forall d :: d in counts <==> IsContainer(known, start.prune, d)
    requires forall d :: d in counts ==> (counts[d].0 == counts[d].1 <==> Drained(known, Deleted(found), d))
    requires forall r :: r in b.prune ==> EvidenceRetirement.Full(counts, r)
    requires forall d :: EvidenceRetirement.Full(counts, d) ==> CoveredBy(b.prune, d)
    ensures Assembled(source, allowed, known, start, found, b)
    ensures start.prune == [] ==> b.prune == []
  {
    hide WellFormed, Walked, Discovered, NoDup, NoNesting, Drained, Deleted, Sorted, CoveredBy;
    if b.prune != [] {
      assert b.prune[0] in b.prune && IsContainer(known, start.prune, b.prune[0]);
      var t, k :| t in start.prune && k in known && t <= b.prune[0] && b.prune[0] < k;
    }
  }

  lemma SameDeletions(a: Batch, b: Batch)
    requires a.delete == b.delete
    ensures Deleted(a) == Deleted(b)
  {
  }

  // ---------- when every source yields an item-valid batch ----------

  /** Roots in form; acknowledged paths in scope are in form and do not nest. */
  ghost predicate ScopeOk(allowed: seq<Path>, known: Known) {
    && RootsOk(allowed) && KnownPrefixFree(allowed, known)
    && forall k :: k in known && InRoots(k, allowed) ==> Relative(k, allowed)
  }

  predicate DigestsOk(allowed: seq<Path>, known: Known) { forall k | k in known && InRoots(k, allowed) :: known[k].Sha256? }

  /** The acknowledged paths in scope and the directories above them. */
  function AtOrAbove(allowed: seq<Path>, known: Known): set<Path> {
    set k, n | k in known && InRoots(k, allowed) && 0 < n <= |k| :: k[..n]
  }

  /** A source that holds one acknowledged path as an empty file and the others as something irregular. */
  function Showing(allowed: seq<Path>, known: Known, p: Path): Tree {
    map q | q in AtOrAbove(allowed, known) ::
      if q == p then File([]) else if q in known && InRoots(q, allowed) then Other(false) else Directory
  }

  /** The acknowledged inventory leaves room to list all of it and to send one small file. */
  ghost predicate Roomy(allowed: seq<Path>, known: Known, unit: nat) {
    && |AtOrAbove(allowed, known)| + |allowed| + |known| < INVENTORY_LIMIT
    && (|AtOrAbove(allowed, known)| + |allowed| + |known| + 1) * unit <= PAYLOAD_LIMIT
    && forall q :: q in AtOrAbove(allowed, known) || q in allowed || q in known ==> NameSize(q) <= unit
  }

  lemma AboveOf(allowed: seq<Path>, known: Known, q: Path) returns (k: Path)
    requires q in AtOrAbove(allowed, known)
    ensures k in known && InRoots(k, allowed) && q <= k && q != []
  {
    var j, n :| j in known && InRoots(j, allowed) && 0 < n <= |j| && j[..n] == q;
    k := j;
  }

  lemma AboveIs(allowed: seq<Path>, known: Known, q: Path, k: Path)
    requires k in known && InRoots(k, allowed) && q <= k && q != []
    ensures q in AtOrAbove(allowed, known)
  {
    assert k[..|q|] == q;
  }

  /** What the showing source holds at each of its paths. */
  lemma ShowingAt(allowed: seq<Path>, known: Known, p: Path, q: Path)
    requires ScopeOk(allowed, known) && q in AtOrAbove(allowed, known) && p in known && InRoots(p, allowed)
    ensures |q| <= DEPTH_LIMIT && !Marked(q) && q != [] && forall c :: c in q ==> NormalName(c)
    ensures |q| > 1 ==> Parent(q) in AtOrAbove(allowed, known) && Showing(allowed, known, p)[Parent(q)].Directory?
    ensures forall k :: k in known && InRoots(k, allowed) && q < k ==> Showing(allowed, known, p)[q].Directory?
  {
    hide AtOrAbove, InRoots;
    var k := AboveOf(allowed, known, q);
    assert Relative(k, allowed);
    assert forall c :: c in q ==> c in k;
    if |q| > 1 { AboveIs(allowed, known, Parent(q), k); }
  }

  lemma ShowingIsTree(allowed: seq<Path>, known: Known, p: Path)
    requires ScopeOk(allowed, known) && p in known && InRoots(p, allowed)
    ensures WellFormed(Showing(allowed, known, p)) && NamesNormal(Showing(allowed, known, p))
  {
    hide ScopeOk, AtOrAbove, InRoots;
    var t := Showing(allowed, known, p);
    forall q | q in t ensures q != [] && (|q| > 1 ==> Parent(q) in t && t[Parent(q)].Directory?) && forall c | c in q :: NormalName(c) {
      ShowingAt(allowed, known, p, q);
    }
  }

  /** Nothing is in the way of an acknowledged path. */
  lemma {:induction false} ShowingOpens(allowed: seq<Path>, known: Known, p: Path, d: Path, k: Path)
    requires ScopeOk(allowed, known) && p in known && InRoots(p, allowed) && k in known && InRoots(k, allowed) && d < k
    ensures OpenDir(Showing(allowed, known, p), d).Found?
    decreases |d|
  {
    hide ScopeOk, AtOrAbove, InRoots;
    var t := Showing(allowed, known, p);
    if d != [] {
      ShowingOpens(allowed, known, p, Parent(d), k);
      AboveIs(allowed, known, d, k);
      ShowingAt(allowed, known, p, d);
      GitIsMarked(d);
      if d + [GIT] in t { ShowingAt(allowed, known, p, d + [GIT]); }
    }
  }

  lemma GitIsMarked(d: Path)
    ensures Marked(d + [GIT])
  {
    assert (d + [GIT])[|d|] == GIT;
  }

  lemma ShowingFits(allowed: seq<Path>, known: Known, p: Path, unit: nat)
    requires ScopeOk(allowed, known) && Roomy(allowed, known, unit) && p in known && InRoots(p, allowed)
    ensures Fits(Showing(allowed, known, p), allowed, known, unit)
  {
    hide AtOrAbove, InRoots, NameSize, OpenDir, Relative, RootsOk, Showing, ScopeOk, Roomy, Gone, Named, KnownPrefixFree;
    var t := Showing(allowed, known, p);
    ShowingHolds(allowed, known, p);
    ShowingSizes(allowed, known, p, unit);
    GitIsMarked([]);
    assert [] + [GIT] == [GIT];
    if [GIT] in t {
      InTree(allowed, known, p, [GIT]);
      ShowingAt(allowed, known, p, [GIT]);
    }
    forall q, k | q in t && t[q].File? && k in known ensures !(q < k) { FileIsLastOf(allowed, known, p, k); }
    forall k | k in known && InRoots(k, allowed)
      ensures !OpenDir(t, Parent(k)).Blocked? && !Gone(t, k) && Relative(k, allowed)
    {
      ScopeNames(allowed, known, k);
      ShowingOpens(allowed, known, p, Parent(k), k);
      NothingGone(allowed, known, p, k);
    }
  }

  lemma ShowingSizes(allowed: seq<Path>, known: Known, p: Path, unit: nat)
    requires ScopeOk(allowed, known) && Roomy(allowed, known, unit) && p in known && InRoots(p, allowed)
    ensures var t := Showing(allowed, known, p);
      && RootsOk(allowed) && |t| + |allowed| + |known| < INVENTORY_LIMIT && (|t| + |allowed| + |known| + 1) * unit <= PAYLOAD_LIMIT
      && (forall q :: q in t ==> |q| <= DEPTH_LIMIT && (t[q].File? ==> 4 * |t[q].bytes| + NameSize(q) <= unit))
      && (forall q :: Named(t, allowed, known, q) ==> NameSize(q) <= unit)
  {
    hide AtOrAbove, InRoots, NameSize, RootsOk;
    var t := Showing(allowed, known, p);
    assert |t| == |t.Keys| && t.Keys == AtOrAbove(allowed, known);
    hide ScopeOk;
    forall q | q in t ensures |q| <= DEPTH_LIMIT { ShowingAt(allowed, known, p, q); }
  }

  lemma FileIsLast(allowed: seq<Path>, known: Known, p: Path, k: Path)
    requires KnownPrefixFree(allowed, known) && p in known && InRoots(p, allowed) && k in known
    ensures !(p < k)
  {
    hide InRoots;
    if p < k { BelowIsInRoots(allowed, p, k); }
  }

  lemma BelowIsInRoots(allowed: seq<Path>, p: Path, k: Path)
    requires InRoots(p, allowed) && p <= k
    ensures InRoots(k, allowed)
  {
    var r :| r in allowed && r <= p;
    assert r <= k;
  }

  lemma ScopeNames(allowed: seq<Path>, known: Known, k: Path)
    requires ScopeOk(allowed, known) && k in known && InRoots(k, allowed)
    ensures Relative(k, allowed) && k != [] && Parent(k) < k
  {
  }

  /** Whatever is collected from the showing source uploads that path. */
  lemma ShowingIsUploaded(allowed: seq<Path>, known: Known, p: Path, unit: nat, b: Batch)
    requires ScopeOk(allowed, known) && Roomy(allowed, known, unit) && p in known && InRoots(p, allowed) && known[p].Malformed?
    requires Gathered(Showing(allowed, known, p), allowed, known, [], b)
    ensures !ItemsOk(allowed, b)
  {
    hide AtOrAbove, InRoots, NameSize, OpenDir, Relative, RootsOk, Ready, Justified, Answered, Showing;
    var t := Showing(allowed, known, p);
    AboveIs(allowed, known, p, p) by { ScopeNames(allowed, known, p); }
    ShowingHolds(allowed, known, p);
    assert Listed(b, p);
    if p !in FilePaths(b.files) {
      NothingCarried(allowed, known, p, b);
      NotOmitted(allowed, known, p, b);
      NotDeferred(allowed, known, p, unit, b);
    }
    var i :| 0 <= i < |b.files| && FilePaths(b.files)[i] == p;
    assert b.files[i] in b.files && FileFrom(t, allowed, known, b.files[i]);
    assert !FileOk(allowed, b.files[i]);
  }

  lemma ShowingHolds(allowed: seq<Path>, known: Known, p: Path)
    requires ScopeOk(allowed, known) && p in known && InRoots(p, allowed)
    ensures var t := Showing(allowed, known, p);
      && p in t && t[p] == File([])
      && (forall q :: q in t && t[q].File? ==> q == p)
      && (forall k :: k in known && InRoots(k, allowed) ==> k in t && !t[k].Directory?)
      && (forall q :: q in t && q < p ==> t[q].Directory? && (q in known ==> !InRoots(q, allowed)))
  {
    hide AtOrAbove, InRoots, Relative, RootsOk, KnownPrefixFree;
    var t := Showing(allowed, known, p);
    forall k | k in known && InRoots(k, allowed) ensures k in t && !t[k].Directory? {
      ScopeNames(allowed, known, k);
      AboveIs(allowed, known, k, k);
    }
    forall q | q in t && q < p ensures t[q].Directory? && (q in known ==> !InRoots(q, allowed)) {
      ShowingAt(allowed, known, p, q);
    }
  }

  lemma OnlyFile(allowed: seq<Path>, known: Known, p: Path, item: Artifact)
    requires ScopeOk(allowed, known) && p in known && InRoots(p, allowed)
    ensures FileFrom(Showing(allowed, known, p), allowed, known, item) ==> item.path == p
  {
    hide AtOrAbove, InRoots, Showing, ScopeOk, Unnested, Relative;
    ShowingHolds(allowed, known, p);
  }

  lemma NothingVerified(allowed: seq<Path>, known: Known, p: Path, id: Identity)
    requires ScopeOk(allowed, known) && p in known && InRoots(p, allowed) && known[p].Malformed?
    ensures !VerifyFrom(Showing(allowed, known, p), allowed, known, id)
  {
    hide AtOrAbove, InRoots, Showing, ScopeOk, Unnested, Relative;
    ShowingHolds(allowed, known, p);
  }

  lemma NothingGone(allowed: seq<Path>, known: Known, p: Path, k: Path)
    requires ScopeOk(allowed, known) && p in known && InRoots(p, allowed) && k in known && InRoots(k, allowed)
    ensures !Gone(Showing(allowed, known, p), k)
  {
    hide AtOrAbove, InRoots, Showing, ScopeOk;
    ShowingHolds(allowed, known, p);
  }

  lemma FirstPath(files: seq<Artifact>)
    requires files != []
    ensures files[0].path in FilePaths(files) && files[0] in files
  {
    assert FilePaths(files)[0] == files[0].path;
  }

  /** The batch carries nothing but, perhaps, that path. */
  lemma NothingCarried(allowed: seq<Path>, known: Known, p: Path, b: Batch)
    requires ScopeOk(allowed, known) && p in known && InRoots(p, allowed) && known[p].Malformed?
    requires Gathered(Showing(allowed, known, p), allowed, known, [], b) && p !in FilePaths(b.files)
    ensures b.files == [] && b.verify == [] && b.delete == [] && p !in IdPaths(b.verify) && Carried(b) == 0
  {
    hide AtOrAbove, InRoots, NameSize, OpenDir, RootsOk, Justified, Answered, Showing, Listed, ScopeOk, InventoriesOk, CountsOk,
         ItemsOk, ShapeOk, ExpectedWellFormed, NewFiles, Relative, FileFrom, VerifyFrom, Gone, FilePaths, IdPaths;
    var t := Showing(allowed, known, p);
    forall item | item in b.files ensures item.path == p { OnlyFile(allowed, known, p, item); }
    forall id | id in b.verify ensures false { NothingVerified(allowed, known, p, id); }
    forall id | id in b.delete ensures false {
      RelativeIsInRoots(id.path, allowed);
      NothingGone(allowed, known, p, id.path);
    }
    if b.files != [] { FirstPath(b.files); }
    NoMembers(b.verify);
    NoMembers(b.delete);
    NothingTotal();
  }

  lemma NoMembers(ids: seq<Identity>)
    requires forall id :: id !in ids
    ensures ids == [] && forall p :: p !in IdPaths(ids)
  {
    if ids != [] { FirstMember(ids); }
  }

  lemma FirstMember(ids: seq<Identity>)
    requires ids != []
    ensures ids[0] in ids
  {
  }

  lemma NothingTotal()
    ensures FilesTotal([]) == 0 && IdsTotal([]) == 0
  {
  }

  lemma RelativeIsInRoots(p: Path, allowed: seq<Path>)
    requires Relative(p, allowed)
    ensures InRoots(p, allowed)
  {
  }

  /** Nothing at or above that path may be omitted. */
  lemma NotOmitted(allowed: seq<Path>, known: Known, p: Path, b: Batch)
    requires ScopeOk(allowed, known) && p in known && InRoots(p, allowed)
    requires Gathered(Showing(allowed, known, p), allowed, known, [], b)
    ensures !InRoots(p, b.omitted)
  {
    hide AtOrAbove, NameSize, OpenDir, RootsOk, Answered, Showing, Listed, ScopeOk, Ready, FileFrom, VerifyFrom, Relative, Gone;
    var t := Showing(allowed, known, p);
    ShowingHolds(allowed, known, p);
    ScopeNames(allowed, known, p);
    OpenRoot(t);
    forall o | o in b.omitted ensures !(o <= p) {
      assert OmitReason(t, o);
      if o <= p {
        assert o == p || o < p;
        if o != [] {
          ShowingOpens(allowed, known, p, Parent(o), p);
        }
        InShowing(allowed, known, p, o);
      }
    }
  }

  lemma OpenRoot(t: Tree)
    ensures OpenDir(t, Parent([])).Found?
  {
  }

  lemma InShowing(allowed: seq<Path>, known: Known, p: Path, q: Path)
    requires ScopeOk(allowed, known) && p in known && InRoots(p, allowed) && q <= p
    ensures var t := Showing(allowed, known, p); q in t ==> q != [] && !Marked(q) && q + [GIT] !in t
  {
    hide AtOrAbove, InRoots;
    var t := Showing(allowed, known, p);
    if q in t { ShowingAt(allowed, known, p, q); }
    GitIsMarked(q);
    if q + [GIT] in t { ShowingAt(allowed, known, p, q + [GIT]); }
  }

  /** Nothing at or above that path has a reason to wait. */
  lemma NotDeferred(allowed: seq<Path>, known: Known, p: Path, unit: nat, b: Batch)
    requires ScopeOk(allowed, known) && Roomy(allowed, known, unit) && p in known && InRoots(p, allowed)
    requires Gathered(Showing(allowed, known, p), allowed, known, [], b) && b.files == [] && b.delete == [] && Carried(b) == 0
    ensures !InRoots(p, b.deferred)
  {
    hide AtOrAbove, NameSize, OpenDir, RootsOk, Answered, Showing, Listed, ScopeOk, Ready, FileFrom, VerifyFrom, Gone, Roomy;
    var t := Showing(allowed, known, p);
    ShowingHolds(allowed, known, p);
    ScopeNames(allowed, known, p);
    OneFits(allowed, known, p, unit);
    assert 4 * |t[p].bytes| == 0;
    forall d | d in b.deferred ensures !(d <= p) {
      assert DeferReason(t, known, [], b, 0, d);
      DeferredIsRelative(allowed, known, b, d);
      RelativeIsInRoots(d, allowed);
      if d < p {
        AboveIs(allowed, known, d, p);
        InTree(allowed, known, p, d);
      } else if d == p {
        forall k | k in known ensures !(p < k) { FileIsLastOf(allowed, known, p, k); }
      }
    }
  }

  lemma DeferredIsRelative(allowed: seq<Path>, known: Known, b: Batch, d: Path)
    requires Ready(allowed, known, b) && d in b.deferred
    ensures Relative(d, allowed)
  {
    hide Relative, CountsOk, ItemsOk, ShapeOk, RootsOk;
  }

  lemma FileIsLastOf(allowed: seq<Path>, known: Known, p: Path, k: Path)
    requires ScopeOk(allowed, known) && p in known && InRoots(p, allowed) && k in known
    ensures !(p < k)
  {
    FileIsLast(allowed, known, p, k);
  }

  lemma InTree(allowed: seq<Path>, known: Known, p: Path, q: Path)
    ensures q in Showing(allowed, known, p) <==> q in AtOrAbove(allowed, known)
  {
    hide AtOrAbove;
  }

  lemma OneFits(allowed: seq<Path>, known: Known, p: Path, unit: nat)
    requires Roomy(allowed, known, unit) && p in known
    ensures NameSize(p) <= PAYLOAD_LIMIT && |known| < INVENTORY_LIMIT
  {
    hide NameSize, AtOrAbove;
    Times(1, |AtOrAbove(allowed, known)| + |allowed| + |known| + 1, unit);
  }

  /** Well-formed acknowledged digests are enough, whatever the source holds. */
  lemma WellFormedIsEnough(source: Tree, allowed: seq<Path>, known: Known, cursor: seq<Path>, b: Batch)
    requires Gathered(source, allowed, known, cursor, b) && DigestsOk(allowed, known)
    ensures ItemsOk(allowed, b)
  {
    hide NewFiles, Justified, Answered, Listed, Gone, Unnested, InventoriesOk, CountsOk, ShapeOk, ItemsOk, ScopedRelative, InRoots;
    forall item | item in b.files ensures item.expected.Some? ==> item.expected.value.Sha256? {
      assert FileFrom(source, allowed, known, item);
      RelativeIsInRoots(item.path, allowed);
    }
  }

  /** Every source yields an item-valid batch if and only if every acknowledged digest in scope is well formed; where
      one is not, a source whose collection is refused by the validation. */
  method ProbeDigests(allowed: seq<Path>, known: Known, ghost unit: nat) returns (valid: bool, source: Tree, b: Batch)
    requires ScopeOk(allowed, known) && Roomy(allowed, known, unit)
    ensures valid <==> DigestsOk(allowed, known)
    ensures (forall t, cursor, c :: Gathered(t, allowed, known, cursor, c) ==> ItemsOk(allowed, c)) <==> DigestsOk(allowed, known)
    ensures !valid ==> WellFormed(source) && NamesNormal(source) && Gathered(source, allowed, known, [], b) && !ItemsOk(allowed, b)
  {
    hide *;
    valid, source, b := true, map[], Batch(None, [], [], [], [], [], []);
    if p :| p in known && InRoots(p, allowed) && !known[p].Sha256? {
      BadDigest(allowed, known, p);
      ShowingIsTree(allowed, known, p);
      ShowingFits(allowed, known, p, unit);
      valid, source := false, Showing(allowed, known, p);
      var ok;
      ok, b := Collect(source, allowed, known, []);
      ShowingIsUploaded(allowed, known, p, unit, b);
    } else {
      assert DigestsOk(allowed, known) by { GoodDigests(allowed, known); }
      forall t, cursor, c | Gathered(t, allowed, known, cursor, c) ensures ItemsOk(allowed, c) {
        WellFormedIsEnough(t, allowed, known, cursor, c);
      }
    }
  }

  lemma BadDigest(allowed: seq<Path>, known: Known, p: Path)
    requires p in known && InRoots(p, allowed) && !known[p].Sha256?
    ensures known[p].Malformed? && !DigestsOk(allowed, known)
  {
  }

  lemma GoodDigests(allowed: seq<Path>, known: Known)
    requires forall p :: p in known && InRoots(p, allowed) ==> known[p].Sha256?
    ensures DigestsOk(allowed, known)
  {
  }
}
