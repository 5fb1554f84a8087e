/** The sender's collection of one bounded batch from its source tree: the walk over allowed roots,
    deletion discovery over acknowledged paths, and the choice of directories to retire. */
module EvidenceCollector {
  import opened Effects
  import opened Order
  import opened EvidenceModel
  import opened EvidenceFrames
  import opened EvidenceLedger

  /** A directory listing never yields an empty name or a dot entry. */
  ghost predicate NamesNormal(t: Tree) {
    forall p | p in t :: forall c | c in p :: NormalName(c)
  }

  // ---------- what a walk may record ----------

  /** No acknowledged path lies strictly above (within the roots) or strictly below `p`. */
  ghost predicate Unnested(allowed: seq<Path>, known: Known, p: Path) {
    forall k :: k in known ==> !(p < k) && (InRoots(k, allowed) ==> !(k < p))
  }

  ghost predicate FileFrom(source: Tree, allowed: seq<Path>, known: Known, item: Artifact) {
    && item.path in source && source[item.path] == File(item.bytes) && |item.bytes| <= FILE_LIMIT
    && item.sha256 == Sha256(item.bytes) && item.expected == KnownDigest(known, item.path) && item.expected != Some(item.sha256)
    && Relative(item.path, allowed) && Unnested(allowed, known, item.path)
  }

  ghost predicate VerifyFrom(source: Tree, allowed: seq<Path>, known: Known, id: Identity) {
    && id.path in source && source[id.path].File? && id.sha256 == Sha256(source[id.path].bytes)
    && id.path in known && known[id.path] == id.sha256
    && Relative(id.path, allowed) && Unnested(allowed, known, id.path)
  }

  /** A regular file that replaces acknowledged descendants. */
  ghost predicate TransitionFrom(source: Tree, allowed: seq<Path>, known: Known, p: Path) {
    p in source && source[p].File? && Relative(p, allowed) && exists k :: k in known && p < k
  }

  /** A regular file where the acknowledged inventory has descendants. */
  ghost predicate Replaces(source: Tree, known: Known, p: Path) {
    p in source && source[p].File? && exists k :: k in known && p < k
  }

  /** A file that replaces acknowledged descendants waits for its containers to be retired. */
  ghost predicate Retiring(source: Tree, known: Known, cursor: seq<Path>, b: Batch) {
    forall p :: p in b.deferred && Replaces(source, known, p) && !InRoots(p, cursor) ==> p in b.prune
  }

  lemma RetiringSame(source: Tree, known: Known, cursor: seq<Path>, a: Batch, b: Batch)
    requires Retiring(source, known, cursor, a) && b.deferred == a.deferred && b.prune == a.prune
    ensures Retiring(source, known, cursor, b)
  {
  }

  lemma RetiringMore(source: Tree, known: Known, cursor: seq<Path>, a: Batch, b: Batch, p: Path)
    requires Retiring(source, known, cursor, a) && b.deferred == a.deferred + [p]
    requires b.prune == a.prune + [p] || (b.prune == a.prune && (InRoots(p, cursor) || !Replaces(source, known, p)))
    ensures Retiring(source, known, cursor, b)
  {
    hide Replaces, InRoots;
    forall q | q in b.deferred && Replaces(source, known, q) && !InRoots(q, cursor) ensures q in b.prune {
      assert q in a.deferred || q == p;
    }
  }

  function WalkPaths(b: Batch): seq<Path> { FilePaths(b.files) + IdPaths(b.verify) + b.prune }

  ghost predicate Walked(source: Tree, allowed: seq<Path>, known: Known, b: Batch) {
    && (forall i :: 0 <= i < |b.files| ==> FileFrom(source, allowed, known, b.files[i]))
    && (forall i :: 0 <= i < |b.verify| ==> VerifyFrom(source, allowed, known, b.verify[i]))
    && (forall i :: 0 <= i < |b.prune| ==> TransitionFrom(source, allowed, known, b.prune[i]))
    && (forall i :: 0 <= i < |b.omitted| ==> ScopedRelative(b.omitted[i], allowed))
    && (forall i :: 0 <= i < |b.deferred| ==> Relative(b.deferred[i], allowed))
    && NoDup(WalkPaths(b))
    && |b.files| <= FILE_COUNT_LIMIT && |b.verify| <= INVENTORY_LIMIT
    && b.delete == [] && b.exchangeId == None
  }

  ghost predicate Counted(known: Known, b: Batch, size: nat, newRemaining: nat) {
    && size == FilesTotal(b.files) + IdsTotal(b.verify) + IdsTotal(b.delete) <= PAYLOAD_LIMIT
    && newRemaining + NewFiles(known, b.files) == if |known| <= INVENTORY_LIMIT then INVENTORY_LIMIT - |known| else 0
  }

  /** `b` extends `a` by paths at or below `p` only. */
  ghost predicate Extends(a: Batch, b: Batch, p: Path) {
    forall q :: q in WalkPaths(b) ==> q in WalkPaths(a) || p <= q
  }

  ghost predicate Fresh(b: Batch, p: Path) {
    forall q :: q in WalkPaths(b) ==> !(p <= q)
  }

  ghost predicate NoneAbove(allowed: seq<Path>, known: Known, p: Path) {
    forall k :: k in known && InRoots(k, allowed) ==> !(k < p)
  }

  function Children(t: Tree, d: Path): seq<Path> {
    Sorted(set p | p in t && |p| == |d| + 1 && d < p)
  }

  // ---------- recording one entry ----------

  lemma RecordFile(source: Tree, allowed: seq<Path>, known: Known, b: Batch, item: Artifact)
    requires Walked(source, allowed, known, b) && FileFrom(source, allowed, known, item)
    requires Fresh(b, item.path) && |b.files| < FILE_COUNT_LIMIT
    ensures Walked(source, allowed, known, b.(files := b.files + [item]))
    ensures Extends(b, b.(files := b.files + [item]), item.path)
    ensures FilesTotal(b.files + [item]) == FilesTotal(b.files) + FileSize(item)
    ensures NewFiles(known, b.files + [item]) == NewFiles(known, b.files) + (if item.path in known then 0 else 1)
  {
    hide FileFrom, VerifyFrom, TransitionFrom, Relative, ScopedRelative, FileSize;
    assert item.path <= item.path;
    var b' := b.(files := b.files + [item]);
    assert (b.files + [item])[..|b.files|] == b.files;
    assert WalkPaths(b') == FilePaths(b.files) + [item.path] + (IdPaths(b.verify) + b.prune);
    assert WalkPaths(b) == FilePaths(b.files) + (IdPaths(b.verify) + b.prune);
    InsertDistinct(FilePaths(b.files), item.path, IdPaths(b.verify) + b.prune);
  }

  lemma RecordVerify(source: Tree, allowed: seq<Path>, known: Known, b: Batch, id: Identity)
    requires Walked(source, allowed, known, b) && VerifyFrom(source, allowed, known, id)
    requires Fresh(b, id.path) && |b.verify| < INVENTORY_LIMIT
    ensures Walked(source, allowed, known, b.(verify := b.verify + [id]))
    ensures Extends(b, b.(verify := b.verify + [id]), id.path)
    ensures IdsTotal(b.verify + [id]) == IdsTotal(b.verify) + NameSize(id.path)
  {
    hide FileFrom, VerifyFrom, TransitionFrom, Relative, ScopedRelative, NameSize;
    assert id.path <= id.path;
    var b' := b.(verify := b.verify + [id]);
    assert (b.verify + [id])[..|b.verify|] == b.verify;
    assert WalkPaths(b') == (FilePaths(b.files) + IdPaths(b.verify)) + [id.path] + b.prune;
    InsertDistinct(FilePaths(b.files) + IdPaths(b.verify), id.path, b.prune);
  }

  lemma RecordTransition(source: Tree, allowed: seq<Path>, known: Known, b: Batch, p: Path)
    requires Walked(source, allowed, known, b) && TransitionFrom(source, allowed, known, p) && Fresh(b, p)
    ensures Walked(source, allowed, known, b.(prune := b.prune + [p], deferred := b.deferred + [p]))
    ensures Extends(b, b.(prune := b.prune + [p], deferred := b.deferred + [p]), p)
  {
    hide FileFrom, VerifyFrom, Relative, ScopedRelative;
    assert p <= p;
    var b' := b.(prune := b.prune + [p], deferred := b.deferred + [p]);
    assert WalkPaths(b') == WalkPaths(b) + [p] + [];
    assert WalkPaths(b) + [] == WalkPaths(b);
    InsertDistinct(WalkPaths(b), p, []);
  }

  lemma InsertDistinct(a: seq<Path>, p: Path, c: seq<Path>)
    requires NoDup(a + c) && p !in a + c
    ensures NoDup(a + [p] + c)
    ensures forall q :: q in a + [p] + c ==> q in a + c || q == p
  {
    var s, q := a + c, a + [p] + c;
    forall i, j | 0 <= i < j < |q| ensures q[i] != q[j] {
      assert i < |a| ==> q[i] == s[i] && s[i] in s;
      assert i > |a| ==> q[i] == s[i - 1];
      assert j < |a| ==> q[j] == s[j];
      assert j > |a| ==> q[j] == s[j - 1] && s[j - 1] in s;
    }
  }

  /** Why a walk gives up: too deep, too many entries, or no room to list or to verify. */
  ghost predicate Refused(source: Tree, known: Known, b: Batch, size: nat, entries: nat) {
    || (exists p :: p in source && |p| > DEPTH_LIMIT)
    || entries > INVENTORY_LIMIT || |b.omitted| + |b.deferred| > INVENTORY_LIMIT || |b.verify| >= INVENTORY_LIMIT
    || (exists p :: p in source && p in known && size + NameSize(p) > PAYLOAD_LIMIT)
  }

  /** The collection in progress. */
  class Collection {
    const source: Tree
    const allowed: seq<Path>
    const known: Known
    const cursor: seq<Path>
    var batch: Batch
    var size: nat
    var entries: nat
    var newRemaining: nat

    constructor (source: Tree, allowed: seq<Path>, known: Known, cursor: seq<Path>)
      ensures this.source == source && this.allowed == allowed && this.known == known && this.cursor == cursor
      ensures batch == Batch(None, [], [], [], [], [], []) && entries == 0
      ensures Sound()
    {
      this.source, this.allowed, this.known, this.cursor := source, allowed, known, cursor;
      batch := Batch(None, [], [], [], [], [], []);
      size, entries := 0, 0;
      newRemaining := if |known| <= INVENTORY_LIMIT then INVENTORY_LIMIT - |known| else 0;
    }

    /** Everything recorded comes from the source, within the bounds, and whatever is left out has its reason. */
    ghost predicate Sound()
      reads this
    {
      && Walked(source, allowed, known, batch) && Counted(known, batch, size, newRemaining)
      && Justified(source, allowed, known, cursor, batch, size) && Retiring(source, known, cursor, batch)
    }

    /** Verify an unchanged file. */
    method VerifyFile(path: Path) returns (ok: bool)
      requires Sound() && Fresh(batch, path) && path in source && source[path].File?
      requires VerifyFrom(source, allowed, known, Identity(path, Sha256(source[path].bytes)))
      modifies this`batch, this`size
      ensures Sound() && Extends(old(batch), batch, path)
      ensures Grows(old(batch), batch) && old(size) <= size && Load(batch) <= Load(old(batch)) + 1
      ensures ok ==> batch.verify == old(batch.verify) + [Identity(path, Sha256(source[path].bytes))] && Listed(batch, path)
      ensures !ok ==> Refused(source, known, batch, size, entries)
    {
      hide VerifyFrom, NameSize, FilesTotal, IdsTotal, NewFiles, Justified, InRoots, Walked, IdPaths, Retiring;
      ghost var before, spent := batch, size;
      var id := Identity(path, Sha256(source[path].bytes));
      var encoded := NameSize(path);
      if |batch.verify| >= INVENTORY_LIMIT || size + encoded > PAYLOAD_LIMIT {
        assert path in known by { VerifiedIsKnownHere(source, allowed, known, id); }
        return false;
      }
      RecordVerify(source, allowed, known, batch, id);
      size := size + encoded;
      batch := batch.(verify := batch.verify + [id]);
      JustifiedKept(source, allowed, known, cursor, before, spent, batch, size);
      RetiringSame(source, known, cursor, before, batch);
      LastIsListed(batch, path);
      ok := true;
    }

    /** Leave a file to a later exchange. */
    method Postpone(path: Path)
      requires Sound() && path in source && Relative(path, allowed) && !Replaces(source, known, path)
      requires DeferReason(source, known, cursor, batch, size, path)
      modifies this`batch
      ensures Sound() && Extends(old(batch), batch, path) && Grows(old(batch), batch) && Load(batch) == Load(old(batch)) + 1
      ensures batch == old(batch).(deferred := old(batch).deferred + [path]) && Listed(batch, path)
    {
      hide Relative, Justified, Walked, Listed, Retiring, Replaces, Counted, DeferReason;
      ghost var before := batch;
      WalkedDefer(source, allowed, known, batch, path);
      CountedSame(known, batch, batch.(deferred := batch.deferred + [path]), size, newRemaining);
      batch := batch.(deferred := batch.deferred + [path]);
      Deferring(source, allowed, known, cursor, before, batch, size, path);
      RetiringMore(source, known, cursor, before, batch, path);
    }

    /** Upload a file there is room for. */
    method Send(path: Path, item: Artifact)
      requires Sound() && Fresh(batch, path) && item.path == path && FileFrom(source, allowed, known, item)
      requires size + FileSize(item) <= PAYLOAD_LIMIT && |batch.files| < FILE_COUNT_LIMIT && (path !in known ==> newRemaining > 0)
      modifies this`batch, this`size, this`newRemaining
      ensures Sound() && Extends(old(batch), batch, path) && Grows(old(batch), batch) && Load(batch) == Load(old(batch)) + 1
      ensures batch == old(batch).(files := old(batch).files + [item]) && size == old(size) + FileSize(item) && Listed(batch, path)
    {
      hide FileFrom, Relative, FileSize, FilesTotal, IdsTotal, NewFiles, Justified, InRoots, Walked, Listed, FilePaths, Retiring, Fresh, Extends;
      ghost var before, spent := batch, size;
      RecordFile(source, allowed, known, batch, item);
      if path !in known { newRemaining := newRemaining - 1; }
      size := size + FileSize(item);
      batch := batch.(files := batch.files + [item]);
      JustifiedKept(source, allowed, known, cursor, before, spent, batch, size);
      RetiringSame(source, known, cursor, before, batch);
      LastIsListed(batch, path);
    }

    /** Upload a new or changed file, or defer it when there is no room. */
    method UploadFile(path: Path)
      requires Sound() && Fresh(batch, path) && path in source && source[path].File? && Relative(path, allowed)
      requires FileFrom(source, allowed, known, Artifact(path, Sha256(source[path].bytes), KnownDigest(known, path), source[path].bytes))
      modifies this`batch, this`size, this`newRemaining
      ensures Sound() && Extends(old(batch), batch, path)
      ensures Grows(old(batch), batch) && old(size) <= size && Load(batch) <= Load(old(batch)) + 1
      ensures Listed(batch, path)
      ensures batch.files == old(batch.files)
              + if path in batch.deferred[|old(batch).deferred|..] then []
                else [Artifact(path, Sha256(source[path].bytes), KnownDigest(known, path), source[path].bytes)]
    {
      hide FileFrom, Relative, FileSize, FilesTotal, IdsTotal, NewFiles, Justified, InRoots, Walked, Listed, FilePaths, Retiring,
           Replaces, Fresh, Extends, DeferReason;
      NothingAcknowledgedBelow(source, allowed, known, path);
      var item := Artifact(path, Sha256(source[path].bytes), KnownDigest(known, path), source[path].bytes);
      if size + FileSize(item) > PAYLOAD_LIMIT || |batch.files| >= FILE_COUNT_LIMIT || (path !in known && newRemaining == 0) {
        NoRoom(source, known, cursor, batch, size, newRemaining, item);
        Postpone(path);
      } else {
        Send(path, item);
      }
    }

    /** Record one regular file: a transition, a verification, an upload, or a deferral. */
    method TakeFile(path: Path) returns (ok: bool)
      requires Sound() && Fresh(batch, path) && NoneAbove(allowed, known, path) && Relative(path, allowed)
      requires path in source && source[path].File? && |source[path].bytes| <= FILE_LIMIT
      modifies this`batch, this`size, this`newRemaining
      ensures Sound() && Extends(old(batch), batch, path)
      ensures Grows(old(batch), batch) && old(size) <= size && Load(batch) <= Load(old(batch)) + 1
      ensures ok ==> Listed(batch, path)
      ensures !ok ==> Refused(source, known, batch, size, entries)
    {
      hide FileFrom, VerifyFrom, TransitionFrom, Relative, NoDup, Justified, InRoots, Walked, Refused, NewFiles, FilesTotal, IdsTotal,
           Retiring;
      if exists k | k in known :: path < k {
        // Retire acknowledged descendants before sending this replacement.
        FileIsTransition(source, allowed, known, path);
        RecordTransition(source, allowed, known, batch, path);
        batch := batch.(prune := batch.prune + [path], deferred := batch.deferred + [path]);
        Deferring(source, allowed, known, cursor, old(batch), batch, size, path);
        RetiringMore(source, known, cursor, old(batch), batch, path);
        return true;
      }
      if KnownDigest(known, path) == Some(Sha256(source[path].bytes)) {
        FileIsVerified(source, allowed, known, path);
        ok := VerifyFile(path);
      } else {
        FileIsUploaded(source, allowed, known, path);
        UploadFile(path);
        ok := true;
      }
    }

    /** What a visit may rely on. */
    ghost predicate MayVisit(path: Path)
      reads this
    {
      && WellFormed(source) && NamesNormal(source) && InRoots(path, allowed) && path != []
      && Sound() && Fresh(batch, path) && NoneAbove(allowed, known, path)
      && (forall c :: c in cursor ==> Relative(c, allowed) && (c < path ==> Relative(path, allowed)))
    }

    /** Visit `path` and everything below it: every entry that is no directory is accounted for, by one record at
        most for each entry. */
    method Walk(path: Path) returns (ok: bool)
      requires MayVisit(path) && (|path| > DEPTH_LIMIT ==> path in source)
      modifies this
      ensures Sound() && Extends(old(batch), batch, path) && Grows(old(batch), batch) && old(size) <= size
      ensures Load(batch) <= Load(old(batch)) + |Region(source, path)|
      ensures entries <= old(entries) + |Region(source, path) - {path}|
      ensures ok ==> Covered(source, batch, path)
      ensures !ok ==> Refused(source, known, batch, size, entries)
      decreases DEPTH_LIMIT + 1 - |path|, 1
    {
      hide FileFrom, VerifyFrom, TransitionFrom, Relative, NoDup, Unnested, FilesTotal, IdsTotal, NewFiles, WellFormed,
           NamesNormal, WalkPaths, Fresh, NoneAbove, Counted, Walked, Justified, Covered, Listed, Region, OmitReason, DeferReason,
           Named, Refused, NameSize, Extends, Grows, InRoots, Load, Retiring, Replaces;
      SelfExtends(batch, path);
      GrowsOn(batch, batch, batch);
      if |path| > DEPTH_LIMIT {
        TooDeep(source, known, batch, size, entries, path);
        return false;
      }
      NothingBelow(source, batch, path);
      if path !in source { return true; }
      InItsRegion(source, path);
      SourceNameScoped(source, allowed, path);
      if exists c | c in cursor :: c <= path {
        var c :| c in cursor && c <= path;
        assert c == path || c < path;
        AtCursor(source, allowed, known, cursor, batch, size, c, path);
        Waits(source, known, cursor, path);
        Defer(path);
        return true;
      }
      var node := source[path];
      if Marked(path) || node.Other? || (node.File? && |node.bytes| > FILE_LIMIT) {
        MayOmit(source, allowed, known, path);
        Omit(path);
      } else {
        UnmarkedIsRelative(allowed, path);
        if node.Directory? {
          if path + [GIT] in source {
            MayOmit(source, allowed, known, path);
            Omit(path);
          } else if path in known {
            // First remove the acknowledged file identity.
            MayDefer(source, allowed, known, cursor, batch, size, path);
            Waits(source, known, cursor, path);
            Defer(path);
          } else {
            var fine := WalkChildren(path);
            if !fine { return false; }
          }
        } else {
          var fine := TakeFile(path);
          if !fine { return false; }
          NothingBelow(source, batch, path);
        }
      }
      ok := |batch.omitted| + |batch.deferred| <= INVENTORY_LIMIT;
      if !ok { TooMany(source, known, batch, size, entries); }
    }

    method Defer(path: Path)
      requires Sound() && Relative(path, allowed)
      requires DeferReason(source, known, cursor, batch, size, path) && Named(source, allowed, known, path)
      requires InRoots(path, cursor) || !Replaces(source, known, path)
      modifies this`batch
      ensures Sound() && batch == old(batch).(deferred := old(batch).deferred + [path])
      ensures Extends(old(batch), batch, path) && Grows(old(batch), batch) && Load(batch) == Load(old(batch)) + 1
      ensures Covered(source, batch, path)
    {
      hide Relative, DeferReason, Named, Counted, Justified, Walked, Covered, Retiring, Replaces, InRoots;
      RetiringMore(source, known, cursor, batch, batch.(deferred := batch.deferred + [path]), path);
      WalkedDefer(source, allowed, known, batch, path);
      JustifiedDefer(source, allowed, known, cursor, batch, batch.(deferred := batch.deferred + [path]), size, path);
      CountedSame(known, batch, batch.(deferred := batch.deferred + [path]), size, newRemaining);
      batch := batch.(deferred := batch.deferred + [path]);
      CoveredByOne(source, batch, path);
    }

    method Omit(path: Path)
      requires Sound() && ScopedRelative(path, allowed) && OmitReason(source, path) && Named(source, allowed, known, path)
      modifies this`batch
      ensures Sound() && batch == old(batch).(omitted := old(batch).omitted + [path])
      ensures Extends(old(batch), batch, path) && Grows(old(batch), batch) && Load(batch) == Load(old(batch)) + 1
      ensures Covered(source, batch, path)
    {
      hide ScopedRelative, OmitReason, Named, Counted, Justified, Walked, Covered, Retiring;
      RetiringSame(source, known, cursor, batch, batch.(omitted := batch.omitted + [path]));
      WalkedOmit(source, allowed, known, batch, path);
      JustifiedOmit(source, allowed, known, cursor, batch, size, path);
      CountedSame(known, batch, batch.(omitted := batch.omitted + [path]), size, newRemaining);
      batch := batch.(omitted := batch.omitted + [path]);
      CoveredByOne(source, batch, path);
    }

    /** Visit the entries of an observed directory in order. */
    method WalkChildren(path: Path) returns (ok: bool)
      requires MayVisit(path) && path !in known && |path| <= DEPTH_LIMIT && !(exists c | c in cursor :: c <= path)
      requires path in source && source[path].Directory?
      modifies this
      ensures Sound() && Extends(old(batch), batch, path) && Grows(old(batch), batch) && old(size) <= size
      ensures Load(batch) <= Load(old(batch)) + |Region(source, path)|
      ensures entries <= old(entries) + |Region(source, path) - {path}|
      ensures ok ==> Covered(source, batch, path)
      ensures !ok ==> Refused(source, known, batch, size, entries)
      decreases DEPTH_LIMIT + 1 - |path|, 0
    {
      hide Relative, WellFormed, NamesNormal, WalkPaths, Fresh, NoneAbove, Counted, Walked, Extends, AddedUnder, Children, Justified,
           Covered, Listed, Region, Regions, Refused, Grows, Load, InRoots, Retiring;
      var children := Children(source, path);
      ChildrenFacts(source, path);
      FewChildren(source, path);
      SelfExtends(batch, path);
      GrowsOn(batch, batch, batch);
      entries := entries + |children|;
      if entries > INVENTORY_LIMIT {
        TooMany(source, known, batch, size, entries);
        return false;
      }
      NothingAdded(batch, children);
      for i := 0 to |children|
        invariant Sound() && AddedUnder(old(batch), batch, children, i)
        invariant Grows(old(batch), batch) && old(size) <= size
        invariant Load(batch) <= Load(old(batch)) + |Regions(source, children, i)|
        invariant entries + i <= old(entries) + |children| + |Regions(source, children, i)|
        invariant forall j :: 0 <= j < i ==> Covered(source, batch, children[j])
      {
        ChildReady(allowed, known, cursor, path, children[i]);
        ChildFresh(old(batch), batch, path, children, i);
        ChildCounts(source, path, i);
        ghost var before := batch;
        var fine := Walk(children[i]);
        ChildrenExtend(old(batch), before, batch, path, children, i);
        GrowsOn(old(batch), before, batch);
        ChildCounts(source, path, i + 1);
        if !fine { return false; }
        ChildrenCovered(source, before, batch, children, i);
      }
      ChildCounts(source, path, |children|);
      ChildrenBelow(old(batch), batch, path, children, |children|);
      ChildrenCoverAll(source, batch, path);
      ok := true;
    }
  }

  /** Beyond `start`, everything recorded lies under one of the first `n` children. */
  ghost predicate AddedUnder(start: Batch, b: Batch, children: seq<Path>, n: int)
    requires n <= |children|
  {
    forall q :: q in WalkPaths(b) ==> q in WalkPaths(start) || exists j :: 0 <= j < n && children[j] <= q
  }

  lemma NothingAdded(b: Batch, children: seq<Path>)
    ensures AddedUnder(b, b, children, 0)
  {
  }

  lemma SelfExtends(b: Batch, p: Path)
    ensures Extends(b, b, p)
  {
  }

  lemma FileIsTransition(source: Tree, allowed: seq<Path>, known: Known, p: Path)
    requires p in source && source[p].File? && Relative(p, allowed) && exists k :: k in known && p < k
    ensures TransitionFrom(source, allowed, known, p)
  {
  }

  lemma FileIsVerified(source: Tree, allowed: seq<Path>, known: Known, p: Path)
    requires p in source && source[p].File? && Relative(p, allowed) && NoneAbove(allowed, known, p)
    requires !(exists k | k in known :: p < k) && KnownDigest(known, p) == Some(Sha256(source[p].bytes))
    ensures VerifyFrom(source, allowed, known, Identity(p, Sha256(source[p].bytes)))
  {
  }

  lemma FileIsUploaded(source: Tree, allowed: seq<Path>, known: Known, p: Path)
    requires p in source && source[p].File? && Relative(p, allowed) && NoneAbove(allowed, known, p)
    requires |source[p].bytes| <= FILE_LIMIT && !(exists k | k in known :: p < k) && KnownDigest(known, p) != Some(Sha256(source[p].bytes))
    ensures FileFrom(source, allowed, known, Artifact(p, Sha256(source[p].bytes), KnownDigest(known, p), source[p].bytes))
  {
  }

  lemma SourceNameScoped(source: Tree, allowed: seq<Path>, p: Path)
    requires NamesNormal(source) && p in source && p != [] && |p| <= DEPTH_LIMIT && InRoots(p, allowed)
    ensures ScopedRelative(p, allowed)
  {
  }

  lemma UnmarkedIsRelative(allowed: seq<Path>, p: Path)
    requires ScopedRelative(p, allowed) && !Marked(p)
    ensures Relative(p, allowed)
  {
  }

  lemma ChildrenFacts(t: Tree, d: Path)
    ensures Siblings(d, Children(t, d))
  {
    var s := set p | p in t && |p| == |d| + 1 && d < p;
    forall i | 0 <= i < |Sorted(s)| ensures Sorted(s)[i] in s { assert Sorted(s)[i] in Sorted(s); }
    forall i, j | 0 <= i < j < |Sorted(s)| ensures Sorted(s)[i] != Sorted(s)[j] { SortedDistinct(s, i, j); }
  }

  lemma ChildReady(allowed: seq<Path>, known: Known, cursor: seq<Path>, path: Path, child: Path)
    requires path <= child && |child| == |path| + 1
    requires InRoots(path, allowed) && NoneAbove(allowed, known, path) && path !in known
    requires !(exists c | c in cursor :: c <= path)
    ensures InRoots(child, allowed) && NoneAbove(allowed, known, child)
    ensures forall c :: c in cursor ==> !(c < child)
  {
    var root :| root in allowed && root <= path;
    assert root <= child;
    forall k | k in known && InRoots(k, allowed) ensures !(k < child) { AboveChild(k, path, child); }
    forall c | c in cursor ensures !(c < child) { AboveChild(c, path, child); }
  }

  lemma AboveChild(k: Path, path: Path, child: Path)
    requires path <= child && |child| == |path| + 1
    ensures k < child ==> k <= path && (k != path ==> k < path)
  {
  }

  ghost predicate Siblings(path: Path, children: seq<Path>) {
    && (forall i :: 0 <= i < |children| ==> path <= children[i] && |children[i]| == |path| + 1)
    && (forall i, j :: 0 <= i < j < |children| ==> children[i] != children[j])
  }

  lemma ChildFresh(start: Batch, b: Batch, path: Path, children: seq<Path>, i: nat)
    requires i < |children| && Fresh(start, path) && Siblings(path, children) && AddedUnder(start, b, children, i)
    ensures Fresh(b, children[i])
  {
    hide WalkPaths;
    forall q | q in WalkPaths(b) ensures !(children[i] <= q) {
      if q !in WalkPaths(start) {
        var j :| 0 <= j < i && children[j] <= q;
        assert children[j] != children[i];
      } else {
        assert children[i] <= q ==> path <= q;
      }
    }
  }

  lemma ChildrenExtend(start: Batch, before: Batch, after: Batch, path: Path, children: seq<Path>, i: nat)
    requires i < |children| && Extends(before, after, children[i]) && Siblings(path, children)
    requires AddedUnder(start, before, children, i)
    ensures AddedUnder(start, after, children, i + 1)
    ensures Extends(start, after, path)
  {
    hide WalkPaths;
    forall q | q in WalkPaths(after) && q !in WalkPaths(start) ensures exists j :: 0 <= j < i + 1 && children[j] <= q {
      if q in WalkPaths(before) {
        var j :| 0 <= j < i && children[j] <= q;
      }
    }
    ChildrenBelow(start, after, path, children, i + 1);
  }

  lemma ChildrenBelow(start: Batch, b: Batch, path: Path, children: seq<Path>, n: nat)
    requires n <= |children| && Siblings(path, children) && AddedUnder(start, b, children, n)
    ensures Extends(start, b, path)
  {
    hide WalkPaths;
    forall q | q in WalkPaths(b) && q !in WalkPaths(start) ensures path <= q {
      var j :| 0 <= j < n && children[j] <= q;
      assert path <= children[j];
    }
  }

  // ---------- reasons and counts of one visit ----------

  lemma TooDeep(source: Tree, known: Known, b: Batch, size: nat, entries: nat, path: Path)
    requires path in source && |path| > DEPTH_LIMIT
    ensures Refused(source, known, b, size, entries)
  {
    hide NameSize;
  }

  lemma TooMany(source: Tree, known: Known, b: Batch, size: nat, entries: nat)
    requires entries > INVENTORY_LIMIT || |b.omitted| + |b.deferred| > INVENTORY_LIMIT
    ensures Refused(source, known, b, size, entries)
  {
    hide NameSize;
  }

  lemma Deferring(source: Tree, allowed: seq<Path>, known: Known, cursor: seq<Path>, a: Batch, b: Batch, size: nat, p: Path)
    requires Justified(source, allowed, known, cursor, a, size) && p in source && DeferReason(source, known, cursor, a, size, p)
    requires b.files == a.files && b.delete == a.delete && b.verify == a.verify
    requires b.omitted == a.omitted && b.deferred == a.deferred + [p]
    ensures Justified(source, allowed, known, cursor, b, size) && Listed(b, p) && Grows(a, b) && Load(b) == Load(a) + 1
  {
    hide DeferReason, Justified;
    JustifiedDefer(source, allowed, known, cursor, a, b, size, p);
    assert p in b.deferred && p <= p;
  }

  lemma NoRoom(source: Tree, known: Known, cursor: seq<Path>, b: Batch, size: nat, newRemaining: nat, item: Artifact)
    requires Counted(known, b, size, newRemaining) && item.path in source && source[item.path] == File(item.bytes)
    requires size + FileSize(item) > PAYLOAD_LIMIT || |b.files| >= FILE_COUNT_LIMIT || (item.path !in known && newRemaining == 0)
    ensures DeferReason(source, known, cursor, b, size, item.path)
  {
    hide NameSize, InRoots, NewFiles, FilesTotal, IdsTotal;
  }

  lemma LastIsListed(b: Batch, p: Path)
    requires (b.files != [] && b.files[|b.files| - 1].path == p) || (b.verify != [] && b.verify[|b.verify| - 1].path == p)
    ensures Listed(b, p)
  {
    hide InRoots;
    if b.files != [] && b.files[|b.files| - 1].path == p {
      assert FilePaths(b.files)[|b.files| - 1] == p;
    } else {
      assert IdPaths(b.verify)[|b.verify| - 1] == p;
    }
  }

  lemma WalkedDefer(source: Tree, allowed: seq<Path>, known: Known, b: Batch, p: Path)
    requires Walked(source, allowed, known, b) && Relative(p, allowed)
    ensures var b' := b.(deferred := b.deferred + [p]); Walked(source, allowed, known, b') && Extends(b, b', p)
  {
    hide FileFrom, VerifyFrom, TransitionFrom, Relative, ScopedRelative, NoDup;
  }

  lemma WalkedOmit(source: Tree, allowed: seq<Path>, known: Known, b: Batch, p: Path)
    requires Walked(source, allowed, known, b) && ScopedRelative(p, allowed)
    ensures var b' := b.(omitted := b.omitted + [p]); Walked(source, allowed, known, b') && Extends(b, b', p)
  {
    hide FileFrom, VerifyFrom, TransitionFrom, Relative, ScopedRelative, NoDup;
  }

  lemma CountedSame(known: Known, a: Batch, b: Batch, size: nat, newRemaining: nat)
    requires Counted(known, a, size, newRemaining) && b.files == a.files && b.verify == a.verify && b.delete == a.delete
    ensures Counted(known, b, size, newRemaining)
  {
  }

  lemma AtCursor(source: Tree, allowed: seq<Path>, known: Known, cursor: seq<Path>, b: Batch, size: nat, c: Path, p: Path)
    requires c in cursor && c <= p && p in source
    ensures DeferReason(source, known, cursor, b, size, p) && Named(source, allowed, known, p)
  {
  }

  lemma Waits(source: Tree, known: Known, cursor: seq<Path>, p: Path)
    ensures (exists c :: c in cursor && c <= p) ==> InRoots(p, cursor)
    ensures p in source && source[p].Directory? ==> !Replaces(source, known, p)
  {
  }

  lemma NothingAcknowledgedBelow(source: Tree, allowed: seq<Path>, known: Known, p: Path)
    requires p in source && source[p].File?
    requires FileFrom(source, allowed, known, Artifact(p, Sha256(source[p].bytes), KnownDigest(known, p), source[p].bytes))
    ensures !Replaces(source, known, p)
  {
    hide Relative;
  }

  lemma MayOmit(source: Tree, allowed: seq<Path>, known: Known, p: Path)
    requires p in source
    requires Marked(p) || source[p].Other? || (source[p].File? && |source[p].bytes| > FILE_LIMIT)
             || (source[p].Directory? && p + [GIT] in source)
    ensures OmitReason(source, p) && Named(source, allowed, known, p)
  {
  }

  lemma MayDefer(source: Tree, allowed: seq<Path>, known: Known, cursor: seq<Path>, b: Batch, size: nat, p: Path)
    requires p in source && source[p].Directory? && p in known
    ensures DeferReason(source, known, cursor, b, size, p) && Named(source, allowed, known, p)
  {
  }

  lemma InItsRegion(source: Tree, p: Path)
    requires p in source
    ensures p in Region(source, p) && |Region(source, p)| == |Region(source, p) - {p}| + 1
  {
  }

  /** The entries below a directory are its children's regions. */
  lemma {:induction false} ChildCounts(source: Tree, path: Path, i: nat)
    requires path in source && i <= |Children(source, path)|
    ensures var children := Children(source, path);
      && (i < |children| ==> children[i] in source && path < children[i])
      && (i < |children| ==> |Regions(source, children, i + 1)| == |Regions(source, children, i)| + |Region(source, children[i])|)
      && (i < |children| ==> |Region(source, children[i])| == |Region(source, children[i]) - {children[i]}| + 1)
      && |Regions(source, children, i)| + |children| - i <= |Region(source, path) - {path}|
      && |Regions(source, children, i)| + 1 <= |Region(source, path)|
    decreases |Children(source, path)| - i
  {
    hide Children;
    var children := Children(source, path);
    ChildrenFacts(source, path);
    InItsRegion(source, path);
    forall p, j | p in source && 0 <= j < i && children[j] <= p ensures p in Region(source, path) - {path} {
      assert path <= children[j] && |children[j]| == |path| + 1;
    }
    RegionsFit(source, children, i, Region(source, path) - {path});
    if i < |children| {
      ChildInSource(source, path, i);
      forall j | 0 <= j < i ensures !(children[j] <= children[i]) && !(children[i] <= children[j]) {
        assert children[j] != children[i];
      }
      RegionsNext(source, children, i);
      InItsRegion(source, children[i]);
      ChildCounts(source, path, i + 1);
    }
  }

  lemma VerifiedIsKnownHere(source: Tree, allowed: seq<Path>, known: Known, id: Identity)
    requires VerifyFrom(source, allowed, known, id)
    ensures id.path in known
  {
  }

  lemma FewChildren(source: Tree, path: Path)
    ensures |Children(source, path)| <= |Region(source, path) - {path}|
    ensures Regions(source, Children(source, path), 0) == {}
  {
    var s := set p | p in source && |p| == |path| + 1 && path < p;
    assert s <= Region(source, path) - {path};
    assert Region(source, path) - {path} == s + (Region(source, path) - {path} - s);
  }

  lemma ChildInSource(source: Tree, path: Path, i: nat)
    requires i < |Children(source, path)|
    ensures Children(source, path)[i] in source && path < Children(source, path)[i]
  {
    assert Children(source, path)[i] in Children(source, path);
  }

  lemma ChildrenCovered(source: Tree, a: Batch, b: Batch, children: seq<Path>, i: nat)
    requires i < |children| && Grows(a, b) && Covered(source, b, children[i])
    requires forall j :: 0 <= j < i ==> Covered(source, a, children[j])
    ensures forall j :: 0 <= j < i + 1 ==> Covered(source, b, children[j])
  {
    hide Covered, Grows;
    forall j | 0 <= j < i ensures Covered(source, b, children[j]) { StillCovered(source, a, b, children[j]); }
  }

  lemma ChildrenCoverAll(source: Tree, b: Batch, path: Path)
    requires WellFormed(source) && path in source && source[path].Directory?
    requires forall j :: 0 <= j < |Children(source, path)| ==> Covered(source, b, Children(source, path)[j])
    ensures Covered(source, b, path)
  {
    hide WellFormed, Listed;
    var children := Children(source, path);
    forall p | p in source && path <= p && !source[p].Directory? ensures Listed(b, p) {
      assert p != path;
      var child := p[..|path| + 1];
      DirChain(source, p, child);
      assert child in children;
      var j :| 0 <= j < |children| && children[j] == child;
      assert Covered(source, b, children[j]);
    }
  }
}
