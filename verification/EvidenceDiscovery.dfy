/** The rest of a collection: the allowed roots without repetition, the deletions to announce, and the
    assembled batch, whose structural validity is proved for every source tree. */
module EvidenceDiscovery {
  import opened Effects
  import opened Order
  import opened EvidenceModel
  import opened EvidenceFrames
  import opened EvidenceReceipt
  import opened EvidenceAgreement
  import opened EvidenceLedger
  import opened EvidenceCollector
  import opened EvidenceRetirement
  import opened EvidenceValidation

  // ---------- allowed roots ----------

  ghost predicate RootsCover(allowed: seq<Path>, unique: seq<Path>) {
    && NoNesting(unique) && NoDup(unique)
    && (forall u :: u in unique ==> u in allowed && forall r :: r in allowed ==> !(r < u))
    && (forall r :: r in allowed ==> InRoots(r, unique))
  }

  /** The first `i` sorted roots are covered by the chosen ones. */
  ghost predicate CoverSoFar(keys: seq<Path>, i: nat, unique: seq<Path>)
    requires i <= |keys|
  {
    && NoNesting(unique) && NoDup(unique)
    && (forall u :: u in unique ==> u in Elements(keys[..i]))
    && (forall j :: 0 <= j < i ==> InRoots(keys[j], unique))
  }

  lemma CoverRoot(s: set<Path>, i: nat, unique: seq<Path>)
    requires i < |Sorted(s)| && CoverSoFar(Sorted(s), i, unique)
    ensures !InRoots(Sorted(s)[i], unique) ==> CoverSoFar(Sorted(s), i + 1, unique + [Sorted(s)[i]])
    ensures InRoots(Sorted(s)[i], unique) ==> CoverSoFar(Sorted(s), i + 1, unique)
  {
    hide Sorted, NoNesting, NoDup, Elements, InRoots;
    var keys := Sorted(s);
    var d := keys[i];
    ElementsOf(keys, i);
    if !InRoots(d, unique) {
      RootsApart(s, i, unique);
      NestingExtend(unique, d);
      forall j | 0 <= j < i + 1 ensures InRoots(keys[j], unique + [d]) { InMoreRoots(keys[j], unique, d); }
    }
  }

  lemma InMoreRoots(p: Path, unique: seq<Path>, d: Path)
    ensures InRoots(p, unique) || d <= p ==> InRoots(p, unique + [d])
  {
    if InRoots(p, unique) {
      var r :| r in unique && r <= p;
      assert r in unique + [d];
    } else if d <= p {
      assert d in unique + [d];
    }
  }

  lemma RootsApart(s: set<Path>, i: nat, unique: seq<Path>)
    requires i < |Sorted(s)| && CoverSoFar(Sorted(s), i, unique) && !InRoots(Sorted(s)[i], unique)
    ensures forall u :: u in unique ==> u != Sorted(s)[i] && !(u < Sorted(s)[i]) && !(Sorted(s)[i] < u)
  {
    hide Sorted, NoNesting, NoDup, InRoots;
    var keys := Sorted(s);
    forall u | u in unique ensures u != keys[i] && !(u < keys[i]) && !(keys[i] < u) {
      var j :| 0 <= j < i && keys[j] == u;
      SortedDistinct(s, i, j);
      InRootsBy(keys[i], unique, u);
    }
  }

  lemma InRootsBy(p: Path, unique: seq<Path>, u: Path)
    requires u in unique
    ensures u <= p ==> InRoots(p, unique)
  {
  }

  /** Allowed roots in order, dropping those inside an earlier one. */
  method UniqueRoots(allowed: seq<Path>) returns (ok: bool, unique: seq<Path>)
    ensures ok <==> RootsOk(allowed)
    ensures ok ==> RootsCover(allowed, unique)
  {
    hide Sorted, NoNesting, NoDup, Elements, InRoots, Relative;
    unique := [];
    if !RootsOk(allowed) { return false, []; }
    var keys := Sorted(set r | r in allowed);
    CoverNoRoots(keys);
    for i := 0 to |keys|
      invariant CoverSoFar(keys, i, unique)
    {
      CoverRoot((set r | r in allowed), i, unique);
      if !InRoots(keys[i], unique) { unique := unique + [keys[i]]; }
    }
    CoverAllRoots(allowed, unique);
    ok := true;
  }

  lemma CoverNoRoots(keys: seq<Path>)
    ensures CoverSoFar(keys, 0, [])
  {
  }

  lemma CoverAllRoots(allowed: seq<Path>, unique: seq<Path>)
    requires var keys := Sorted(set r | r in allowed); CoverSoFar(keys, |keys|, unique)
    ensures RootsCover(allowed, unique)
  {
    hide Sorted, NoDup;
    var keys := Sorted(set r | r in allowed);
    assert keys[..|keys|] == keys;
    forall r | r in allowed ensures InRoots(r, unique) {
      assert r in keys;
      var j :| 0 <= j < |keys| && keys[j] == r;
    }
    forall u | u in unique ensures u in allowed && forall r :: r in allowed ==> !(r < u) {
      assert u in keys;
      forall r | r in allowed ensures !(r < u) {
        if r < u {
          var v :| v in unique && v <= r;
          Through(v, r, u);
        }
      }
    }
  }

  lemma Through(v: Path, r: Path, u: Path)
    requires v <= r
    ensures r <= u ==> v <= u
    ensures r < u ==> v < u
  {
  }

  lemma ScopeIsSame(allowed: seq<Path>, unique: seq<Path>, p: Path)
    requires RootsCover(allowed, unique)
    ensures InRoots(p, unique) <==> InRoots(p, allowed)
    ensures Relative(p, unique) <==> Relative(p, allowed)
  {
    hide NoNesting, NoDup, Marked, NormalName;
    if InRoots(p, unique) {
      var u :| u in unique && u <= p;
      assert u in allowed;
    }
    if InRoots(p, allowed) {
      var r :| r in allowed && r <= p;
      assert InRoots(r, unique);
      var u :| u in unique && u <= r;
      Through(u, r, p);
    }
  }

  // ---------- deletions ----------

  /** The source holds nothing at `p` but perhaps a directory that may be read. */
  ghost predicate Gone(source: Tree, p: Path) {
    p !in source || (source[p].Directory? && p + [GIT] !in source)
  }

  /** An acknowledged path that the source no longer holds and that this batch neither uploads nor verifies. */
  ghost predicate DeletionFrom(source: Tree, allowed: seq<Path>, known: Known, b: Batch, id: Identity) {
    && id.path in known && known[id.path] == id.sha256 && id.sha256.Sha256?
    && Relative(id.path, allowed) && !Observed(b, id.path) && Gone(source, id.path)
  }

  predicate Observed(b: Batch, p: Path) { p in FilePaths(b.files) || p in IdPaths(b.verify) }

  /** An acknowledged path is uploaded, verified, announced as deleted, omitted, deferred, or still there. */
  ghost predicate Answered(source: Tree, b: Batch, p: Path) {
    Listed(b, p) || p in IdPaths(b.delete) || (p in source && !source[p].Directory?)
  }

  /** Deletion discovery over the first `i` acknowledged paths. */
  ghost predicate Discovered(source: Tree, allowed: seq<Path>, known: Known, names: seq<Path>, i: nat, start: Batch, b: Batch)
    requires i <= |names|
  {
    && b.files == start.files && b.verify == start.verify && b.prune == start.prune && b.exchangeId == start.exchangeId
    && (forall id :: id in b.delete ==> DeletionFrom(source, allowed, known, start, id) && id.path in Elements(names[..i]))
    && NoDup(IdPaths(b.delete))
    && (forall j :: 0 <= j < |b.omitted| ==> ScopedRelative(b.omitted[j], allowed))
    && (forall j :: 0 <= j < |b.deferred| ==> Relative(b.deferred[j], allowed))
    && AnsweredTo(source, allowed, names, i, b)
    && |b.files| + |b.delete| <= FILE_COUNT_LIMIT
    && Grows(start, b) && Load(b) <= Load(start) + i
  }

  /** The first `i` acknowledged paths are in form and answered, as far as they are in scope. */
  ghost predicate AnsweredTo(source: Tree, allowed: seq<Path>, names: seq<Path>, i: nat, b: Batch)
    requires i <= |names|
  {
    forall j :: 0 <= j < i && InRoots(names[j], allowed) ==> Relative(names[j], allowed) && Answered(source, b, names[j])
  }

  lemma AnsweredNext(source: Tree, allowed: seq<Path>, names: seq<Path>, i: nat, b: Batch, after: Batch)
    requires i < |names| && AnsweredTo(source, allowed, names, i, b)
    requires InRoots(names[i], allowed) ==> Relative(names[i], allowed) && Answered(source, after, names[i])
    requires forall p :: Answered(source, b, p) ==> Answered(source, after, p)
    ensures AnsweredTo(source, allowed, names, i + 1, after)
  {
    hide InRoots, Relative, Answered;
  }

  /** What the source shows for an acknowledged path that was not observed. */
  datatype Fate = Vanished | Hidden | Present | Unreachable

  function FateOf(source: Tree, b: Batch, p: Path): Fate {
    if exists t | t in b.prune :: t < p then Vanished
    else match OpenDir(source, Parent(p))
      case Blocked => Unreachable
      case Absent => Vanished
      case Found =>
        if p !in source then Vanished
        else match source[p]
          case File(_) => Present
          case Directory => if p + [GIT] in source then Hidden else Vanished
          case Other(link) => if link then Hidden else Present
  }

  lemma {:induction false} HeldIsNotAbsent(t: Tree, d: Path)
    requires WellFormed(t) && (d == [] || (d in t && t[d].Directory?))
    ensures !OpenDir(t, d).Absent?
    decreases |d|
  {
    if d != [] { HeldIsNotAbsent(t, Parent(d)); }
  }

  lemma HeldParent(t: Tree, p: Path)
    requires WellFormed(t) && p in t
    ensures !OpenDir(t, Parent(p)).Absent?
  {
    HeldIsNotAbsent(t, Parent(p));
  }

  /** What the fate says about the source. */
  lemma FateIsTrue(source: Tree, allowed: seq<Path>, known: Known, start: Batch, p: Path)
    requires WellFormed(source) && Walked(source, allowed, known, start)
    ensures FateOf(source, start, p).Vanished? ==> Gone(source, p)
    ensures FateOf(source, start, p).Hidden? ==> OmitReason(source, p)
    ensures FateOf(source, start, p).Present? ==> p in source && !source[p].Directory?
    ensures FateOf(source, start, p).Unreachable? ==> OpenDir(source, Parent(p)).Blocked?
  {
    hide WellFormed, Walked, OpenDir;
    if exists t :: t in start.prune && t < p {
      var t :| t in start.prune && t < p;
      TransitionInSource(source, allowed, known, start, t);
      if p in source { FilesDoNotNest(source, t, p); }
    } else if p in source {
      HeldParent(source, p);
    }
  }

  lemma SkipName(source: Tree, allowed: seq<Path>, known: Known, names: seq<Path>, i: nat, start: Batch, b: Batch)
    requires i < |names| && Discovered(source, allowed, known, names, i, start, b)
    requires InRoots(names[i], allowed) ==> Relative(names[i], allowed)
    ensures !InRoots(names[i], allowed) || Answered(source, b, names[i]) ==> Discovered(source, allowed, known, names, i + 1, start, b)
  {
    hide DeletionFrom, Relative, ScopedRelative, NoDup, InRoots, Elements, Answered, Grows, Load, AnsweredTo, IdPaths;
    ElementsOf(names, i);
    if !InRoots(names[i], allowed) || Answered(source, b, names[i]) { AnsweredNext(source, allowed, names, i, b, b); }
  }

  lemma ListName(source: Tree, allowed: seq<Path>, known: Known, names: seq<Path>, i: nat, start: Batch, b: Batch, after: Batch)
    requires i < |names| && Discovered(source, allowed, known, names, i, start, b) && Relative(names[i], allowed)
    requires after == b.(deferred := b.deferred + [names[i]]) || after == b.(omitted := b.omitted + [names[i]])
    ensures Discovered(source, allowed, known, names, i + 1, start, after)
  {
    RelativeIsScoped(names[i], allowed);
    hide DeletionFrom, Relative, ScopedRelative, NoDup, InRoots, Elements, AnsweredTo, Listed, IdPaths;
    ElementsOf(names, i);
    GrowsOn(start, b, after);
    forall p ensures Answered(source, b, p) ==> Answered(source, after, p) { StillListed(b, after, p); }
    NowListed(after, names[i]);
    AnsweredNext(source, allowed, names, i, b, after);
  }

  lemma NowListed(b: Batch, p: Path)
    requires p in b.omitted || p in b.deferred
    ensures Listed(b, p)
  {
    assert p <= p;
  }

  lemma DeleteName(source: Tree, allowed: seq<Path>, known: Known, names: seq<Path>, i: nat, start: Batch, b: Batch, id: Identity)
    requires i < |names| && Discovered(source, allowed, known, names, i, start, b)
    requires id.path == names[i] && names[i] !in names[..i] && DeletionFrom(source, allowed, known, start, id)
    requires |b.files| + |b.delete| < FILE_COUNT_LIMIT
    ensures Discovered(source, allowed, known, names, i + 1, start, b.(delete := b.delete + [id]))
    ensures IdsTotal(b.delete + [id]) == IdsTotal(b.delete) + NameSize(id.path)
  {
    assert Relative(names[i], allowed);
    hide DeletionFrom, Relative, ScopedRelative, NoDup, InRoots, Elements, Listed, Answered, IdPaths, IdsTotal, NameSize, AnsweredTo;
    ElementsOf(names, i);
    forall p | p in IdPaths(b.delete) ensures p in Elements(names[..i]) { IdOf(b.delete, p); }
    OneMoreId(b.delete, id);
    var after := b.(delete := b.delete + [id]);
    GrowsOn(start, b, after);
    forall p ensures Answered(source, b, p) || p == id.path ==> Answered(source, after, p) {
      DeletedIsAnswered(source, b, after, id, p);
    }
    AnsweredNext(source, allowed, names, i, b, after);
  }

  lemma IdOf(ids: seq<Identity>, p: Path)
    requires p in IdPaths(ids)
    ensures exists id :: id in ids && id.path == p
  {
    var j :| 0 <= j < |ids| && IdPaths(ids)[j] == p;
    assert ids[j] in ids;
  }

  lemma OneMoreId(ids: seq<Identity>, id: Identity)
    requires NoDup(IdPaths(ids)) && id.path !in IdPaths(ids)
    ensures NoDup(IdPaths(ids + [id])) && IdsTotal(ids + [id]) == IdsTotal(ids) + NameSize(id.path)
  {
    hide NoDup, NameSize;
    assert (ids + [id])[..|ids|] == ids;
    assert IdPaths(ids + [id]) == IdPaths(ids) + [id.path] + [];
    assert IdPaths(ids) + [] == IdPaths(ids);
    InsertDistinct(IdPaths(ids), id.path, []);
  }

  lemma DeletedIsAnswered(source: Tree, b: Batch, after: Batch, id: Identity, p: Path)
    requires after == b.(delete := b.delete + [id])
    ensures Answered(source, b, p) || p == id.path ==> Answered(source, after, p)
  {
    hide Listed;
    StillListed(b, after, p);
    StillDeleted(b.delete, id, p);
    assert IdPaths(after.delete)[|b.delete|] == id.path;
  }

  lemma StillDeleted(ids: seq<Identity>, id: Identity, p: Path)
    ensures p in IdPaths(ids) ==> p in IdPaths(ids + [id])
  {
    if p in IdPaths(ids) {
      var k :| 0 <= k < |ids| && IdPaths(ids)[k] == p;
      assert IdPaths(ids + [id])[k] == p;
    }
  }

  /** Why deletion discovery gives up: an acknowledged path out of form, behind a foreign entry, or gone with a
      malformed digest; or too long a list. */
  ghost predicate Unannounced(source: Tree, allowed: seq<Path>, known: Known, b: Batch) {
    || |b.omitted| + |b.deferred| > INVENTORY_LIMIT
    || exists k :: k in known && InRoots(k, allowed)
                   && (!Relative(k, allowed) || OpenDir(source, Parent(k)).Blocked? || (known[k].Malformed? && Gone(source, k)))
  }

  method DiscoverDeletions(source: Tree, allowed: seq<Path>, unique: seq<Path>, known: Known, cursor: seq<Path>, start: Batch, spent: nat)
    returns (ok: bool, b: Batch, size: nat)
    requires WellFormed(source) && Walked(source, allowed, known, start) && RootsCover(allowed, unique)
    requires spent == FilesTotal(start.files) + IdsTotal(start.verify) <= PAYLOAD_LIMIT
    requires Justified(source, allowed, known, cursor, start, spent)
    ensures ok ==> Discovered(source, allowed, known, Sorted(known.Keys), |known|, start, b)
    ensures ok ==> size == FilesTotal(b.files) + IdsTotal(b.verify) + IdsTotal(b.delete) <= PAYLOAD_LIMIT
    ensures ok ==> |b.omitted| + |b.deferred| <= INVENTORY_LIMIT && Justified(source, allowed, known, cursor, b, size)
    ensures Load(b) <= Load(start) + |known|
    ensures !ok ==> Unannounced(source, allowed, known, b)
  {
    hide Walked, DeletionFrom, Relative, ScopedRelative, NoDup, InRoots, Elements, Sorted, Discovered, RootsCover, OpenDir, NameSize,
         IdsTotal, FilesTotal, FilePaths, IdPaths, FateOf, Justified, Answered, Observed, Load, WellFormed, Gone, Unannounced, Grows;
    var names := Sorted(known.Keys);
    var deferredRoots := set d | d in start.deferred;
    b, size := start, spent;
    NothingDiscovered(source, allowed, known, names, start);
    for i := 0 to |names|
      invariant Discovered(source, allowed, known, names, i, start, b)
      invariant size == FilesTotal(b.files) + IdsTotal(b.verify) + IdsTotal(b.delete) <= PAYLOAD_LIMIT
      invariant b.files == start.files && b.verify == start.verify && b.prune == start.prune
      invariant Justified(source, allowed, known, cursor, b, size)
    {
      var path := names[i];
      assert path in names;
      SortedFresh(known.Keys, i);
      ScopeIsSame(allowed, unique, path);
      FewEnough(source, allowed, known, names, i, start, b);
      if InRoots(path, unique) && !Relative(path, unique) {
        NotAnnounced(source, allowed, known, b, path);
        return false, b, size;
      }
      SkipName(source, allowed, known, names, i, start, b);
      SeenIsAnswered(source, start, b, path);
      if !InRoots(path, unique) || Observed(start, path) || InRoots(path, b.omitted) { continue; }
      if InRoots(path, cursor) {
        if !(exists d | d in deferredRoots :: d <= path) {
          ListName(source, allowed, known, names, i, start, b, b.(deferred := b.deferred + [path]));
          MayDeferKnown(source, allowed, known, cursor, b, size, path);
          b := b.(deferred := b.deferred + [path]);
        } else {
          UnderDeferred(path, start.deferred);
        }
        continue;
      }
      FateIsTrue(source, allowed, known, start, path);
      var fate := FateOf(source, start, path);
      match fate
      case Unreachable =>
        NotAnnounced(source, allowed, known, b, path);
        return false, b, size;
      case Hidden =>
        ListName(source, allowed, known, names, i, start, b, b.(omitted := b.omitted + [path]));
        JustifiedOmit(source, allowed, known, cursor, b, size, path);
        b := b.(omitted := b.omitted + [path]);
      case Present =>
        PresentIsAnswered(source, b, path);
      case Vanished =>
        if known[path].Malformed? {
          NotAnnounced(source, allowed, known, b, path);
          return false, b, size;
        }
        var encoded := NameSize(path);
        if |b.files| + |b.delete| >= FILE_COUNT_LIMIT || size + encoded > PAYLOAD_LIMIT {
          ListName(source, allowed, known, names, i, start, b, b.(deferred := b.deferred + [path]));
          MayDeferKnown(source, allowed, known, cursor, b, size, path);
          b := b.(deferred := b.deferred + [path]);
          FewEnough(source, allowed, known, names, i + 1, start, b);
          if |b.omitted| + |b.deferred| > INVENTORY_LIMIT {
            ListTooLong(source, allowed, known, b);
            return false, b, size;
          }
        } else {
          IsDeletion(source, allowed, known, start, path);
          var id := Identity(path, known[path]);
          DeleteName(source, allowed, known, names, i, start, b, id);
          JustifiedKept(source, allowed, known, cursor, b, size, b.(delete := b.delete + [id]), size + encoded);
          size := size + encoded;
          b := b.(delete := b.delete + [id]);
        }
    }
    FewEnough(source, allowed, known, names, |names|, start, b);
    ok := |b.omitted| + |b.deferred| <= INVENTORY_LIMIT;
    if !ok { ListTooLong(source, allowed, known, b); }
  }

  lemma FewEnough(source: Tree, allowed: seq<Path>, known: Known, names: seq<Path>, i: nat, start: Batch, b: Batch)
    requires i <= |names| && Discovered(source, allowed, known, names, i, start, b)
    ensures Load(b) <= Load(start) + |names| && Grows(start, b) && |b.files| + |b.delete| <= FILE_COUNT_LIMIT
  {
    hide DeletionFrom, Relative, ScopedRelative, NoDup, InRoots, Elements, Answered, Grows, Load;
  }

  lemma NotAnnounced(source: Tree, allowed: seq<Path>, known: Known, b: Batch, p: Path)
    requires p in known && InRoots(p, allowed)
    requires !Relative(p, allowed) || OpenDir(source, Parent(p)).Blocked? || (known[p].Malformed? && Gone(source, p))
    ensures Unannounced(source, allowed, known, b)
  {
  }

  lemma ListTooLong(source: Tree, allowed: seq<Path>, known: Known, b: Batch)
    requires |b.omitted| + |b.deferred| > INVENTORY_LIMIT
    ensures Unannounced(source, allowed, known, b)
  {
  }

  lemma SeenIsAnswered(source: Tree, start: Batch, b: Batch, p: Path)
    requires Grows(start, b)
    ensures Observed(start, p) || InRoots(p, b.omitted) || InRoots(p, start.deferred) ==> Answered(source, b, p)
  {
    StillListed(start, b, p);
  }

  lemma PresentIsAnswered(source: Tree, b: Batch, p: Path)
    requires p in source && !source[p].Directory?
    ensures Answered(source, b, p)
  {
  }

  lemma UnderDeferred(p: Path, deferred: seq<Path>)
    requires exists d :: d in deferred && d <= p
    ensures InRoots(p, deferred)
  {
  }

  lemma MayDeferKnown(source: Tree, allowed: seq<Path>, known: Known, cursor: seq<Path>, b: Batch, size: nat, p: Path)
    requires Justified(source, allowed, known, cursor, b, size) && p in known
    requires InRoots(p, cursor) || |b.files| + |b.delete| >= FILE_COUNT_LIMIT || size + NameSize(p) > PAYLOAD_LIMIT
    ensures Justified(source, allowed, known, cursor, b.(deferred := b.deferred + [p]), size)
  {
    hide Justified, NewFiles, NameSize, InRoots;
    JustifiedDefer(source, allowed, known, cursor, b, b.(deferred := b.deferred + [p]), size, p);
  }

  lemma NothingDiscovered(source: Tree, allowed: seq<Path>, known: Known, names: seq<Path>, start: Batch)
    requires Walked(source, allowed, known, start)
    ensures Discovered(source, allowed, known, names, 0, start, start) && start.delete == [] && IdsTotal(start.delete) == 0
  {
  }

  lemma RelativeIsScoped(p: Path, allowed: seq<Path>)
    ensures Relative(p, allowed) ==> ScopedRelative(p, allowed)
  {
  }

  lemma IsDeletion(source: Tree, allowed: seq<Path>, known: Known, start: Batch, p: Path)
    requires p in known && known[p].Sha256? && Relative(p, allowed) && !Observed(start, p) && Gone(source, p)
    ensures DeletionFrom(source, allowed, known, start, Identity(p, known[p]))
  {
  }

  // ---------- walking the roots ----------

  lemma RootReady(allowed: seq<Path>, unique: seq<Path>, known: Known, start: Batch, b: Batch, i: nat)
    requires RootsOk(allowed) && RootsCover(allowed, unique) && i < |unique|
    requires WalkPaths(start) == [] && AddedUnder(start, b, unique, i)
    ensures Relative(unique[i], allowed) && unique[i] != [] && InRoots(unique[i], allowed) && unique[i] in allowed
    ensures |unique[i]| <= DEPTH_LIMIT
    ensures Fresh(b, unique[i]) && NoneAbove(allowed, known, unique[i])
  {
    hide WalkPaths, NoNesting, NoDup;
    var u := unique[i];
    assert u in unique && u in allowed && Relative(u, [u]);
    forall q | q in WalkPaths(b) ensures !(u <= q) {
      var j :| 0 <= j < i && unique[j] <= q;
      if u <= q { Comparable(u, unique[j], q); }
      RootsDiffer(unique, j, i);
    }
    forall k | k in known && InRoots(k, allowed) ensures !(k < u) {
      var r :| r in allowed && r <= k;
      assert k < u ==> r < u;
    }
  }

  lemma RootsDiffer(unique: seq<Path>, j: nat, i: nat)
    requires NoNesting(unique) && NoDup(unique) && j < i < |unique|
    ensures !(unique[j] <= unique[i]) && !(unique[i] <= unique[j])
  {
    assert unique[j] in unique && unique[i] in unique;
    assert unique[j] != unique[i];
    assert !(unique[j] < unique[i]) && !(unique[i] < unique[j]);
  }

  /** Walk one root, or omit it when it lies behind a foreign entry. */
  method WalkRoot(c: Collection, unique: seq<Path>, i: nat, ghost start: Batch) returns (ok: bool)
    requires WellFormed(c.source) && NamesNormal(c.source) && RootsOk(c.allowed) && RootsCover(c.allowed, unique) && i < |unique|
    requires forall x :: x in c.cursor ==> Relative(x, c.allowed)
    requires c.Sound() && WalkPaths(start) == [] && AddedUnder(start, c.batch, unique, i)
    modifies c
    ensures c.Sound() && AddedUnder(start, c.batch, unique, i + 1) && Grows(old(c.batch), c.batch)
    ensures Load(c.batch) <= Load(old(c.batch)) + 1 + |Region(c.source, unique[i])|
    ensures c.entries <= old(c.entries) + 1 + |Region(c.source, unique[i])|
    ensures ok ==> Covered(c.source, c.batch, unique[i])
    ensures !ok ==> Refused(c.source, c.known, c.batch, c.size, c.entries)
  {
    hide WellFormed, NamesNormal, Relative, WalkPaths, Fresh, NoneAbove, Counted, Walked, Extends, AddedUnder, RootsOk, RootsCover, OpenDir,
         Justified, Covered, Region, Refused, Grows, Load, InRoots, Named, OmitReason, Retiring;
    var u := unique[i];
    ghost var before := c.batch;
    SelfExtends(before, u);
    GrowsOn(before, before, before);
    RootAdded(start, before, before, unique, i);
    c.entries := c.entries + 1;
    if c.entries > INVENTORY_LIMIT {
      TooMany(c.source, c.known, c.batch, c.size, c.entries);
      return false;
    }
    RootReady(c.allowed, unique, c.known, start, c.batch, i);
    match OpenDir(c.source, Parent(u))
    case Blocked =>
      RelativeIsScoped(u, c.allowed);
      BehindForeign(c.source, c.allowed, c.known, u);
      c.Omit(u);
      RootAdded(start, before, c.batch, unique, i);
      ok := true;
    case Absent =>
      RootAbsent(c.source, c.batch, u);
      ok := true;
    case Found =>
      RegionLess(c.source, u);
      ok := c.Walk(u);
      RootAdded(start, before, c.batch, unique, i);
  }

  lemma RegionLess(source: Tree, u: Path)
    ensures |Region(source, u) - {u}| <= |Region(source, u)|
  {
    SubsetOfSameSize(Region(source, u) - {u}, Region(source, u));
  }

  /** Walk the roots in order: everything in scope is accounted for, by one record at most for each entry and each
      root. */
  method WalkRoots(c: Collection, unique: seq<Path>) returns (ok: bool)
    requires WellFormed(c.source) && NamesNormal(c.source) && RootsOk(c.allowed) && RootsCover(c.allowed, unique)
    requires forall x :: x in c.cursor ==> Relative(x, c.allowed)
    requires c.Sound() && WalkPaths(c.batch) == [] && Load(c.batch) == 0 && c.entries == 0
    modifies c
    ensures c.Sound() && Load(c.batch) <= |unique| + |c.source| && c.entries <= |unique| + |c.source|
    ensures ok ==> forall p :: p in c.source && InRoots(p, c.allowed) && !c.source[p].Directory? ==> Listed(c.batch, p)
    ensures !ok ==> Refused(c.source, c.known, c.batch, c.size, c.entries)
  {
    hide *;
    ghost var start := c.batch;
    NothingAdded(start, unique);
    NoRegions(c.source, unique);
    ghost var counted := 0;
    for i := 0 to |unique|
      invariant c.Sound() && AddedUnder(start, c.batch, unique, i)
      invariant counted == |Regions(c.source, unique, i)| <= |c.source|
      invariant Load(c.batch) <= i + counted && c.entries <= i + counted
      invariant CoveredTo(c.source, c.batch, unique, i)
    {
      RootCounts(c.source, c.allowed, unique, i);
      RootCounts(c.source, c.allowed, unique, i + 1);
      ghost var before := c.batch;
      ghost var more := |Region(c.source, unique[i])|;
      ok := WalkRoot(c, unique, i, start);
      if !ok { return; }
      CoveredOn(c.source, before, c.batch, unique, i);
      counted := counted + more;
    }
    RootCounts(c.source, c.allowed, unique, |unique|);
    RootsCovered(c.source, c.allowed, unique, c.batch);
    ok := true;
  }

  lemma NoRegions(source: Tree, unique: seq<Path>)
    ensures |Regions(source, unique, 0)| == 0
    ensures forall b :: CoveredTo(source, b, unique, 0)
  {
    assert Regions(source, unique, 0) == {};
  }

  ghost predicate CoveredTo(source: Tree, b: Batch, unique: seq<Path>, i: nat)
    requires i <= |unique|
  {
    forall j :: 0 <= j < i ==> Covered(source, b, unique[j])
  }

  lemma CoveredOn(source: Tree, a: Batch, b: Batch, unique: seq<Path>, i: nat)
    requires i < |unique| && Grows(a, b) && Covered(source, b, unique[i]) && CoveredTo(source, a, unique, i)
    ensures CoveredTo(source, b, unique, i + 1)
  {
    hide Covered, Grows;
    ChildrenCovered(source, a, b, unique, i);
  }

  lemma RootCounts(source: Tree, allowed: seq<Path>, unique: seq<Path>, i: nat)
    requires RootsCover(allowed, unique) && i <= |unique|
    ensures |Regions(source, unique, i)| <= |source|
    ensures i < |unique| ==> |Regions(source, unique, i + 1)| == |Regions(source, unique, i)| + |Region(source, unique[i])|
    ensures i < |unique| ==> |Region(source, unique[i]) - {unique[i]}| <= |Region(source, unique[i])|
  {
    hide Region, Regions;
    assert |source.Keys| == |source|;
    RegionsFit(source, unique, i, source.Keys);
    if i < |unique| {
      forall j | 0 <= j < i ensures !(unique[j] <= unique[i]) && !(unique[i] <= unique[j]) { RootsDiffer(unique, j, i); }
      RegionsNext(source, unique, i);
      SubsetOfSameSize(Region(source, unique[i]) - {unique[i]}, Region(source, unique[i]));
    }
  }

  lemma BehindForeign(source: Tree, allowed: seq<Path>, known: Known, root: Path)
    requires OpenDir(source, Parent(root)).Blocked? && root in allowed
    ensures OmitReason(source, root) && Named(source, allowed, known, root)
  {
  }

  lemma RootAbsent(source: Tree, b: Batch, root: Path)
    requires WellFormed(source) && OpenDir(source, Parent(root)).Absent? && root != []
    ensures Covered(source, b, root)
  {
    hide WellFormed, OpenDir;
    if root in source { HeldParent(source, root); }
    NothingBelow(source, b, root);
  }

  lemma RootsCovered(source: Tree, allowed: seq<Path>, unique: seq<Path>, b: Batch)
    requires RootsCover(allowed, unique) && CoveredTo(source, b, unique, |unique|)
    ensures forall p :: p in source && InRoots(p, allowed) && !source[p].Directory? ==> Listed(b, p)
  {
    hide Listed, NoNesting, NoDup;
    forall p | p in source && InRoots(p, allowed) && !source[p].Directory? ensures Listed(b, p) {
      ScopeIsSame(allowed, unique, p);
      var u :| u in unique && u <= p;
      var j :| 0 <= j < |unique| && unique[j] == u;
      assert Covered(source, b, unique[j]);
    }
  }

  lemma RootAdded(start: Batch, before: Batch, after: Batch, unique: seq<Path>, i: nat)
    requires i < |unique| && Extends(before, after, unique[i]) && AddedUnder(start, before, unique, i)
    ensures AddedUnder(start, after, unique, i + 1)
  {
    hide WalkPaths;
    forall q | q in WalkPaths(after) && q !in WalkPaths(start) ensures exists j :: 0 <= j < i + 1 && unique[j] <= q {
      if q in WalkPaths(before) {
        var j :| 0 <= j < i && unique[j] <= q;
      }
    }
  }

  // ---------- the finished batch ----------

  /** Acknowledged paths within the roots do not nest. */
  ghost predicate KnownPrefixFree(allowed: seq<Path>, known: Known) {
    forall a, k :: a in known && k in known && InRoots(a, allowed) && InRoots(k, allowed) ==> !(a < k)
  }

  /** The batch states nothing about an acknowledged path but what is acknowledged, places nothing above
      or below one, and leaves room for every new path in the inventory. */
  ghost predicate BindsKnown(allowed: seq<Path>, known: Known, b: Batch) {
    && (forall item :: item in b.files ==> item.expected == KnownDigest(known, item.path) && Unnested(allowed, known, item.path))
    && (forall id :: id in b.verify ==> Has(known, id.path, id.sha256) && Unnested(allowed, known, id.path))
    && (forall id :: id in b.delete ==> Has(known, id.path, id.sha256))
    && (|known| <= INVENTORY_LIMIT ==> |known| + NewFiles(known, b.files) <= INVENTORY_LIMIT)
  }

  ghost predicate ExpectedWellFormed(b: Batch) {
    forall item :: item in b.files ==> (item.expected.Some? ==> item.expected.value.Sha256?)
  }

  /** What a collection promises about the batch it returns. */
  ghost predicate Ready(allowed: seq<Path>, known: Known, b: Batch) {
    && b.exchangeId == None && RootsOk(allowed) && InventoriesOk(allowed, b) && CountsOk(b)
    && (ItemsOk(allowed, b) <==> ExpectedWellFormed(b))
    && (KnownPrefixFree(allowed, known) ==> ShapeOk(b))
    && BindsKnown(allowed, known, b)
  }

  /** The pieces of a finished collection. */
  ghost predicate Assembled(source: Tree, allowed: seq<Path>, known: Known, start: Batch, found: Batch, b: Batch) {
    && WellFormed(source) && Walked(source, allowed, known, start)
    && Discovered(source, allowed, known, Sorted(known.Keys), |known|, start, found)
    && b == found.(prune := b.prune)
    && NoDup(b.prune) && NoNesting(b.prune)
    && (forall r :: r in b.prune ==> IsContainer(known, start.prune, r) && Drained(known, Deleted(b), r))
    && (forall d :: IsContainer(known, start.prune, d) && Drained(known, Deleted(b), d) ==> CoveredBy(b.prune, d))
  }

  lemma ObservedInSource(source: Tree, allowed: seq<Path>, known: Known, start: Batch, p: Path)
    requires Walked(source, allowed, known, start) && Observed(start, p)
    ensures p in source && source[p].File? && Unnested(allowed, known, p) && p in WalkPaths(start) && p !in start.prune
  {
    hide Relative, ScopedRelative, Unnested, FileSize;
    if p in FilePaths(start.files) {
      var i :| 0 <= i < |start.files| && FilePaths(start.files)[i] == p;
      assert FileFrom(source, allowed, known, start.files[i]);
      assert WalkPaths(start)[i] == p;
    } else {
      var i :| 0 <= i < |start.verify| && IdPaths(start.verify)[i] == p;
      assert VerifyFrom(source, allowed, known, start.verify[i]);
      assert WalkPaths(start)[|start.files| + i] == p;
    }
    assert WalkPaths(start) == (FilePaths(start.files) + IdPaths(start.verify)) + start.prune;
    NoDupParts(FilePaths(start.files) + IdPaths(start.verify), start.prune);
  }

  lemma TransitionInSource(source: Tree, allowed: seq<Path>, known: Known, start: Batch, t: Path)
    requires Walked(source, allowed, known, start) && t in start.prune
    ensures t in source && source[t].File? && Relative(t, allowed) && exists k :: k in known && t < k
  {
    hide FileFrom, VerifyFrom, Relative, ScopedRelative;
    var i :| 0 <= i < |start.prune| && start.prune[i] == t;
    assert TransitionFrom(source, allowed, known, start.prune[i]);
  }

  /** Regular files of one tree do not nest. */
  lemma FilesDoNotNest(source: Tree, a: Path, c: Path)
    requires WellFormed(source) && a in source && c in source && source[a].File?
    ensures !(a < c)
  {
    if a < c { DirChain(source, c, a); }
  }

  lemma TransitionsApart(source: Tree, allowed: seq<Path>, known: Known, start: Batch)
    requires WellFormed(source) && Walked(source, allowed, known, start)
    ensures NoNesting(start.prune) && NoDup(start.prune)
  {
    hide Walked, Relative;
    forall a, c | a in start.prune && c in start.prune ensures !(a < c) {
      TransitionInSource(source, allowed, known, start, a);
      TransitionInSource(source, allowed, known, start, c);
      FilesDoNotNest(source, a, c);
    }
    WalkPathsParts(source, allowed, known, start);
  }

  lemma WalkPathsParts(source: Tree, allowed: seq<Path>, known: Known, start: Batch)
    requires Walked(source, allowed, known, start)
    ensures NoDup(start.prune) && NoDup(FilePaths(start.files) + IdPaths(start.verify))
  {
    hide FileFrom, VerifyFrom, TransitionFrom, Relative, ScopedRelative;
    NoDupParts(FilePaths(start.files) + IdPaths(start.verify), start.prune);
  }

  lemma PathsOf(b: Batch, p: Path)
    ensures p in BatchPaths(b) <==> Observed(b, p) || p in IdPaths(b.delete)
    ensures p in IdPaths(b.delete) ==> exists id :: id in b.delete && id.path == p
  {
    if p in IdPaths(b.delete) {
      var i :| 0 <= i < |b.delete| && IdPaths(b.delete)[i] == p;
      assert b.delete[i] in b.delete;
    }
  }

  lemma PathsDoNotNest(source: Tree, allowed: seq<Path>, known: Known, start: Batch, found: Batch, b: Batch)
    requires Assembled(source, allowed, known, start, found, b) && KnownPrefixFree(allowed, known)
    ensures NoNesting(BatchPaths(b))
  {
    hide Walked, WellFormed, Sorted, Elements, BatchPaths, IsContainer, Drained, NoDup, FilePaths, IdPaths, Observed, InRoots;
    forall p, q | p in BatchPaths(b) && q in BatchPaths(b) ensures !(p < q) {
      PathsOf(b, p);
      PathsOf(b, q);
      SameObserved(b, start, p);
      SameObserved(b, start, q);
      if Observed(b, p) { ObservedInSource(source, allowed, known, start, p); }
      if Observed(b, q) { ObservedInSource(source, allowed, known, start, q); }
      if Observed(b, p) && Observed(b, q) { FilesDoNotNest(source, p, q); }
    }
  }

  lemma SameObserved(a: Batch, b: Batch, p: Path)
    requires a.files == b.files && a.verify == b.verify
    ensures Observed(a, p) <==> Observed(b, p)
  {
  }

  lemma PathsAreDistinct(source: Tree, allowed: seq<Path>, known: Known, start: Batch, found: Batch, b: Batch)
    requires Assembled(source, allowed, known, start, found, b)
    ensures NoDup(BatchPaths(b))
  {
    hide Walked, WellFormed, Sorted, Elements, Relative, IsContainer, Drained, NoDup, Deleted;
    WalkPathsParts(source, allowed, known, start);
    assert FilePaths(b.files) + IdPaths(b.verify) + [] == FilePaths(b.files) + IdPaths(b.verify);
    assert IdPaths(b.verify) + FilePaths(b.files) + [] == IdPaths(b.verify) + FilePaths(b.files);
    NoDupSwap(FilePaths(b.files), IdPaths(b.verify), []);
    forall p | p in IdPaths(b.delete) ensures p !in IdPaths(b.verify) + FilePaths(b.files) { PathsOf(b, p); }
    NoDupParts(IdPaths(b.verify) + FilePaths(b.files), IdPaths(b.delete));
  }

  lemma RetirementHolds(source: Tree, allowed: seq<Path>, known: Known, start: Batch, found: Batch, b: Batch, root: Path)
    requires Assembled(source, allowed, known, start, found, b) && root in b.prune
    ensures RetirementOk(b, root) && Relative(root, allowed)
  {
    hide Walked, WellFormed, NoDup, NoNesting, Deleted, ScopedRelative, FilePaths, IdPaths, Sorted;
    var t, k :| t in start.prune && k in known && t <= root && root < k;
    assert Removes(known, Deleted(b), k);
    DeletedHasItem(b, k);
    TransitionInSource(source, allowed, known, start, t);
    forall p | Observed(b, p) ensures !(root <= p) && !(p <= root) {
      ObservedInSource(source, allowed, known, start, p);
      FilesDoNotNest(source, t, p);
      FilesDoNotNest(source, p, t);
      if p <= root { Comparable(p, t, root); }
    }
    ItemsObserved(b);
    KnownUnderRoot(source, allowed, known, start, found, t, k);
    PrefixRelative(allowed, t, root, k);
  }

  lemma ItemsObserved(b: Batch)
    ensures forall item :: item in b.files ==> Observed(b, item.path)
    ensures forall id :: id in b.verify ==> Observed(b, id.path)
  {
    forall item | item in b.files ensures item.path in FilePaths(b.files) {
      var i :| 0 <= i < |b.files| && b.files[i] == item;
      assert FilePaths(b.files)[i] == item.path;
    }
    forall id | id in b.verify ensures id.path in IdPaths(b.verify) {
      var i :| 0 <= i < |b.verify| && b.verify[i] == id;
      assert IdPaths(b.verify)[i] == id.path;
    }
  }

  lemma DeletedHasItem(b: Batch, k: Path)
    requires k in Deleted(b)
    ensures exists id :: id in b.delete && id.path == k
  {
    IndexHasItem(b.delete, k);
  }

  lemma {:induction false} IndexHasItem(ids: seq<Identity>, k: Path)
    requires k in Index(ids)
    ensures exists id :: id in ids && id.path == k
  {
    var n := |ids| - 1;
    if ids[n].path == k {
      assert ids[n] in ids;
    } else {
      IndexHasItem(ids[..n], k);
      var id :| id in ids[..n] && id.path == k;
      assert id in ids;
    }
  }

  lemma KnownUnderRoot(source: Tree, allowed: seq<Path>, known: Known, start: Batch, found: Batch, t: Path, k: Path)
    requires Discovered(source, allowed, known, Sorted(known.Keys), |known|, start, found)
    requires k in known && t <= k && Relative(t, allowed)
    ensures Relative(k, allowed)
  {
    hide Sorted, NoDup, Elements;
    var r :| r in allowed && r <= t;
    assert r <= k && InRoots(k, allowed);
    assert k in Sorted(known.Keys);
    var j :| 0 <= j < |known| && Sorted(known.Keys)[j] == k;
  }

  lemma PrefixRelative(allowed: seq<Path>, t: Path, d: Path, k: Path)
    requires Relative(t, allowed) && Relative(k, allowed) && t <= d && d <= k
    ensures Relative(d, allowed)
  {
    var r :| r in allowed && r <= t;
    assert r <= d;
    assert k == d + k[|d|..];
  }

  lemma FilesBind(source: Tree, allowed: seq<Path>, known: Known, start: Batch)
    requires Walked(source, allowed, known, start)
    ensures forall item :: item in start.files ==>
      item.expected == KnownDigest(known, item.path) && Unnested(allowed, known, item.path) && Relative(item.path, allowed)
      && |item.bytes| <= FILE_LIMIT && item.sha256 == Sha256(item.bytes)
    ensures forall id :: id in start.verify ==>
      Has(known, id.path, id.sha256) && Unnested(allowed, known, id.path) && IdOk(allowed, id)
  {
    hide Relative, ScopedRelative, Unnested, NoDup;
    forall item | item in start.files ensures FileFrom(source, allowed, known, item) {
      var i :| 0 <= i < |start.files| && start.files[i] == item;
    }
    forall id | id in start.verify ensures VerifyFrom(source, allowed, known, id) {
      var i :| 0 <= i < |start.verify| && start.verify[i] == id;
    }
  }

  /** Main result: a collected batch is structurally valid, provided the acknowledged paths do not nest
      and the acknowledged digests of updated files are well formed. */
  lemma CollectedIsReady(source: Tree, allowed: seq<Path>, known: Known, start: Batch, found: Batch, b: Batch, newRemaining: nat)
    requires Assembled(source, allowed, known, start, found, b) && RootsOk(allowed)
    requires |b.prune| <= INVENTORY_LIMIT && |b.omitted| + |b.deferred| <= INVENTORY_LIMIT && BatchSize(b) <= PAYLOAD_LIMIT
    requires newRemaining + NewFiles(known, start.files) == if |known| <= INVENTORY_LIMIT then INVENTORY_LIMIT - |known| else 0
    ensures Ready(allowed, known, b)
  {
    hide WellFormed, Sorted, Elements, IsContainer, Drained, NoDup, NoNesting, Deleted, ScopedRelative, Relative, BatchSize,
         BatchPaths, FileFrom, VerifyFrom, TransitionFrom, Unnested, RetirementOk, KnownPrefixFree, FilePaths, IdPaths, WalkPaths,
         Observed, InRoots;
    FilesBind(source, allowed, known, start);
    if KnownPrefixFree(allowed, known) { PathsDoNotNest(source, allowed, known, start, found, b); }
    PathsAreDistinct(source, allowed, known, start, found, b);
    forall root | root in b.prune ensures RetirementOk(b, root) && Relative(root, allowed) {
      RetirementHolds(source, allowed, known, start, found, b, root);
    }
    assert InventoriesOk(allowed, b);
    assert CountsOk(b);
  }
}
