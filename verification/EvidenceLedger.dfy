/** What a collection owes for each entry of its source: a record that accounts for it, a reason for whatever is
    omitted or deferred, and no more records than entries. */
module EvidenceLedger {
  import opened Effects
  import opened Order
  import opened EvidenceModel
  import opened EvidenceFrames

  type Known = map<Path, Digest>

  function KnownDigest(known: Known, p: Path): Option<Digest> { if p in known then Some(known[p]) else None }

  function NewFiles(known: Known, files: seq<Artifact>): nat {
    if files == [] then 0
    else NewFiles(known, files[..|files| - 1]) + (if files[|files| - 1].path in known then 0 else 1)
  }

  // ---------- records ----------

  /** `b` extends `a`. */
  ghost predicate Grows(a: Batch, b: Batch) {
    a.files <= b.files && a.verify <= b.verify && a.delete <= b.delete && a.omitted <= b.omitted && a.deferred <= b.deferred
  }

  function Load(b: Batch): nat { |b.files| + |b.verify| + |b.delete| + |b.omitted| + |b.deferred| }

  /** The entry is uploaded or verified, or lies at or below something omitted or deferred. */
  ghost predicate Listed(b: Batch, p: Path) {
    p in FilePaths(b.files) || p in IdPaths(b.verify) || InRoots(p, b.omitted) || InRoots(p, b.deferred)
  }

  /** Everything but directories at or below `path` is accounted for. */
  ghost predicate Covered(source: Tree, b: Batch, path: Path) {
    forall p :: p in source && path <= p && !source[p].Directory? ==> Listed(b, p)
  }

  lemma GrowsOn(a: Batch, b: Batch, c: Batch)
    ensures Grows(a, a)
    ensures Grows(a, b) && Grows(b, c) ==> Grows(a, c)
    ensures Grows(a, b) ==> Load(a) <= Load(b)
  {
  }

  lemma StillCovered(source: Tree, a: Batch, b: Batch, path: Path)
    requires Grows(a, b) && Covered(source, a, path)
    ensures Covered(source, b, path)
  {
    hide FilePaths, IdPaths, InRoots;
    forall p | p in source && path <= p && !source[p].Directory? ensures Listed(b, p) {
      StillListed(a, b, p);
    }
  }

  lemma StillListed(a: Batch, b: Batch, p: Path)
    requires Grows(a, b)
    ensures Listed(a, p) ==> Listed(b, p)
    ensures p in FilePaths(a.files) ==> p in FilePaths(b.files)
    ensures p in IdPaths(a.verify) ==> p in IdPaths(b.verify)
  {
    if p in FilePaths(a.files) {
      var i :| 0 <= i < |a.files| && FilePaths(a.files)[i] == p;
      assert FilePaths(b.files)[i] == p;
    }
    if p in IdPaths(a.verify) {
      var i :| 0 <= i < |a.verify| && IdPaths(a.verify)[i] == p;
      assert IdPaths(b.verify)[i] == p;
    }
    InRootsGrow(p, a.omitted, b.omitted);
    InRootsGrow(p, a.deferred, b.deferred);
  }

  lemma InRootsGrow(p: Path, a: seq<Path>, b: seq<Path>)
    requires a <= b
    ensures InRoots(p, a) ==> InRoots(p, b)
  {
    if InRoots(p, a) {
      var r :| r in a && r <= p;
      assert r in b;
    }
  }

  lemma CoveredByOne(source: Tree, b: Batch, path: Path)
    requires path in b.omitted || path in b.deferred
    ensures Covered(source, b, path)
  {
  }

  lemma NothingBelow(source: Tree, b: Batch, path: Path)
    requires WellFormed(source) && path != []
    ensures path !in source ==> forall p :: p in source ==> !(path <= p)
    ensures path !in source ==> Covered(source, b, path)
    ensures path in source && !source[path].Directory? ==> forall p :: p in source && path <= p ==> p == path
    ensures path in source && !source[path].Directory? && Listed(b, path) ==> Covered(source, b, path)
  {
    hide WellFormed, Listed;
    forall p | p in source && path <= p ensures path in source && (p != path ==> source[path].Directory?) {
      DirChain(source, p, path);
    }
  }

  // ---------- reasons ----------

  /** Something a collection may not read: a marked, oversized or irregular entry, a checkout, or a root behind one. */
  ghost predicate OmitReason(source: Tree, p: Path) {
    || (p in source && (Marked(p) || source[p].Other? || (source[p].File? && |source[p].bytes| > FILE_LIMIT)
                        || (source[p].Directory? && p + [GIT] in source)))
    || OpenDir(source, Parent(p)).Blocked?
  }

  /** No room for `need` more bytes or one more file. */
  ghost predicate NoRoomFor(known: Known, b: Batch, size: nat, p: Path, need: nat) {
    || size + need > PAYLOAD_LIMIT || |b.files| + |b.delete| >= FILE_COUNT_LIMIT
    || (p !in known && |known| + NewFiles(known, b.files) >= INVENTORY_LIMIT)
  }

  /** Something left for a later exchange: below a conflict, an acknowledged file that is a directory now, a file that
      replaces acknowledged descendants, or a file or removal there was no room for. */
  ghost predicate DeferReason(source: Tree, known: Known, cursor: seq<Path>, b: Batch, size: nat, p: Path) {
    || InRoots(p, cursor)
    || (p in source && source[p].Directory? && p in known)
    || (p in source && source[p].File? && exists k :: k in known && p < k)
    || (p in source && source[p].File? && NoRoomFor(known, b, size, p, 4 * |source[p].bytes| + NameSize(p)))
    || (p in known && NoRoomFor(known, b, size, p, NameSize(p)))
  }

  ghost predicate Named(source: Tree, allowed: seq<Path>, known: Known, p: Path) { p in source || p in allowed || p in known }

  ghost predicate Justified(source: Tree, allowed: seq<Path>, known: Known, cursor: seq<Path>, b: Batch, size: nat) {
    && (forall p :: p in b.omitted ==> OmitReason(source, p) && Named(source, allowed, known, p))
    && (forall p :: p in b.deferred ==> DeferReason(source, known, cursor, b, size, p) && Named(source, allowed, known, p))
  }

  lemma {:induction false} NewFilesGrow(known: Known, a: seq<Artifact>, b: seq<Artifact>)
    requires a <= b
    ensures NewFiles(known, a) <= NewFiles(known, b)
  {
    if |a| < |b| {
      var rest := b[..|b| - 1];
      assert a <= rest;
      NewFilesGrow(known, a, rest);
    } else {
      assert a == b;
    }
  }

  /** Reasons stand while the batch grows. */
  lemma JustifiedKept(
    source: Tree, allowed: seq<Path>, known: Known, cursor: seq<Path>, a: Batch, small: nat, b: Batch, size: nat)
    requires Justified(source, allowed, known, cursor, a, small) && small <= size
    requires a.files <= b.files && a.delete <= b.delete && a.omitted == b.omitted && a.deferred == b.deferred
    ensures Justified(source, allowed, known, cursor, b, size)
  {
    hide OmitReason, Named, InRoots, NewFiles, NameSize;
    NewFilesGrow(known, a.files, b.files);
  }

  lemma JustifiedOmit(source: Tree, allowed: seq<Path>, known: Known, cursor: seq<Path>, a: Batch, size: nat, p: Path)
    requires Justified(source, allowed, known, cursor, a, size) && OmitReason(source, p) && Named(source, allowed, known, p)
    ensures Justified(source, allowed, known, cursor, a.(omitted := a.omitted + [p]), size)
  {
    hide OmitReason, Named, InRoots, NewFiles, NameSize;
  }

  lemma JustifiedDefer(source: Tree, allowed: seq<Path>, known: Known, cursor: seq<Path>, a: Batch, b: Batch, size: nat, p: Path)
    requires Justified(source, allowed, known, cursor, a, size) && Named(source, allowed, known, p)
    requires DeferReason(source, known, cursor, a, size, p)
    requires b.files == a.files && b.delete == a.delete && b.omitted == a.omitted && b.deferred == a.deferred + [p]
    ensures Justified(source, allowed, known, cursor, b, size)
  {
    hide OmitReason, Named, InRoots, NewFiles, NameSize;
  }

  // ---------- counting entries ----------

  /** The entries at or below `path`. */
  function Region(source: Tree, path: Path): set<Path> { set p | p in source && path <= p }

  /** The entries at or below one of the first `n` tops. */
  function Regions(source: Tree, tops: seq<Path>, n: nat): set<Path>
    requires n <= |tops|
  {
    set p | p in source && exists j | 0 <= j < n :: tops[j] <= p
  }

  lemma RegionsNext(source: Tree, tops: seq<Path>, i: nat)
    requires i < |tops| && forall j :: 0 <= j < i ==> !(tops[j] <= tops[i]) && !(tops[i] <= tops[j])
    ensures |Regions(source, tops, i + 1)| == |Regions(source, tops, i)| + |Region(source, tops[i])|
  {
    var before, here := Regions(source, tops, i), Region(source, tops[i]);
    forall p | p in before && p in here ensures false {
      var j :| 0 <= j < i && tops[j] <= p;
      Chained(tops[j], tops[i], p);
    }
    forall p ensures p in Regions(source, tops, i + 1) <==> p in before + here {
      if p in Regions(source, tops, i + 1) {
        var j :| 0 <= j < i + 1 && tops[j] <= p;
        if j < i { assert p in before; }
      }
    }
    assert Regions(source, tops, i + 1) == before + here;
    assert before !! here;
  }

  lemma Chained(a: Path, c: Path, p: Path)
    requires a <= p && c <= p
    ensures a <= c || c <= a
  {
  }

  lemma RegionsFit(source: Tree, tops: seq<Path>, n: nat, s: set<Path>)
    requires n <= |tops| && forall p, j :: p in source && 0 <= j < n && tops[j] <= p ==> p in s
    ensures |Regions(source, tops, n)| <= |s|
  {
    var r := Regions(source, tops, n);
    assert r <= s;
    assert s == r + (s - r);
  }
}
