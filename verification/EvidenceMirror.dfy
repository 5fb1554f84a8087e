/** The receiver as it runs: a visible tree and the directory entries already synced to disk. Every
    file-system effect may fail, and a failure or a crash leaves whatever was done so far. */
module EvidenceMirror {
  import opened Effects
  import opened Order
  import opened EvidenceModel
  import opened EvidenceReceiver
  import opened EvidenceFrames
  import opened EvidenceSteps
  import opened EvidenceReplay
  import opened EvidenceReceipt
  import opened EvidenceForeign
  import opened EvidenceClearing
  import opened EvidenceDurable
  import opened EvidenceValidation

  /** How opening the parent of a path ended. */
  datatype Opening = Opened | NoParent | Refused | Broken

  datatype Outcome = Applied(receipt: Receipt) | Failed

  /** A stopped application: the tree only moved towards the uninterrupted result of `b` on `t`. */
  ghost predicate Moved(b: Batch, t: Tree, mid: Tree) {
    WellFormed(mid) && Uninterrupted(b, mid) == Uninterrupted(b, t) && forall q :: Entitled(b, t, mid, q)
  }

  lemma Agree(t: Tree, u: Tree)
    requires forall q :: SameAt(t, u, q)
    ensures t == u
  {
    assert forall q :: q in t ==> SameAt(t, u, q);
    assert forall q :: q in u ==> SameAt(t, u, q);
  }

  /** A synced change of one entry: the durable tree is the visible one again. */
  lemma OneEntry(before: Tree, after: Tree, d: Tree, d': Tree, p: Path)
    requires d == before && (forall q :: q != p ==> SameAt(before, after, q)) && SameAt(after, d', p)
    requires forall q :: SameAt(after, d, q) ==> SameAt(after, d', q)
    ensures d' == after
  {
    forall q ensures SameAt(d', after, q) {
      if q != p { assert SameAt(before, after, q) && SameAt(after, d, q); }
    }
    Agree(d', after);
  }

  lemma SyncedSteady(t0: Tree, d0: Tree, t: Tree, d: Tree, d': Tree)
    requires Steady(t0, d0, t, d) && forall q :: SameAt(t, d, q) ==> SameAt(t, d', q)
    ensures Steady(t0, d0, t, d')
  {
  }

  lemma MakeDirsNext(t: Tree, p: Path, i: nat)
    requires i < |p|
    ensures var u, next := MakeDirs(t, p[..i]), p[..i + 1]; MakeDirs(t, next) == if next in u then u else u[next := Directory]
  {
    assert Parent(p[..i + 1]) == p[..i];
  }

  /** A step that changed nothing yet is a part of it. */
  lemma UnchangedIsPartial(b: Batch, blocked: set<Path>, s: Progress, op: Op)
    ensures Partial(b, blocked, s, op, s.tree)
  {
    hide Step;
  }

  class Mirror {
    /** Visible entries. */
    var tree: Tree
    /** Entries that survive a power loss. */
    var durable: Tree

    constructor (t: Tree, d: Tree)
      ensures tree == t && durable == d
    {
      tree, durable := t, d;
    }

    /** Sync directory `d`: its entries become durable as visible. */
    method Sync(d: Path) returns (ok: bool)
      modifies this`durable
      ensures forall q :: SameAt(tree, old(durable), q) ==> SameAt(tree, durable, q)
      ensures ok ==> forall q :: q != [] && Parent(q) == d ==> SameAt(tree, durable, q)
      ensures old(durable) == tree || !ok ==> durable == old(durable)
    {
      ok := *;
      if ok {
        var kept := map q | q in durable && !(q != [] && Parent(q) == d) :: durable[q];
        var seen := map q | q in tree && q != [] && Parent(q) == d :: tree[q];
        durable := kept + seen;
        if old(durable) == tree { Agree(durable, tree); }
      }
    }

    /** Change one visible entry, or fail without changing it. */
    method SetEntry(q: Path, node: Node) returns (ok: bool)
      modifies this`tree
      ensures ok ==> tree == old(tree)[q := node]
      ensures !ok ==> tree == old(tree)
    {
      ok := *;
      if ok { tree := tree[q := node]; }
    }

    method RemoveEntry(q: Path) returns (ok: bool)
      modifies this`tree
      ensures ok ==> tree == old(tree) - {q}
      ensures !ok ==> tree == old(tree)
    {
      ok := *;
      if ok { tree := tree - {q}; }
    }

    /** Walk to the parent of `p`, syncing each directory passed. */
    method FindParent(p: Path) returns (r: Opening)
      requires Clean(p)
      modifies this`durable
      ensures r.Opened? ==> OpenDir(tree, Parent(p)).Found? && FirmTo(tree, durable, p, |p| - 1)
      ensures r.NoParent? ==> OpenDir(tree, Parent(p)).Absent? && GoneIn(tree, durable, p)
      ensures r.Refused? ==> OpenDir(tree, Parent(p)).Blocked?
      ensures Steady(tree, old(durable), tree, durable)
      ensures old(durable) == tree ==> durable == tree
    {
      var i := 0;
      while i < |p| - 1
        invariant 0 <= i <= |p| - 1
        invariant OpenDir(tree, p[..i]).Found?
        invariant FirmTo(tree, durable, p, i)
        invariant Steady(tree, old(durable), tree, durable)
        invariant old(durable) == tree ==> durable == tree
      {
        var here, next := p[..i], p[..i + 1];
        NextComponent(p, i);
        LookupBelow(tree, next, Parent(p));
        if next !in tree {
          var ok := Sync(here);
          if !ok { return Broken; }
          assert SameAt(tree, durable, next);
          assert GoneAt(tree, durable, p, i + 1);
          return NoParent;
        }
        if !tree[next].Directory? { return Refused; }
        var ok := Sync(here);
        if !ok { return Broken; }
        assert SameAt(tree, durable, next);
        if next + [GIT] in tree { return Refused; }
        i := i + 1;
      }
      assert p[..|p| - 1] == Parent(p);
      r := Opened;
    }

    /** Make the next directory on the way to `p` if it is missing, and sync the one that holds it. */
    method MakeNext(p: Path, i: nat, ghost t0: Tree, ghost d0: Tree) returns (ok: bool)
      requires WellFormed(t0) && Clean(p) && !OpenDir(t0, Parent(p)).Blocked? && i < |p| - 1
      requires tree == MakeDirs(t0, p[..i]) && FirmTo(tree, durable, p, i) && Steady(t0, d0, tree, durable)
      requires t0 == d0 ==> durable == tree
      modifies this
      ensures Steady(t0, d0, tree, durable)
      ensures ok ==> tree == MakeDirs(t0, p[..i + 1]) && FirmTo(tree, durable, p, i + 1) && (t0 == d0 ==> durable == tree)
      ensures !ok ==> (exists n :: PartlyMade(t0, p, n, tree)) && (t0 == d0 ==> PartlyMade(t0, p, i, durable))
    {
      hide WellFormed, MakeDirs, OpenDir, Steady;
      var here, next := p[..i], p[..i + 1];
      ghost var last := tree;
      NextComponent(p, i);
      MakeDirsAt(t0, here, next);
      MakeDirsNext(t0, p, i);
      if next !in tree {
        ok := SetEntry(next, Directory);
        if !ok {
          assert PartlyMade(t0, p, i, tree);
          return;
        }
        FirmPrefix(p, i);
        MadeSteady(t0, d0, last, durable, next);
      }
      assert tree == MakeDirs(t0, next);
      ghost var d := durable;
      ok := Sync(here);
      SyncedSteady(t0, d0, tree, d, durable);
      if !ok {
        assert PartlyMade(t0, p, i + 1, tree);
        return;
      }
      assert SameAt(tree, durable, next);
      if d == last { OneEntry(last, tree, d, durable, next); }
    }

    /** Walk to the parent of `p`, making what is missing and syncing each directory passed. */
    method MakeParent(p: Path) returns (r: Opening)
      requires WellFormed(tree) && Clean(p) && !OpenDir(tree, Parent(p)).Blocked?
      modifies this
      ensures !r.NoParent? && !r.Refused?
      ensures r.Opened? ==> tree == MakeDirs(old(tree), Parent(p)) && FirmTo(tree, durable, p, |p| - 1)
      ensures r.Broken? ==> exists n :: PartlyMade(old(tree), p, n, tree)
      ensures Steady(old(tree), old(durable), tree, durable)
      ensures old(tree) == old(durable) && r.Opened? ==> durable == tree
      ensures old(tree) == old(durable) && r.Broken? ==> exists n :: PartlyMade(old(tree), p, n, durable)
    {
      hide WellFormed, OpenDir, PartlyMade, Steady;
      SteadyNow(tree, durable);
      var i := 0;
      assert p[..0] == [];
      while i < |p| - 1
        invariant 0 <= i <= |p| - 1
        invariant tree == MakeDirs(old(tree), p[..i])
        invariant FirmTo(tree, durable, p, i)
        invariant Steady(old(tree), old(durable), tree, durable)
        invariant old(tree) == old(durable) ==> durable == tree
      {
        var ok := MakeNext(p, i, old(tree), old(durable));
        if !ok { return Broken; }
        i := i + 1;
      }
      assert p[..|p| - 1] == Parent(p);
      r := Opened;
    }

    method VerifyItem(b: Batch, ghost blocked: set<Path>, receipt: Receipt, id: Identity) returns (fine: bool, after: Receipt)
      requires WellFormed(tree) && Clean(id.path) && id.path !in receipt.accepted
      modifies this`durable
      ensures fine ==> Progress(tree, after) == Step(b, blocked, Progress(tree, receipt), Check(id))
      ensures fine ==> NewlyFirm(Check(id), Progress(tree, after), durable)
      ensures !fine ==> Partial(b, blocked, Progress(tree, receipt), Check(id), tree)
      ensures Steady(tree, old(durable), tree, durable)
      ensures old(durable) == tree ==> durable == tree
    {
      hide WellFormed;
      if ReceiverHash(tree, id.path).Matches(id.sha256) {
        var r := FindParent(id.path);
        if !r.Opened? { return false, receipt; }
        var ok := Sync(Parent(id.path));
        if !ok { return false, receipt; }
        LastIsFirm(tree, durable, id.path);
        after := Accept(receipt, id.path, id.sha256);
      } else {
        after := Refuse(receipt, id.path);
      }
      fine := true;
    }

    method StoreItem(b: Batch, ghost blocked: set<Path>, receipt: Receipt, item: Artifact) returns (fine: bool, after: Receipt)
      requires WellFormed(tree) && OpRegular(b, Store(item)) && item.path !in receipt.accepted
      modifies this
      ensures fine ==> Progress(tree, after) == Step(b, blocked, Progress(old(tree), receipt), Store(item))
      ensures fine ==> NewlyFirm(Store(item), Progress(tree, after), durable)
      ensures !fine ==> Partial(b, blocked, Progress(old(tree), receipt), Store(item), tree)
      ensures Steady(old(tree), old(durable), tree, durable)
      ensures old(tree) == old(durable) && fine ==> durable == tree
      ensures old(tree) == old(durable) && !fine ==> Partial(b, blocked, Progress(old(tree), receipt), Store(item), durable)
    {
      hide WellFormed, ReceiverHash;
      var path := item.path;
      var current := ReceiverHash(tree, path);
      if !current.Matches(item.sha256) && !current.Expected(item.expected) {
        return true, Refuse(receipt, path);
      }
      if current.Matches(item.sha256) {
        // Byte equality after a failed sync is not durability: sync what is there.
        var r := FindParent(path);
        if !r.Opened? { return false, receipt; }
        var ok := Sync(Parent(path));
        if !ok { return false, receipt; }
        LastIsFirm(tree, durable, path);
        return true, Accept(receipt, path, item.sha256);
      }
      StoreFacts(tree, item);
      var r := MakeParent(path);
      if r.Broken? { return false, receipt; }
      ghost var before := tree;
      assert path[..|path| - 1] == Parent(path);
      assert old(tree) == old(durable) ==> PartlyMade(old(tree), path, |path| - 1, durable);
      var ok := SetEntry(path, File(item.bytes));
      if !ok {
        assert PartlyMade(old(tree), path, |path| - 1, tree);
        return false, receipt;
      }
      FirmBelow(path);
      FirmAbove(before, tree, durable, path);
      assert tree == StoreTree(old(tree), item);
      NewFileSteady(old(tree), old(durable), before, durable, item);
      ghost var last := durable;
      ok := Sync(Parent(path));
      if !ok { return false, receipt; }
      if last == before { OneEntry(before, tree, last, durable, path); }
      LastIsFirm(tree, durable, path);
      return true, Accept(receipt, path, item.sha256);
    }

    method EraseItem(b: Batch, blocked: set<Path>, receipt: Receipt, id: Identity) returns (fine: bool, after: Receipt)
      requires WellFormed(tree) && Clean(id.path) && id.path !in receipt.accepted && id.path !in receipt.removed
      modifies this
      ensures fine ==> Progress(tree, after) == Step(b, blocked, Progress(old(tree), receipt), Erase(id))
      ensures fine ==> NewlyFirm(Erase(id), Progress(tree, after), durable)
      ensures !fine ==> Partial(b, blocked, Progress(old(tree), receipt), Erase(id), tree)
      ensures Steady(old(tree), old(durable), tree, durable)
      ensures old(tree) == old(durable) ==> durable == if fine then tree else old(tree)
    {
      hide WellFormed;
      var path := id.path;
      if InBlocked(blocked, path) { return true, Refuse(receipt, path); }
      var current := ReceiverHash(tree, path);
      if !current.Missing? && !current.Matches(id.sha256) { return true, Refuse(receipt, path); }
      var r := FindParent(path);
      if r.Opened? {
        if !current.Missing? {
          var gone := RemoveEntry(path);
          if !gone { return false, receipt; }
        }
        assert tree == EraseTree(old(tree), blocked, id);
        ghost var last := durable;
        var ok := Sync(Parent(path));
        if !ok { return false, receipt; }
        if last == old(tree) { OneEntry(old(tree), tree, last, durable, path); }
        assert path[..|path|] == path;
        assert SameAt(tree, durable, path);
        assert GoneAt(tree, durable, path, |path|);
      } else if !r.NoParent? {
        return false, receipt;
      }
      return true, receipt.(removed := receipt.removed[path := id.sha256]);
    }

    /** Retire one directory if it is empty; absence counts once it is synced. */
    method PruneDir(d: Path) returns (fine: bool, gone: bool)
      requires Clean(d) && !OpenDir(tree, Parent(d)).Blocked?
      modifies this
      ensures fine ==> PruneEmpty(old(tree), d) == (tree, gone)
      ensures fine && OpenDir(old(tree), Parent(d)).Absent? ==> gone && tree == old(tree)
      ensures fine && OpenDir(old(tree), Parent(d)).Found? ==>
                && (gone <==> d !in old(tree) || (old(tree)[d].Directory? && forall p :: p in old(tree) ==> !(|p| == |d| + 1 && d < p)))
                && tree == if gone then old(tree) - {d} else old(tree)
      ensures fine && gone ==> GoneIn(tree, durable, d)
      ensures !fine ==> tree == old(tree) || PruneEmpty(old(tree), d) == (tree, true)
      ensures Steady(old(tree), old(durable), tree, durable)
      ensures old(tree) == old(durable) ==> durable == if fine then tree else old(tree)
    {
      var r := FindParent(d);
      if r.NoParent? { return true, true; }
      if !r.Opened? { return false, false; }
      if d in tree {
        if !tree[d].Directory? || d + [GIT] in tree {
          assert d + [GIT] in tree ==> HasChild(tree, d);
          return true, false;
        }
        if HasChild(tree, d) { return true, false; }
        var ok := RemoveEntry(d);
        if !ok { return false, false; }
      }
      ghost var last := durable;
      var ok := Sync(Parent(d));
      if !ok { return false, false; }
      if last == old(tree) { OneEntry(old(tree), tree, last, durable, d); }
      assert d[..|d|] == d;
      assert SameAt(tree, durable, d);
      assert GoneAt(tree, durable, d, |d|);
      return true, true;
    }

    /** Retire the next container of `root`. */
    method RetireNext(b: Batch, root: Path, dirs: seq<Path>, i: nat, ghost t0: Tree, ghost d0: Tree) returns (fine: bool, gone: bool)
      requires WellFormed(t0) && OpRegular(b, Retire(root)) && dirs == RetireOrder(b, root) && i < |dirs| && AllClean(dirs)
      requires forall d :: d in Containers(b, root) ==> !OpenDir(t0, Parent(d)).Blocked?
      requires PruneAll(t0, dirs[..i]) == (tree, true) && Steady(t0, d0, tree, durable) && (t0 == d0 ==> durable == tree)
      requires forall j :: 0 <= j < i ==> GoneIn(tree, durable, dirs[j])
      modifies this
      ensures Steady(t0, d0, tree, durable)
      ensures fine ==> PruneAll(t0, dirs[..i + 1]) == (tree, gone) && (t0 == d0 ==> durable == tree)
      ensures fine && gone ==> forall j :: 0 <= j < i + 1 ==> GoneIn(tree, durable, dirs[j])
      ensures fine && !gone ==> RetireTree(t0, b, root) == (tree, false)
      ensures !fine ==> (exists n :: PartlyPruned(b, t0, root, n, tree)) && (t0 == d0 ==> exists n :: PartlyPruned(b, t0, root, n, durable))
    {
      hide WellFormed, Containers, RetireOrder, OpenDir, PruneEmpty, Steady, GoneIn, PartlyPruned, PruneAll, OpRegular;
      ghost var t, d := tree, durable;
      assert dirs[i] in dirs;
      RetirePartialFrame(b, t0, root, i, Parent(dirs[i]));
      PruneOneMore(t0, dirs, i, tree);
      PrunedSoFar(b, t0, root, i, tree);
      fine, gone := PruneDir(dirs[i]);
      SteadyPruned(t0, d0, dirs, i, t, d, tree, durable);
      if !fine {
        if tree != t { PrunedSoFar(b, t0, root, i + 1, tree); }
        return;
      }
      if !gone { return; }
      forall j | 0 <= j < i ensures GoneIn(tree, durable, dirs[j]) { GoneStays(t, d, tree, durable, dirs[j]); }
    }

    /** Retire the containers of `root`, deepest first, stopping at the first that is not empty. */
    method RetireDirs(b: Batch, root: Path) returns (fine: bool, gone: bool)
      requires WellFormed(tree) && OpRegular(b, Retire(root)) && root in Containers(b, root)
      requires forall d :: d in Containers(b, root) ==> !OpenDir(tree, Parent(d)).Blocked?
      modifies this
      ensures fine ==> RetireTree(old(tree), b, root) == (tree, gone)
      ensures fine && gone ==> GoneIn(tree, durable, root)
      ensures !fine ==> exists n :: PartlyPruned(b, old(tree), root, n, tree)
      ensures Steady(old(tree), old(durable), tree, durable)
      ensures old(tree) == old(durable) && fine ==> durable == tree
      ensures old(tree) == old(durable) && !fine ==> exists n :: PartlyPruned(b, old(tree), root, n, durable)
    {
      hide WellFormed, Containers, RetireOrder, OpenDir, PruneEmpty, Steady, GoneIn, PartlyPruned, OpRegular;
      var dirs := RetireOrder(b, root);
      OrderIsClean(b, root, 0);
      SteadyNow(tree, durable);
      assert dirs[..0] == [];
      for i := 0 to |dirs|
        invariant PruneAll(old(tree), dirs[..i]) == (tree, true)
        invariant forall j :: 0 <= j < i ==> GoneIn(tree, durable, dirs[j])
        invariant Steady(old(tree), old(durable), tree, durable)
        invariant old(tree) == old(durable) ==> durable == tree
      {
        fine, gone := RetireNext(b, root, dirs, i, old(tree), old(durable));
        if !fine || !gone { return; }
      }
      assert dirs[..|dirs|] == dirs;
      assert root in dirs;
      fine, gone := true, true;
    }

    method RetireItem(b: Batch, blocked: set<Path>, receipt: Receipt, root: Path) returns (fine: bool, after: Receipt)
      requires WellFormed(tree) && OpRegular(b, Retire(root)) && root !in receipt.accepted && root !in receipt.pruned
      requires root in Containers(b, root)
      requires root !in blocked ==> forall d :: d in Containers(b, root) ==> !OpenDir(tree, Parent(d)).Blocked?
      modifies this
      ensures fine ==> Progress(tree, after) == Step(b, blocked, Progress(old(tree), receipt), Retire(root))
      ensures fine ==> NewlyFirm(Retire(root), Progress(tree, after), durable)
      ensures !fine ==> Partial(b, blocked, Progress(old(tree), receipt), Retire(root), tree)
      ensures Steady(old(tree), old(durable), tree, durable)
      ensures old(tree) == old(durable) && fine ==> durable == tree
      ensures old(tree) == old(durable) && !fine ==> Partial(b, blocked, Progress(old(tree), receipt), Retire(root), durable)
    {
      hide WellFormed, Containers, RetireTree, AllRemoved, Descendants, OpenDir, Steady, GoneIn, PartlyPruned;
      SteadyNow(tree, durable);
      var complete := root !in blocked && AllRemoved(b, root, receipt.removed);
      if complete {
        fine, complete := RetireDirs(b, root);
        if !fine { return false, receipt; }
      }
      if complete { return true, receipt.(pruned := receipt.pruned + [root]); }
      var back := set id | id in Descendants(b, root) :: id.path;
      return true, Refuse(receipt, root).(removed := receipt.removed - back);
    }

    /** The state between steps of one application of `b` started on tree `t`. */
    ghost predicate Between(b: Batch, t: Tree, k: nat, receipt: Receipt)
      reads this
      requires k <= |Ops(b)|
    {
      Progress(tree, receipt) == StateAt(b, t, k) && WellFormed(tree) && Firm(StateAt(b, t, k), durable)
    }

    /** Check retained identities without retransmission. */
    method VerifyAll(ghost allowed: seq<Path>, b: Batch, ghost t: Tree, blocked: set<Path>, receipt: Receipt)
      returns (fine: bool, after: Receipt)
      requires ValidBatch(allowed, b) && Regular(b) && WellFormed(t) && blocked == BlockedRoots(t, b)
      requires 0 <= |Ops(b)| && Between(b, t, 0, receipt)
      modifies this
      ensures 0 + |b.verify| <= |Ops(b)|
      ensures fine ==> Between(b, t, 0 + |b.verify|, after)
      ensures !fine ==> Moved(b, t, tree)
      ensures old(tree) == old(durable) ==> if fine then durable == tree else Moved(b, t, durable)
    {
      hide ValidBatch, WellFormed, Ops, StateAt, Regular, Step, Firm, NewlyFirm, Steady, OpRegular, BlockedRoots, Partial,
           Entitled, Uninterrupted, Containers;
      OpCount(b);
      ghost var k := 0;
      after := receipt;
      for i := 0 to |b.verify|
        invariant k == 0 + i && Between(b, t, k, after)
        invariant old(tree) == old(durable) ==> durable == tree
      {
        ghost var d := durable;
        CheckOp(b, i);
        StepReady(b, t, k);
        var next;
        fine, next := VerifyItem(b, blocked, after, b.verify[i]);
        if !fine {
          Interrupted(allowed, b, t, k, tree);
          if old(tree) == old(durable) { Interrupted(allowed, b, t, k, durable); }
          return;
        }
        StepTaken(b, t, k, d, durable, tree, next);
        after, k := next, k + 1;
      }
      fine := true;
    }

    /** Compare and swap every upload. */
    method StoreAll(ghost allowed: seq<Path>, b: Batch, ghost t: Tree, blocked: set<Path>, receipt: Receipt)
      returns (fine: bool, after: Receipt)
      requires ValidBatch(allowed, b) && Regular(b) && WellFormed(t) && blocked == BlockedRoots(t, b)
      requires |b.verify| <= |Ops(b)| && Between(b, t, |b.verify|, receipt)
      modifies this
      ensures |b.verify| + |b.files| <= |Ops(b)|
      ensures fine ==> Between(b, t, |b.verify| + |b.files|, after)
      ensures !fine ==> Moved(b, t, tree)
      ensures old(tree) == old(durable) ==> if fine then durable == tree else Moved(b, t, durable)
    {
      hide ValidBatch, WellFormed, Ops, StateAt, Regular, Step, Firm, NewlyFirm, Steady, OpRegular, BlockedRoots, Partial,
           Entitled, Uninterrupted, Containers;
      OpCount(b);
      ghost var k := |b.verify|;
      after := receipt;
      for i := 0 to |b.files|
        invariant k == |b.verify| + i && Between(b, t, k, after)
        invariant old(tree) == old(durable) ==> durable == tree
      {
        ghost var d := durable;
        StoreOp(b, i);
        StepReady(b, t, k);
        var next;
        fine, next := StoreItem(b, blocked, after, b.files[i]);
        if !fine {
          Interrupted(allowed, b, t, k, tree);
          if old(tree) == old(durable) { Interrupted(allowed, b, t, k, durable); }
          return;
        }
        StepTaken(b, t, k, d, durable, tree, next);
        after, k := next, k + 1;
      }
      fine := true;
    }

    /** Compare and delete every removal. */
    method EraseAll(ghost allowed: seq<Path>, b: Batch, ghost t: Tree, blocked: set<Path>, receipt: Receipt)
      returns (fine: bool, after: Receipt)
      requires ValidBatch(allowed, b) && Regular(b) && WellFormed(t) && blocked == BlockedRoots(t, b)
      requires |b.verify| + |b.files| <= |Ops(b)| && Between(b, t, |b.verify| + |b.files|, receipt)
      modifies this
      ensures |b.verify| + |b.files| + |b.delete| <= |Ops(b)|
      ensures fine ==> Between(b, t, |b.verify| + |b.files| + |b.delete|, after)
      ensures !fine ==> Moved(b, t, tree)
      ensures old(tree) == old(durable) ==> if fine then durable == tree else Moved(b, t, durable)
    {
      hide ValidBatch, WellFormed, Ops, StateAt, Regular, Step, Firm, NewlyFirm, Steady, OpRegular, BlockedRoots, Partial,
           Entitled, Uninterrupted, Containers;
      OpCount(b);
      ghost var k := |b.verify| + |b.files|;
      after := receipt;
      for i := 0 to |b.delete|
        invariant k == |b.verify| + |b.files| + i && Between(b, t, k, after)
        invariant old(tree) == old(durable) ==> durable == tree
      {
        ghost var d := durable;
        EraseOp(b, i);
        StepReady(b, t, k);
        var next;
        UnchangedIsPartial(b, blocked, StateAt(b, t, k), Ops(b)[k]);
        fine, next := EraseItem(b, blocked, after, b.delete[i]);
        if !fine {
          Interrupted(allowed, b, t, k, tree);
          if old(tree) == old(durable) { Interrupted(allowed, b, t, k, durable); }
          return;
        }
        StepTaken(b, t, k, d, durable, tree, next);
        after, k := next, k + 1;
      }
      fine := true;
    }

    /** Retire the emptied directories. */
    method RetireAll(ghost allowed: seq<Path>, b: Batch, ghost t: Tree, blocked: set<Path>, receipt: Receipt)
      returns (fine: bool, after: Receipt)
      requires ValidBatch(allowed, b) && Regular(b) && WellFormed(t) && blocked == BlockedRoots(t, b)
      requires |b.verify| + |b.files| + |b.delete| <= |Ops(b)| && Between(b, t, |b.verify| + |b.files| + |b.delete|, receipt)
      modifies this
      ensures |b.verify| + |b.files| + |b.delete| + |PruneOrder(b)| <= |Ops(b)|
      ensures fine ==> Between(b, t, |b.verify| + |b.files| + |b.delete| + |PruneOrder(b)|, after)
      ensures !fine ==> Moved(b, t, tree)
      ensures old(tree) == old(durable) ==> if fine then durable == tree else Moved(b, t, durable)
    {
      hide ValidBatch, WellFormed, Ops, StateAt, Regular, Step, Firm, NewlyFirm, Steady, OpRegular, BlockedRoots, Partial,
           Entitled, Uninterrupted, Containers;
      OpCount(b);
      ghost var k := |b.verify| + |b.files| + |b.delete|;
      after := receipt;
      var roots := PruneOrder(b);
      for i := 0 to |roots|
        invariant k == |b.verify| + |b.files| + |b.delete| + i && Between(b, t, k, after)
        invariant old(tree) == old(durable) ==> durable == tree
      {
        ghost var d := durable;
        RetireOp(b, i);
        StepReady(b, t, k);
        RetireReady(allowed, b, t, k);
        var next;
        fine, next := RetireItem(b, blocked, after, roots[i]);
        if !fine {
          Interrupted(allowed, b, t, k, tree);
          if old(tree) == old(durable) { Interrupted(allowed, b, t, k, durable); }
          return;
        }
        StepTaken(b, t, k, d, durable, tree, next);
        after, k := next, k + 1;
      }
      fine := true;
    }

    /** Apply one exchange. Whatever happens, the tree only moved towards the uninterrupted result and
        lost nothing foreign; a receipt is returned only when all it acknowledges is durable, and it judges each
        retirement by what was in its way before. */
    method Apply(allowed: seq<Path>, b: Batch) returns (out: Outcome)
      requires WellFormed(tree)
      modifies this
      ensures !ValidBatch(allowed, b) || [GIT] in old(tree) ==> out.Failed? && tree == old(tree) && durable == old(durable)
      ensures ValidBatch(allowed, b) ==> Moved(b, old(tree), tree)
      ensures ValidBatch(allowed, b) && old(tree) == old(durable) ==> Moved(b, old(tree), durable) && (out.Applied? ==> durable == tree)
      ensures out.Applied? ==> ValidBatch(allowed, b) && Progress(tree, out.receipt) == Uninterrupted(b, old(tree))
      ensures out.Applied? ==> forall root :: root in b.prune ==> Judged(b, old(tree), tree, out.receipt, root)
      ensures out.Applied? ==> forall p :: p in out.receipt.accepted ==> HeldDurably(durable, p, out.receipt.accepted[p])
      ensures out.Applied? ==> forall p :: p in out.receipt.removed || p in out.receipt.pruned ==> GoneDurably(durable, p)
    {
      hide ValidBatch, WellFormed, Ops, StateAt, Regular, Firm, BlockedRoots, Entitled, Uninterrupted, HeldDurably, GoneDurably, Judged;
      ghost var t := tree;
      forall q ensures Entitled(b, t, t, q) { EntitledStart(b, t, q); }
      if [GIT] in tree { return Failed; }
      var valid, blocked := Validate(tree, allowed, b);
      if !valid { return Failed; }
      ValidIsRegular(allowed, b);
      OpCount(b);
      StartIsFirm(b, t, durable);
      var fine, receipt := VerifyAll(allowed, b, t, blocked, EmptyReceipt(b));
      if !fine { return Failed; }
      fine, receipt := StoreAll(allowed, b, t, blocked, receipt);
      if !fine { return Failed; }
      fine, receipt := EraseAll(allowed, b, t, blocked, receipt);
      if !fine { return Failed; }
      fine, receipt := RetireAll(allowed, b, t, blocked, receipt);
      if !fine { return Failed; }
      Completed(allowed, b, t, tree, durable, receipt);
      forall root | root in b.prune ensures Judged(b, t, tree, receipt, root) { RetirementJudged(allowed, b, t, root); }
      return Applied(receipt);
    }
  }

  lemma OpCount(b: Batch)
    ensures |Ops(b)| == |b.verify| + |b.files| + |b.delete| + |PruneOrder(b)|
  {
    hide PruneOrder;
  }

  lemma CheckOp(b: Batch, i: nat)
    requires i < |b.verify|
    ensures i < |Ops(b)| && Ops(b)[i] == Check(b.verify[i])
  {
    hide PruneOrder;
  }

  lemma StoreOp(b: Batch, i: nat)
    requires i < |b.files|
    ensures |b.verify| + i < |Ops(b)| && Ops(b)[|b.verify| + i] == Store(b.files[i])
  {
    hide PruneOrder;
  }

  lemma EraseOp(b: Batch, i: nat)
    requires i < |b.delete|
    ensures |b.verify| + |b.files| + i < |Ops(b)| && Ops(b)[|b.verify| + |b.files| + i] == Erase(b.delete[i])
  {
    hide PruneOrder;
  }

  lemma RetireOp(b: Batch, i: nat)
    requires i < |PruneOrder(b)|
    ensures |b.verify| + |b.files| + |b.delete| + i < |Ops(b)|
    ensures Ops(b)[|b.verify| + |b.files| + |b.delete| + i] == Retire(PruneOrder(b)[i])
  {
    hide PruneOrder;
  }

  lemma StartIsFirm(b: Batch, t: Tree, durable: Tree)
    ensures StateAt(b, t, 0) == Start(t, b) && Firm(StateAt(b, t, 0), durable)
  {
    hide Step, Ops, BlockedRoots;
    assert Ops(b)[..0] == [];
  }

  /** What a step may rely on. */
  lemma StepReady(b: Batch, t: Tree, k: nat)
    requires Regular(b) && WellFormed(t) && k < |Ops(b)|
    ensures OpRegular(b, Ops(b)[k]) && Clean(OpPath(Ops(b)[k]))
    ensures var r := StateAt(b, t, k).receipt; var p := OpPath(Ops(b)[k]);
      p !in r.accepted && p !in r.removed && p !in r.pruned
  {
    hide Regular, StateAt, Ops, WellFormed, SentAs, RemovalOf;
    RegularOp(b, k);
    AccountedAt(b, t, k);
    DoneStep(b, k);
  }

  lemma Interrupted(allowed: seq<Path>, b: Batch, t: Tree, k: nat, mid: Tree)
    requires ValidBatch(allowed, b) && Regular(b) && WellFormed(t) && k < |Ops(b)|
    requires Partial(b, BlockedRoots(t, b), StateAt(b, t, k), Ops(b)[k], mid)
    ensures Moved(b, t, mid)
  {
    hide WellFormed, Ops, StateAt, Regular, Partial, Entitled, Uninterrupted, ValidBatch;
    CrashReplay(b, t, k, mid);
    forall q ensures Entitled(b, t, mid, q) { NoForeignBytesLost(allowed, b, t, k, mid, q); }
  }

  lemma StepTaken(b: Batch, t: Tree, k: nat, d: Tree, d': Tree, tree: Tree, after: Receipt)
    requires Regular(b) && WellFormed(t) && k < |Ops(b)| && Firm(StateAt(b, t, k), d)
    requires Progress(tree, after) == Step(b, BlockedRoots(t, b), StateAt(b, t, k), Ops(b)[k])
    requires Steady(StateAt(b, t, k).tree, d, tree, d') && NewlyFirm(Ops(b)[k], Progress(tree, after), d')
    ensures Progress(tree, after) == StateAt(b, t, k + 1) && WellFormed(tree) && Firm(StateAt(b, t, k + 1), d')
  {
    hide Regular, WellFormed, Ops, Step, StateAt, Firm, Steady, NewlyFirm;
    StateStep(b, t, k);
    StatesWellFormed(b, t, k + 1);
    FirmNext(b, t, k, d, d');
  }

  lemma Completed(allowed: seq<Path>, b: Batch, t: Tree, tree: Tree, durable: Tree, receipt: Receipt)
    requires ValidBatch(allowed, b) && Regular(b) && WellFormed(t)
    requires Progress(tree, receipt) == StateAt(b, t, |Ops(b)|) && Firm(StateAt(b, t, |Ops(b)|), durable)
    ensures Progress(tree, receipt) == Uninterrupted(b, t) && Uninterrupted(b, tree) == Uninterrupted(b, t)
    ensures forall q :: Entitled(b, t, tree, q)
    ensures forall p :: p in receipt.accepted ==> HeldDurably(durable, p, receipt.accepted[p])
    ensures forall p :: p in receipt.removed || p in receipt.pruned ==> GoneDurably(durable, p)
  {
    hide Regular, WellFormed, Ops, Step, StateAt, FirmTo, HeldDurably, ReceiverHash, ValidBatch, Entitled;
    var n := |Ops(b)|;
    FinishedReplay(b, t);
    AcceptedShownAt(b, t, n);
    StatesWellFormed(b, t, n);
    forall q ensures Entitled(b, t, tree, q) { EntitledAt(allowed, b, t, n, q); }
    forall p | p in receipt.accepted ensures HeldDurably(durable, p, receipt.accepted[p]) {
      HeldMeansDurable(tree, durable, p, receipt.accepted[p]);
    }
    forall p | p in receipt.removed || p in receipt.pruned ensures GoneDurably(durable, p) {
      var j :| GoneAt(tree, durable, p, j);
    }
  }

  lemma NextComponent(p: Path, i: nat)
    requires i < |p| - 1
    ensures Parent(p[..i + 1]) == p[..i] && p[..i + 1] <= Parent(p) && p[..i + 1] != []
  {
    assert p[..i + 1][..i] == p[..i];
  }

  lemma FirmPrefix(p: Path, i: nat)
    requires i < |p|
    ensures forall j :: 1 <= j <= i ==> p[..j] != p[..i + 1]
  {
    forall j | 1 <= j <= i ensures p[..j] != p[..i + 1] {
      assert |p[..j]| == j && |p[..i + 1]| == i + 1;
    }
  }

  lemma FirmBelow(p: Path)
    requires p != []
    ensures forall j :: 1 <= j <= |p| - 1 ==> p[..j] != p
  {
    forall j | 1 <= j <= |p| - 1 ensures p[..j] != p {
      assert |p[..j]| == j;
    }
  }

  lemma FirmAbove(t: Tree, t': Tree, d: Tree, p: Path)
    requires p != [] && FirmTo(t, d, p, |p| - 1) && forall q :: q != p ==> SameAt(t, t', q)
    ensures FirmTo(t', d, p, |p| - 1)
  {
    FirmBelow(p);
    forall j | 1 <= j <= |p| - 1 ensures SameAt(t', d, p[..j]) {
      assert SameAt(t, d, p[..j]) && SameAt(t, t', p[..j]);
    }
  }

  lemma LastIsFirm(t: Tree, d: Tree, p: Path)
    requires p != [] && FirmTo(t, d, p, |p| - 1)
    requires forall q :: q != [] && Parent(q) == Parent(p) ==> SameAt(t, d, q)
    ensures FirmTo(t, d, p, |p|)
  {
    assert p[..|p|] == p;
    assert SameAt(t, d, p);
  }

  lemma MadeSteady(t: Tree, d: Tree, u: Tree, d': Tree, next: Path)
    requires Steady(t, d, u, d') && next !in t && next !in u
    ensures Steady(t, d, u[next := Directory], d')
  {
    var u' := u[next := Directory];
    forall q | SameAt(t, u', q) && SameAt(t, d, q) ensures SameAt(u', d', q) {
      assert SameAt(t, u, q);
    }
  }

  lemma NewFileSteady(t: Tree, d: Tree, made: Tree, d': Tree, item: Artifact)
    requires WellFormed(t) && item.path != [] && item.sha256 == Sha256(item.bytes)
    requires Writes(t, item) && made == MakeDirs(t, Parent(item.path)) && Steady(t, d, made, d')
    ensures Steady(t, d, made[item.path := File(item.bytes)], d')
  {
    hide WellFormed, ReceiverHash;
    var t' := made[item.path := File(item.bytes)];
    ShownIsThere(t, item.path);
    assert !SameAt(t, t', item.path);
    forall q | SameAt(t, t', q) && SameAt(t, d, q) ensures SameAt(t', d', q) {
      assert SameAt(t, made, q);
    }
  }

  lemma SteadyNow(t: Tree, d: Tree)
    ensures Steady(t, d, t, d)
  {
  }

  lemma PruneOneMore(t: Tree, dirs: seq<Path>, i: nat, u: Tree)
    requires i < |dirs| && PruneAll(t, dirs[..i]) == (u, true)
    ensures PruneAll(t, dirs[..i + 1]) == PruneEmpty(u, dirs[i])
    ensures !PruneEmpty(u, dirs[i]).1 ==> PruneAll(t, dirs) == PruneEmpty(u, dirs[i])
    decreases i
  {
    hide PruneEmpty;
    if i > 0 {
      assert dirs[..i][1..] == dirs[1..][..i - 1];
      assert dirs[..i + 1][1..] == dirs[1..][..i];
      PruneOneMore(PruneEmpty(t, dirs[0]).0, dirs[1..], i - 1, u);
    } else {
      assert dirs[..1] == [dirs[0]] && dirs[..1][1..] == [];
    }
  }

  /** Pruning one more directory keeps unchanged entries durable. */
  lemma PrunedSoFar(b: Batch, t: Tree, root: Path, n: nat, mid: Tree)
    requires n <= |RetireOrder(b, root)| && PruneAll(t, RetireOrder(b, root)[..n]).0 == mid
    ensures exists k :: PartlyPruned(b, t, root, k, mid)
  {
    hide RetireOrder, PruneAll;
    assert PartlyPruned(b, t, root, n, mid);
  }

  lemma SteadyPruned(t0: Tree, d0: Tree, dirs: seq<Path>, i: nat, t: Tree, d: Tree, t': Tree, d': Tree)
    requires i < |dirs| && AllClean(dirs) && PruneAll(t0, dirs[..i]).0 == t
    requires t' == t || t' == PruneEmpty(t, dirs[i]).0
    requires Steady(t0, d0, t, d) && Steady(t, d, t', d')
    ensures Steady(t0, d0, t', d')
    ensures forall q :: q in t' ==> q in t
  {
    forall q | SameAt(t0, t', q) && SameAt(t0, d0, q) ensures SameAt(t', d', q) {
      PruneAllShrinks(t0, dirs[..i], q);
      assert SameAt(t0, t, q);
      assert SameAt(t, t', q);
    }
  }
}
