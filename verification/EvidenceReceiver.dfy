/** What applying a batch does, as a function of the receiver tree and the batch: one step per
    verification, upload, deletion and directory retirement, in the order the receiver takes them. */
module EvidenceReceiver {
  import opened Effects
  import opened Order
  import opened EvidenceModel

  datatype Op =
    | Check(id: Identity)
    | Store(item: Artifact)
    | Erase(id: Identity)
    | Retire(root: Path)

  function OpPath(op: Op): Path {
    match op
    case Check(id) => id.path
    case Store(item) => item.path
    case Erase(id) => id.path
    case Retire(root) => root
  }

  datatype Progress = Progress(tree: Tree, receipt: Receipt)

  function MakeDirs(t: Tree, d: Path): Tree
    decreases |d|
  {
    if d == [] then t
    else
      var u := MakeDirs(t, Parent(d));
      if d in u then u else u[d := Directory]
  }

  /** Whether an upload would change the tree. */
  predicate Writes(t: Tree, item: Artifact) {
    var r := ReceiverHash(t, item.path);
    !r.Matches(item.sha256) && r.Expected(item.expected)
  }

  function StoreTree(t: Tree, item: Artifact): Tree
  {
    if Writes(t, item) then MakeDirs(t, Parent(item.path))[item.path := File(item.bytes)] else t
  }

  function EraseTree(t: Tree, blocked: set<Path>, id: Identity): Tree
  {
    if !InBlocked(blocked, id.path) && ReceiverHash(t, id.path).Matches(id.sha256) then t - {id.path} else t
  }

  predicate InBlocked(blocked: set<Path>, p: Path) {
    exists root | root in blocked :: root <= p
  }

  predicate Removable(t: Tree, blocked: set<Path>, id: Identity)
  {
    && !InBlocked(blocked, id.path)
    && (ReceiverHash(t, id.path).Missing? || ReceiverHash(t, id.path).Matches(id.sha256))
  }

  predicate HasChild(t: Tree, d: Path) {
    exists p | p in t :: |p| == |d| + 1 && d < p
  }

  predicate Prunable(t: Tree, d: Path) {
    d in t && t[d].Directory? && !HasChild(t, d)
  }

  /** Retire one directory; the flag says it is gone. */
  function PruneEmpty(t: Tree, d: Path): (Tree, bool)
  {
    match OpenDir(t, Parent(d))
    case Absent => (t, true)
    case Blocked => (t, false)
    case Found =>
      if d !in t then (t, true)
      else if Prunable(t, d) then (t - {d}, true)
      else (t, false)
  }

  function PruneAll(t: Tree, dirs: seq<Path>): (Tree, bool)
  {
    if dirs == [] then (t, true)
    else
      var (u, gone) := PruneEmpty(t, dirs[0]);
      if gone then PruneAll(u, dirs[1..]) else (u, false)
  }

  function Descendants(b: Batch, root: Path): set<Identity> {
    set id | id in b.delete && root <= id.path
  }

  /** The directories between a retirement root and its removals, root included. */
  function Containers(b: Batch, root: Path): set<Path> {
    set id, n | id in b.delete && root <= id.path && |root| <= n < |id.path| :: id.path[..n]
  }

  function Reversed(q: seq<Path>): (r: seq<Path>)
    ensures |r| == |q| && forall i | 0 <= i < |q| :: r[i] == q[|q| - 1 - i]
  {
    seq(|q|, i requires 0 <= i < |q| => q[|q| - 1 - i])
  }

  /** Descendants precede parents. */
  function RetireOrder(b: Batch, root: Path): (r: seq<Path>)
    ensures forall d :: d in r <==> d in Containers(b, root)
  {
    var q := Sorted(Containers(b, root));
    var r := Reversed(q);
    assert forall d :: d in r <==> d in q by {
      forall d | d in q ensures d in r {
        var i :| 0 <= i < |q| && q[i] == d;
        assert r[|q| - 1 - i] == d;
      }
    }
    r
  }

  predicate AllRemoved(b: Batch, root: Path, removed: map<Path, Digest>) {
    forall id | id in b.delete && root <= id.path :: id.path in removed && removed[id.path] == id.sha256
  }

  function Accept(r: Receipt, p: Path, d: Digest): Receipt { r.(accepted := r.accepted[p := d]) }

  function Refuse(r: Receipt, p: Path): Receipt { r.(conflicts := r.conflicts + [p]) }

  function Step(b: Batch, blocked: set<Path>, s: Progress, op: Op): Progress
  {
    var Progress(t, r) := s;
    match op
    case Check(id) =>
      Progress(t, if ReceiverHash(t, id.path).Matches(id.sha256) then Accept(r, id.path, id.sha256) else Refuse(r, id.path))
    case Store(item) =>
      if ReceiverHash(t, item.path).Matches(item.sha256) || Writes(t, item)
      then Progress(StoreTree(t, item), Accept(r, item.path, item.sha256))
      else Progress(t, Refuse(r, item.path))
    case Erase(id) =>
      if Removable(t, blocked, id)
      then Progress(EraseTree(t, blocked, id), r.(removed := r.removed[id.path := id.sha256]))
      else Progress(t, Refuse(r, id.path))
    case Retire(root) =>
      var (u, gone) :=
        if root in blocked || !AllRemoved(b, root, r.removed) then (t, false)
        else RetireTree(t, b, root);
      if gone then Progress(u, r.(pruned := r.pruned + [root]))
      else
        var back := set id | id in Descendants(b, root) :: id.path;
        Progress(u, Refuse(r, root).(removed := r.removed - back))
  }

  function RetireTree(t: Tree, b: Batch, root: Path): (Tree, bool)
  {
    PruneAll(t, RetireOrder(b, root))
  }

  function Run(b: Batch, blocked: set<Path>, s: Progress, ops: seq<Op>): Progress
    decreases |ops|
  {
    if ops == [] then s else Step(b, blocked, Run(b, blocked, s, ops[..|ops| - 1]), ops[|ops| - 1])
  }

  function Ops(b: Batch): (ops: seq<Op>) {
    seq(|b.verify|, i requires 0 <= i < |b.verify| => Check(b.verify[i]))
    + seq(|b.files|, i requires 0 <= i < |b.files| => Store(b.files[i]))
    + seq(|b.delete|, i requires 0 <= i < |b.delete| => Erase(b.delete[i]))
    + seq(|PruneOrder(b)|, i requires 0 <= i < |PruneOrder(b)| => Retire(PruneOrder(b)[i]))
  }

  /** Retirement roots in ascending order. */
  function PruneOrder(b: Batch): (q: seq<Path>)
    ensures forall p :: p in q <==> p in b.prune
  {
    Sorted(set p | p in b.prune)
  }

  function EmptyReceipt(b: Batch): Receipt {
    Receipt(BatchDigest(b), map[], map[], [], [])
  }
}
