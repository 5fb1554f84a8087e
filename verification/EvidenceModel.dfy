/** Data and validity rules of bounded evidence exchanges: artifacts, batches, receipts, the
    directory tree both sides hold, and the look-ups that decide what a path shows. */
module EvidenceModel {
  import opened Effects
  import opened Order

  const FILE_LIMIT: nat := 8 * 1024 * 1024
  const PAYLOAD_LIMIT: nat := 48 * 1024 * 1024
  const FILE_COUNT_LIMIT: nat := 10_000
  const INVENTORY_LIMIT: nat := 20_000
  const DEPTH_LIMIT: nat := 64
  const GIT: string := ".git"
  const WORKTREES: string := "worktrees"

  type Byte = x: int | 0 <= x < 256
  type Bytes = seq<Byte>

  /** SHA-256 is an injective function of the bytes; text that is not 64 lower-case hexadecimal
      digits is kept apart. */
  datatype Digest = Sha256(preimage: Bytes) | Malformed(text: string)

  datatype Nonce = Nonce(bits: Bytes) | BadNonce(text: string)

  datatype Artifact = Artifact(path: Path, sha256: Digest, expected: Option<Digest>, bytes: Bytes)

  datatype Identity = Identity(path: Path, sha256: Digest)

  datatype Batch = Batch(
    exchangeId: Option<Nonce>,
    files: seq<Artifact>,
    verify: seq<Identity>,
    delete: seq<Identity>,
    prune: seq<Path>,
    omitted: seq<Path>,
    deferred: seq<Path>)

  /** The digest of a batch is an injective function of the batch. */
  datatype BatchDigest = BatchDigest(batch: Batch)

  datatype Receipt = Receipt(
    batchSha256: BatchDigest,
    accepted: map<Path, Digest>,
    removed: map<Path, Digest>,
    pruned: seq<Path>,
    conflicts: seq<Path>)

  // ---------- names and scope ----------

  /** The containing directory; the root contains itself. */
  function Parent(p: Path): Path {
    if p == [] then [] else p[..|p| - 1]
  }

  function Leaf(p: Path): string
    requires p != []
  {
    p[|p| - 1]
  }

  predicate NormalName(c: string) {
    c != "" && c != "." && c != ".."
  }

  predicate InRoots(p: Path, roots: seq<Path>) {
    exists root | root in roots :: root <= p
  }

  predicate Marked(p: Path) {
    GIT in p || WORKTREES in p
  }

  predicate ScopedRelative(p: Path, allowed: seq<Path>) {
    p != [] && |p| <= DEPTH_LIMIT && (forall c | c in p :: NormalName(c)) && InRoots(p, allowed)
  }

  predicate Relative(p: Path, allowed: seq<Path>) {
    ScopedRelative(p, allowed) && !Marked(p)
  }

  predicate RootsOk(allowed: seq<Path>) {
    forall root | root in allowed :: Relative(root, [root])
  }

  // ---------- collections of paths ----------

  predicate NoDup<T(==)>(q: seq<T>) {
    forall i, j | 0 <= i < j < |q| :: q[i] != q[j]
  }

  predicate NoNesting(q: seq<Path>) {
    forall a, b | a in q && b in q :: !(a < b)
  }

  predicate PrefixFree(s: set<Path>) {
    forall a, b | a in s && b in s :: !(a < b)
  }

  function FilePaths(files: seq<Artifact>): (r: seq<Path>)
    ensures |r| == |files| && forall i | 0 <= i < |r| :: r[i] == files[i].path
  {
    seq(|files|, i requires 0 <= i < |files| => files[i].path)
  }

  function IdPaths(ids: seq<Identity>): (r: seq<Path>)
    ensures |r| == |ids| && forall i | 0 <= i < |r| :: r[i] == ids[i].path
  {
    seq(|ids|, i requires 0 <= i < |ids| => ids[i].path)
  }

  function BatchPaths(b: Batch): seq<Path> {
    IdPaths(b.verify) + FilePaths(b.files) + IdPaths(b.delete)
  }

  // ---------- encoded size ----------

  function NameLength(p: Path): nat {
    if p == [] then 0 else NameLength(Parent(p)) + |Leaf(p)| + (if |p| == 1 then 0 else 1)
  }

  function NameSize(p: Path): nat { NameLength(p) + 1024 }

  function FileSize(item: Artifact): nat { 4 * |item.bytes| + NameSize(item.path) }

  function NamesTotal(q: seq<Path>): nat {
    if q == [] then 0 else NamesTotal(q[..|q| - 1]) + NameSize(q[|q| - 1])
  }

  function FilesTotal(q: seq<Artifact>): nat {
    if q == [] then 0 else FilesTotal(q[..|q| - 1]) + FileSize(q[|q| - 1])
  }

  function IdsTotal(q: seq<Identity>): nat {
    if q == [] then 0 else IdsTotal(q[..|q| - 1]) + NameSize(q[|q| - 1].path)
  }

  function BatchSize(b: Batch): nat {
    NamesTotal(b.omitted) + NamesTotal(b.deferred) + NamesTotal(b.prune)
    + FilesTotal(b.files) + IdsTotal(b.verify) + IdsTotal(b.delete)
  }

  // ---------- structural validity of a batch ----------

  predicate NonceOk(id: Option<Nonce>) { id.Some? ==> id.value.Nonce? }

  predicate InventoriesOk(allowed: seq<Path>, b: Batch) {
    && (forall p | p in b.omitted :: ScopedRelative(p, allowed))
    && (forall p | p in b.deferred :: Relative(p, allowed))
    && (forall p | p in b.prune :: Relative(p, allowed))
  }

  predicate CountsOk(b: Batch) {
    && |b.files| + |b.delete| <= FILE_COUNT_LIMIT
    && |b.verify| <= INVENTORY_LIMIT
    && |b.prune| <= INVENTORY_LIMIT
    && |b.omitted| + |b.deferred| <= INVENTORY_LIMIT
    && BatchSize(b) <= PAYLOAD_LIMIT
  }

  predicate FileOk(allowed: seq<Path>, item: Artifact) {
    && Relative(item.path, allowed)
    && |item.bytes| <= FILE_LIMIT
    && item.sha256 == Sha256(item.bytes)
    && (item.expected.Some? ==> item.expected.value.Sha256?)
  }

  predicate IdOk(allowed: seq<Path>, item: Identity) {
    Relative(item.path, allowed) && item.sha256.Sha256?
  }

  predicate ItemsOk(allowed: seq<Path>, b: Batch) {
    && (forall item | item in b.files :: FileOk(allowed, item))
    && (forall item | item in b.verify :: IdOk(allowed, item))
    && (forall item | item in b.delete :: IdOk(allowed, item))
  }

  /** A directory is retired only with a removal below it and no transferred path at, above or
      below it. */
  predicate RetirementOk(b: Batch, root: Path) {
    && (exists item | item in b.delete :: root < item.path)
    && (forall item | item in b.files :: !(root <= item.path) && !(item.path <= root))
    && (forall item | item in b.verify :: !(root <= item.path) && !(item.path <= root))
  }

  predicate ShapeOk(b: Batch) {
    && NoDup(BatchPaths(b))
    && NoNesting(BatchPaths(b))
    && NoDup(b.prune)
    && NoNesting(b.prune)
    && (forall root | root in b.prune :: RetirementOk(b, root))
  }

  predicate ValidBatch(allowed: seq<Path>, b: Batch) {
    && NonceOk(b.exchangeId)
    && RootsOk(allowed)
    && InventoriesOk(allowed, b)
    && CountsOk(b)
    && ItemsOk(allowed, b)
    && ShapeOk(b)
  }

  // ---------- trees ----------

  datatype Node = File(bytes: Bytes) | Directory | Other(link: bool)

  /** A tree names every entry below its root; the root itself is always a directory. */
  type Tree = map<Path, Node>

  ghost predicate WellFormed(t: Tree) {
    forall p | p in t :: p != [] && (|p| > 1 ==> Parent(p) in t && t[Parent(p)].Directory?)
  }

  datatype Lookup = Found | Absent | Blocked

  /** Opening directory `d` from the root without following links and refusing checkouts. */
  function OpenDir(t: Tree, d: Path): Lookup
    decreases |d|
  {
    if d == [] then Found
    else match OpenDir(t, Parent(d)) {
      case Absent => Absent
      case Blocked => Blocked
      case Found =>
        if d !in t then Absent
        else if !t[d].Directory? || d + [GIT] in t then Blocked
        else Found
    }
  }

  datatype Receiver = Missing | Held(digest: Digest) | Foreign {
    predicate Matches(d: Digest) { this == Held(d) }

    predicate Expected(d: Option<Digest>) {
      match d case Some(sha) => Matches(sha) case None => Missing?
    }
  }

  /** What the receiver shows at `p`: nothing, a bounded regular file, or something foreign. */
  function ReceiverHash(t: Tree, p: Path): Receiver {
    match OpenDir(t, Parent(p))
    case Absent => Missing
    case Blocked => Foreign
    case Found =>
      if p !in t then Missing
      else if t[p].File? && |t[p].bytes| <= FILE_LIMIT then Held(Sha256(t[p].bytes))
      else Foreign
  }

  /** Retirement roots that lead into a checkout or through something that is not a directory,
      themselves or on the way to one of their removals. */
  predicate BlockedRoot(t: Tree, b: Batch, root: Path) {
    || OpenDir(t, root).Blocked?
    || exists item | item in b.delete :: root < item.path && OpenDir(t, Parent(item.path)).Blocked?
  }

  function BlockedRoots(t: Tree, b: Batch): set<Path> {
    set root | root in b.prune && BlockedRoot(t, b, root)
  }
}
