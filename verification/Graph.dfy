/** The resolved dependency graph of a workspace: parsing that fails closed, and breadth-first shortest
    paths from the workspace roots. */
module Graph {
  import opened Effects

  datatype Package = Package(id: string, name: string, version: string, source: Option<string>)

  datatype Edge = Edge(pkg: string, kinds: seq<string>)

  datatype Node = Node(id: string, features: seq<string>, deps: seq<Edge>)

  datatype Document = Document(packages: seq<Package>, members: seq<string>, nodes: Option<seq<Node>>)

  datatype Metadata = Metadata(packages: map<string, Package>, nodes: map<string, Node>, roots: seq<string>)

  // ---------- parsing ----------

  predicate DistinctIds(ids: seq<string>) { forall i, j | 0 <= i < j < |ids| :: ids[i] != ids[j] }

  function PackageIds(ps: seq<Package>): (ids: seq<string>)
    ensures |ids| == |ps|
  {
    seq(|ps|, i requires 0 <= i < |ps| => ps[i].id)
  }

  function NodeIds(ns: seq<Node>): (ids: seq<string>)
    ensures |ids| == |ns|
  {
    seq(|ns|, i requires 0 <= i < |ns| => ns[i].id)
  }

  /** A document without duplicates, with workspace roots, and without a dangling reference. */
  ghost predicate DocumentOk(d: Document) {
    && d.nodes.Some? && d.members != []
    && DistinctIds(PackageIds(d.packages)) && DistinctIds(NodeIds(d.nodes.value))
    && (forall n :: n in d.nodes.value ==>
          n.id in PackageIds(d.packages)
          && forall e :: e in n.deps ==> e.pkg in PackageIds(d.packages) && e.pkg in NodeIds(d.nodes.value))
    && (forall id :: id in d.members ==> id in NodeIds(d.nodes.value))
  }

  /** Every reference resolves. */
  predicate Closed(m: Metadata) {
    && m.roots != [] && (forall id | id in m.roots :: id in m.nodes)
    && (forall id | id in m.nodes :: id in m.packages && m.nodes[id].id == id
          && forall e | e in m.nodes[id].deps :: e.pkg in m.packages && e.pkg in m.nodes)
  }

  /** Later entries replace earlier ones of the same id, as a collected map does. */
  function IndexPackages(ps: seq<Package>): map<string, Package> {
    if ps == [] then map[] else IndexPackages(ps[..|ps| - 1])[ps[|ps| - 1].id := ps[|ps| - 1]]
  }

  function IndexNodes(ns: seq<Node>): map<string, Node> {
    if ns == [] then map[] else IndexNodes(ns[..|ns| - 1])[ns[|ns| - 1].id := ns[|ns| - 1]]
  }

  function Ids(ids: seq<string>): set<string> { set id | id in ids }

  lemma {:induction false} DistinctCount(ids: seq<string>)
    ensures |Ids(ids)| <= |ids| && (|Ids(ids)| == |ids| <==> DistinctIds(ids))
  {
    if ids == [] {
      assert Ids(ids) == {};
    } else {
      var rest, last := ids[..|ids| - 1], ids[|ids| - 1];
      DistinctCount(rest);
      assert Ids(ids) == Ids(rest) + {last};
      if last in rest {
        var i :| 0 <= i < |rest| && rest[i] == last;
        assert ids[i] == ids[|ids| - 1];
      }
    }
  }

  lemma {:induction false} PackageKeys(ps: seq<Package>)
    ensures IndexPackages(ps).Keys == Ids(PackageIds(ps))
  {
    if ps != [] {
      PackageKeys(ps[..|ps| - 1]);
      assert PackageIds(ps) == PackageIds(ps[..|ps| - 1]) + [ps[|ps| - 1].id];
    }
  }

  lemma {:induction false} NodeKeys(ns: seq<Node>)
    ensures IndexNodes(ns).Keys == Ids(NodeIds(ns))
    ensures forall id :: id in IndexNodes(ns) ==> IndexNodes(ns)[id] in ns && IndexNodes(ns)[id].id == id
  {
    if ns != [] {
      NodeKeys(ns[..|ns| - 1]);
      assert NodeIds(ns) == NodeIds(ns[..|ns| - 1]) + [ns[|ns| - 1].id];
    }
  }

  lemma NodeOfId(ns: seq<Node>, n: Node)
    requires DistinctIds(NodeIds(ns)) && n in ns
    ensures n.id in IndexNodes(ns) && IndexNodes(ns)[n.id] == n
  {
    NodeKeys(ns);
    var i :| 0 <= i < |ns| && ns[i] == n;
    assert NodeIds(ns)[i] == n.id;
    var found := IndexNodes(ns)[n.id];
    var j :| 0 <= j < |ns| && ns[j] == found;
    assert NodeIds(ns)[j] == found.id;
  }

  /** Accept exactly the documents without duplicates or dangling references. */
  method Parse(d: Document) returns (r: Option<Metadata>)
    ensures r.Some? <==> DocumentOk(d)
    ensures r.Some? ==> Closed(r.value) && r.value.roots == d.members
                        && (forall n :: n in d.nodes.value ==> n.id in r.value.nodes && r.value.nodes[n.id] == n)
                        && (forall id :: id in r.value.nodes ==> r.value.nodes[id] in d.nodes.value)
  {
    if d.nodes.None? { return None; }
    hide IndexPackages, IndexNodes, DistinctIds, PackageIds, NodeIds, DocumentOk, Closed, AllResolve;
    var packages, nodes := IndexPackages(d.packages), IndexNodes(d.nodes.value);
    DistinctOk(d);
    DistinctCount(PackageIds(d.packages));
    DistinctCount(NodeIds(d.nodes.value));
    PackageKeys(d.packages);
    NodeKeys(d.nodes.value);
    if |packages.Keys| != |d.packages| || |nodes.Keys| != |d.nodes.value| || d.members == [] { return None; }
    var m := Metadata(packages, nodes, d.members);
    ResolvedIsOk(d, m);
    if !AllResolve(m) { return None; }
    r := Some(m);
  }

  /** Every node, edge and workspace root is found. */
  predicate AllResolve(m: Metadata) {
    && (forall id | id in m.nodes ::
          m.nodes[id].id in m.packages && forall e | e in m.nodes[id].deps :: e.pkg in m.packages && e.pkg in m.nodes)
    && (forall id | id in m.roots :: id in m.nodes)
  }

  lemma DistinctOk(d: Document)
    requires d.nodes.Some?
    ensures DocumentOk(d) ==> d.members != [] && DistinctIds(PackageIds(d.packages)) && DistinctIds(NodeIds(d.nodes.value))
  {
    hide DistinctIds, PackageIds, NodeIds;
  }

  lemma ResolvedIsOk(d: Document, m: Metadata)
    requires d.nodes.Some? && d.members != []
    requires DistinctIds(PackageIds(d.packages)) && DistinctIds(NodeIds(d.nodes.value))
    requires m == Metadata(IndexPackages(d.packages), IndexNodes(d.nodes.value), d.members)
    ensures AllResolve(m) <==> DocumentOk(d)
    ensures AllResolve(m) ==> Closed(m)
    ensures forall n :: n in d.nodes.value ==> n.id in m.nodes && m.nodes[n.id] == n
    ensures forall id :: id in m.nodes ==> m.nodes[id] in d.nodes.value
  {
    hide IndexPackages, IndexNodes, DistinctIds, PackageIds, NodeIds;
    PackageKeys(d.packages);
    NodeKeys(d.nodes.value);
    KeysAre(m.packages.Keys, PackageIds(d.packages));
    KeysAre(m.nodes.Keys, NodeIds(d.nodes.value));
    forall n | n in d.nodes.value ensures n.id in m.nodes && m.nodes[n.id] == n { NodeOfId(d.nodes.value, n); }
  }

  lemma KeysAre(keys: set<string>, ids: seq<string>)
    requires keys == Ids(ids)
    ensures forall id :: id in keys <==> id in ids
  {
  }

  // ---------- paths ----------

  predicate IsEdge(m: Metadata, a: string, b: string) {
    a in m.nodes && exists e | e in m.nodes[a].deps :: e.pkg == b
  }

  /** A chain of edges from a workspace root to `id`. */
  predicate IsChain(m: Metadata, c: seq<string>, id: string) {
    && c != [] && c[0] in m.roots && c[|c| - 1] == id
    && forall i | 0 < i < |c| :: IsEdge(m, c[i - 1], c[i])
  }

  ghost predicate Reachable(m: Metadata, id: string) { exists c :: IsChain(m, c, id) }

  /** What the queue loop keeps: chains, a queue sorted by distance whose members span at most two
      distances, and settled nodes whose children are at most one step farther. */
  ghost predicate Frontier(m: Metadata, paths: map<string, seq<string>>, queue: seq<string>, settled: set<string>) {
    && paths.Keys == settled + (set id | id in queue) && paths.Keys <= m.nodes.Keys
    && (forall id :: id in m.roots ==> id in paths && |paths[id]| == 1)
    && (forall id :: id in paths ==> IsChain(m, paths[id], id))
    && (forall i, j :: 0 <= i < j < |queue| ==> |paths[queue[i]]| <= |paths[queue[j]]|)
    && (queue != [] ==> forall id :: id in paths ==> |paths[id]| <= |paths[queue[0]]| + 1)
    && (forall a, b :: a in settled && IsEdge(m, a, b) ==> b in paths && |paths[b]| <= |paths[a]| + 1)
  }

  /** The same while the children of `id`, just taken from the queue, are being visited. */
  ghost predicate Visiting(m: Metadata, paths: map<string, seq<string>>, queue: seq<string>, settled: set<string>, id: string) {
    && id in paths && paths.Keys == settled + {id} + (set x | x in queue) && paths.Keys <= m.nodes.Keys
    && (forall r :: r in m.roots ==> r in paths && |paths[r]| == 1)
    && (forall x :: x in paths ==> IsChain(m, paths[x], x) && |paths[x]| <= |paths[id]| + 1)
    && (forall i, j :: 0 <= i < j < |queue| ==> |paths[queue[i]]| <= |paths[queue[j]]|)
    && (forall x :: x in queue ==> |paths[id]| <= |paths[x]|)
    && (forall a, b :: a in settled && IsEdge(m, a, b) ==> b in paths && |paths[b]| <= |paths[a]| + 1)
  }

  lemma Extend(m: Metadata, c: seq<string>, id: string, child: string)
    requires IsChain(m, c, id) && IsEdge(m, id, child)
    ensures IsChain(m, c + [child], child)
  {
    var d := c + [child];
    forall i | 0 < i < |d| ensures IsEdge(m, d[i - 1], d[i]) {
    }
  }

  lemma Start(m: Metadata, paths: map<string, seq<string>>)
    requires Closed(m) && paths == map id | id in m.roots :: [id]
    ensures Frontier(m, paths, m.roots, {})
  {
  }

  lemma Pop(m: Metadata, paths: map<string, seq<string>>, queue: seq<string>, settled: set<string>)
    requires Frontier(m, paths, queue, settled) && queue != []
    ensures Visiting(m, paths, queue[1..], settled, queue[0])
  {
    hide IsChain, IsEdge, Closed;
    PopKeys(queue);
    assert queue[0] in (set id | id in queue);
    forall i | 0 <= i < |queue| ensures queue[i] in paths {
      assert queue[i] in (set id | id in queue);
    }
    PopOrder(paths, queue);
  }

  lemma PopKeys(queue: seq<string>)
    requires queue != []
    ensures (set x | x in queue) == {queue[0]} + (set x | x in queue[1..])
  {
    assert queue == [queue[0]] + queue[1..];
  }

  /** The rest of a queue in order of length is in order, and not before its head. */
  lemma PopOrder(paths: map<string, seq<string>>, queue: seq<string>)
    requires queue != [] && forall i :: 0 <= i < |queue| ==> queue[i] in paths
    requires forall i, j :: 0 <= i < j < |queue| ==> |paths[queue[i]]| <= |paths[queue[j]]|
    ensures forall x :: x in queue[1..] ==> x in paths && |paths[queue[0]]| <= |paths[x]|
    ensures forall i, j :: 0 <= i < j < |queue[1..]| ==> |paths[queue[1..][i]]| <= |paths[queue[1..][j]]|
  {
    forall x | x in queue[1..] ensures x in paths && |paths[queue[0]]| <= |paths[x]| {
      var i :| 0 <= i < |queue[1..]| && queue[1..][i] == x;
      assert queue[i + 1] == x;
    }
    forall i, j | 0 <= i < j < |queue[1..]| ensures |paths[queue[1..][i]]| <= |paths[queue[1..][j]]| {
      assert queue[i + 1] == queue[1..][i] && queue[j + 1] == queue[1..][j];
    }
  }

  lemma Visit(m: Metadata, paths: map<string, seq<string>>, queue: seq<string>, settled: set<string>, id: string, child: string)
    requires Visiting(m, paths, queue, settled, id) && child !in paths && IsEdge(m, id, child) && child in m.nodes
    ensures Visiting(m, paths[child := paths[id] + [child]], queue + [child], settled, id)
  {
    hide IsChain, IsEdge;
    var after, longer := paths[child := paths[id] + [child]], queue + [child];
    VisitChains(m, paths, queue, settled, id, child);
    VisitOrder(m, paths, queue, settled, id, child);
    VisitEdges(m, paths, queue, settled, id, child);
  }

  lemma VisitChains(m: Metadata, paths: map<string, seq<string>>, queue: seq<string>, settled: set<string>, id: string, child: string)
    requires Visiting(m, paths, queue, settled, id) && child !in paths && IsEdge(m, id, child)
    ensures var after := paths[child := paths[id] + [child]];
            && (forall x :: x in after ==> IsChain(m, after[x], x) && |after[x]| <= |after[id]| + 1)
            && (forall r :: r in m.roots ==> r in after && |after[r]| == 1)
  {
    Extend(m, paths[id], id, child);
    hide IsChain, IsEdge;
  }

  lemma VisitOrder(m: Metadata, paths: map<string, seq<string>>, queue: seq<string>, settled: set<string>, id: string, child: string)
    requires Visiting(m, paths, queue, settled, id) && child !in paths
    ensures var after, longer := paths[child := paths[id] + [child]], queue + [child];
            && after.Keys == settled + {id} + (set x | x in longer)
            && (forall i, j :: 0 <= i < j < |longer| ==> |after[longer[i]]| <= |after[longer[j]]|)
            && (forall x :: x in longer ==> |after[id]| <= |after[x]|)
  {
    hide IsChain, IsEdge;
    var longer := queue + [child];
    assert (set x | x in longer) == (set x | x in queue) + {child};
    forall i | 0 <= i < |queue| ensures queue[i] in paths && |paths[queue[i]]| <= |paths[id]| + 1 {
      assert queue[i] in (set x | x in queue);
    }
    PushOrder(paths, queue, child, paths[id] + [child]);
  }

  lemma VisitEdges(m: Metadata, paths: map<string, seq<string>>, queue: seq<string>, settled: set<string>, id: string, child: string)
    requires Visiting(m, paths, queue, settled, id) && child !in paths
    ensures var after := paths[child := paths[id] + [child]];
            forall a, b :: a in settled && IsEdge(m, a, b) ==> b in after && |after[b]| <= |after[a]| + 1
  {
    hide IsChain, IsEdge;
  }

  /** The child's path is the longest of the queue. */
  lemma PushOrder(paths: map<string, seq<string>>, queue: seq<string>, child: string, path: seq<string>)
    requires child !in paths && forall i :: 0 <= i < |queue| ==> queue[i] in paths && |paths[queue[i]]| <= |path|
    requires forall i, j :: 0 <= i < j < |queue| ==> |paths[queue[i]]| <= |paths[queue[j]]|
    ensures var after, longer := paths[child := path], queue + [child];
            forall i, j :: 0 <= i < j < |longer| ==> |after[longer[i]]| <= |after[longer[j]]|
  {
  }

  lemma Settle(m: Metadata, paths: map<string, seq<string>>, queue: seq<string>, settled: set<string>, id: string)
    requires Visiting(m, paths, queue, settled, id) && forall b :: IsEdge(m, id, b) ==> b in paths
    ensures Frontier(m, paths, queue, settled + {id})
  {
    hide IsChain, IsEdge;
    if queue != [] { assert queue[0] in queue; }
  }

  lemma {:induction false} NoShorter(m: Metadata, paths: map<string, seq<string>>, settled: set<string>, c: seq<string>, id: string)
    requires Frontier(m, paths, [], settled) && IsChain(m, c, id)
    ensures id in paths && |paths[id]| <= |c|
  {
    if |c| > 1 {
      var before := c[..|c| - 1];
      assert IsChain(m, before, before[|before| - 1]);
      NoShorter(m, paths, settled, before, before[|before| - 1]);
      assert IsEdge(m, c[|c| - 2], c[|c| - 1]);
    }
  }

  lemma ChildIsEdge(m: Metadata, id: string, k: nat)
    requires id in m.nodes && k < |m.nodes[id].deps|
    ensures IsEdge(m, id, m.nodes[id].deps[k].pkg)
  {
  }

  lemma Resolves(m: Metadata, id: string, k: nat)
    requires Closed(m) && id in m.nodes && k < |m.nodes[id].deps|
    ensures m.nodes[id].deps[k].pkg in m.nodes
  {
  }

  lemma EdgesVisited(m: Metadata, id: string, paths: map<string, seq<string>>)
    requires id in m.nodes && forall k :: 0 <= k < |m.nodes[id].deps| ==> m.nodes[id].deps[k].pkg in paths
    ensures forall b :: IsEdge(m, id, b) ==> b in paths
  {
  }

  /** Exactly the reachable nodes, each with a chain from a root, and no chain is shorter. */
  method Paths(m: Metadata) returns (paths: map<string, seq<string>>)
    requires Closed(m)
    ensures forall id :: id in paths <==> Reachable(m, id)
    ensures forall id :: id in paths ==> IsChain(m, paths[id], id)
    ensures forall id, c :: id in paths && IsChain(m, c, id) ==> |paths[id]| <= |c|
  {
    paths := map id | id in m.roots :: [id];
    var queue := m.roots;
    ghost var settled: set<string> := {};
    Start(m, paths);
    hide IsChain, IsEdge, Closed, Visiting;
    while queue != []
      invariant Frontier(m, paths, queue, settled)
      decreases m.nodes.Keys - paths.Keys, |queue|
    {
      var id := queue[0];
      Pop(m, paths, queue, settled);
      queue := queue[1..];
      paths, queue := VisitChildren(m, paths, queue, id, settled);
      Settle(m, paths, queue, settled, id);
      settled := settled + {id};
    }
    forall id, c | IsChain(m, c, id) ensures id in paths && |paths[id]| <= |c| { NoShorter(m, paths, settled, c, id); }
  }

  /** Add the children not seen before, in edge order. */
  method VisitChildren(m: Metadata, paths0: map<string, seq<string>>, queue0: seq<string>, id: string, ghost settled: set<string>)
    returns (paths: map<string, seq<string>>, queue: seq<string>)
    requires Closed(m) && Visiting(m, paths0, queue0, settled, id) && id in m.nodes
    ensures Visiting(m, paths, queue, settled, id) && paths0.Keys <= paths.Keys <= m.nodes.Keys
    ensures paths.Keys == paths0.Keys ==> queue == queue0
    ensures forall b :: IsEdge(m, id, b) ==> b in paths
  {
    hide IsChain, IsEdge, Closed, Visiting;
    paths, queue := paths0, queue0;
    for k := 0 to |m.nodes[id].deps|
      invariant Visiting(m, paths, queue, settled, id) && paths0.Keys <= paths.Keys
      invariant paths.Keys == paths0.Keys ==> queue == queue0
      invariant forall j :: 0 <= j < k ==> m.nodes[id].deps[j].pkg in paths
    {
      var child := m.nodes[id].deps[k].pkg;
      if child !in paths {
        VisitingKeys(m, paths, queue, settled, id);
        ChildIsEdge(m, id, k);
        Resolves(m, id, k);
        Visit(m, paths, queue, settled, id, child);
        paths, queue := paths[child := paths[id] + [child]], queue + [child];
      }
    }
    VisitingKeys(m, paths, queue, settled, id);
    EdgesVisited(m, id, paths);
  }

  lemma VisitingKeys(m: Metadata, paths: map<string, seq<string>>, queue: seq<string>, settled: set<string>, id: string)
    requires Visiting(m, paths, queue, settled, id)
    ensures id in paths && paths.Keys <= m.nodes.Keys
  {
    hide IsChain, IsEdge;
  }
}
