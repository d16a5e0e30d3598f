/** Paths and indices together: the index-based subtree is the path-based one, and an index
    turns back into its path. */
module PathIndex {
  import opened Values
  import opened Sorting
  import opened PathTree
  import Euler = EulerTour
  import Rmq = SparseTable
  import Steiner
  import Subtree = OpTree

  function Parent(t: Tree, v: nat): nat
    requires Valid(t) && v < t.counter
  {
    assert NodeOk(t, v);
    if v == 0 then 0 else t.nodes[v].parent
  }

  /** The shape of a path tree, without the path elements. */
  function Shape(t: Tree): (s: Euler.Tree)
    requires Valid(t)
    ensures |s.par| == |s.kids| == t.counter
    ensures forall v: nat :: v < t.counter ==> s.kids[v] == t.nodes[v].order
    ensures forall v: nat :: 0 < v < t.counter ==> s.par[v] == t.nodes[v].parent
  {
    Euler.Tree(
      seq(t.counter, v requires 0 <= v < t.counter => Parent(t, v)),
      seq(t.counter, v requires 0 <= v < t.counter => t.nodes[v].order))
  }

  lemma ShapeOk(t: Tree)
    requires Valid(t)
    ensures Euler.IsTree(Shape(t))
  {
    var s := Shape(t);
    forall v: nat | 0 < v < |s.par| ensures s.par[v] < v {
      assert NodeOk(t, v);
    }
    forall u: nat | u < |s.kids| ensures Euler.ChildrenOf(s, u) {
      assert NodeOk(t, u);
    }
  }

  /** Ancestors are prefixes. */
  lemma {:induction false} AncIsPrefix(t: Tree, u: nat, v: nat)
    requires Valid(t) && u in t.nodes && v in t.nodes
    ensures Euler.IsTree(Shape(t))
    ensures Euler.Anc(Shape(t), u, v) <==> PathOf(t, u) <= PathOf(t, v)
    decreases v
  {
    ShapeOk(t);
    assert NodeOk(t, v);
    if u == v {
    } else if v == 0 {
      PathEmpty(t, u);
    } else {
      var p := t.nodes[v].parent;
      AncIsPrefix(t, u, p);
      PrefixStep(PathOf(t, u), PathOf(t, p), t.nodes[v].element);
      if PathOf(t, u) == PathOf(t, v) {
        PathInjective(t, u, v);
      }
    }
  }

  lemma PathEmpty(t: Tree, u: nat)
    requires Valid(t) && u in t.nodes
    ensures PathOf(t, u) == [] <==> u == 0
  {
    assert NodeOk(t, u);
  }

  lemma PrefixStep(a: Path, b: Path, k: Key)
    ensures a <= b + [k] <==> a <= b || a == b + [k]
  {
    if a <= b + [k] && |a| == |b| + 1 {
      assert a == b + [k];
    }
  }

  // ----- the subtree, by paths

  function PathsOf(t: Tree, vs: seq<nat>): (ps: seq<Path>)
    requires Valid(t) && forall v :: v in vs ==> v in t.nodes
    ensures |ps| == |vs| && forall i :: 0 <= i < |vs| ==> ps[i] == PathOf(t, vs[i])
  {
    seq(|vs|, i requires 0 <= i < |vs| => assert vs[i] in vs; PathOf(t, vs[i]))
  }

  /** Every index used is a node. */
  ghost predicate Indexed(t: Tree, adj: Steiner.Adj) {
    forall v :: v in adj ==> v in t.nodes && forall c :: c in adj[v] ==> c in t.nodes
  }

  /** v is the node of the subtree that has this path. */
  ghost predicate At(t: Tree, adj: Steiner.Adj, p: Path, v: nat)
    requires Valid(t) && Indexed(t, adj)
  {
    v in adj && PathOf(t, v) == p
  }

  ghost predicate HasNode(t: Tree, adj: Steiner.Adj, p: Path)
    requires Valid(t) && Indexed(t, adj)
  {
    exists v :: At(t, adj, p, v)
  }

  ghost function NodeAt(t: Tree, adj: Steiner.Adj, p: Path): nat
    requires Valid(t) && Indexed(t, adj) && HasNode(t, adj, p)
    ensures At(t, adj, p, NodeAt(t, adj, p))
  {
    var v :| At(t, adj, p, v);
    v
  }

  lemma NodeAtPath(t: Tree, adj: Steiner.Adj, v: nat)
    requires Valid(t) && Indexed(t, adj) && v in adj
    ensures At(t, adj, PathOf(t, v), v) && NodeAt(t, adj, PathOf(t, v)) == v
  {
    assert At(t, adj, PathOf(t, v), v);
    PathInjective(t, v, NodeAt(t, adj, PathOf(t, v)));
  }

  ghost function Keys(t: Tree, adj: Steiner.Adj): (ps: set<Path>)
    requires Valid(t) && Indexed(t, adj)
    ensures forall p :: p in ps ==> HasNode(t, adj, p)
    ensures forall v :: v in adj ==> PathOf(t, v) in ps
  {
    assert forall v :: v in adj ==> At(t, adj, PathOf(t, v), v);
    set v | v in adj :: PathOf(t, v)
  }

  ghost function PathAdj(t: Tree, adj: Steiner.Adj): (r: Subtree.Adj)
    requires Valid(t) && Indexed(t, adj)
    ensures forall v :: v in adj ==> PathOf(t, v) in r && r[PathOf(t, v)] == PathsOf(t, adj[v])
    ensures forall p :: p in r ==> HasNode(t, adj, p)
  {
    var r := map p | p in Keys(t, adj) :: PathsOf(t, adj[NodeAt(t, adj, p)]);
    assert forall v :: v in adj ==> PathOf(t, v) in r && r[PathOf(t, v)] == PathsOf(t, adj[v]) by {
      forall v | v in adj ensures r[PathOf(t, v)] == PathsOf(t, adj[v]) {
        NodeAtPath(t, adj, v);
      }
    }
    r
  }

  lemma SteinerIndexed(t: Tree, r: Euler.Tour, nodes: seq<nat>, adj: Steiner.Adj)
    requires Valid(t) && Steiner.IsSteiner(Shape(t), r, nodes, adj)
    ensures Indexed(t, adj)
  {
    var s := Shape(t);
    forall v | v in adj ensures v in t.nodes && forall c :: c in adj[v] ==> c in t.nodes {
      assert Steiner.Above(s, nodes, v);
      if v != 0 {
        var n :| n in nodes && Euler.Anc(s, v, n);
        Euler.AncBelow(s, v, n);
      }
      assert Steiner.ListedAt(s, r, adj, v);
    }
  }

  /** The list of v: its children among the keys, once each. */
  ghost predicate Lists(t: Tree, adj: Steiner.Adj, v: nat)
    requires v in adj
  {
    && (forall c :: c in adj[v] <==> c in adj && c in t.nodes && c > 0 && t.nodes[c].parent == v)
    && Distinct(adj[v])
  }

  /** adj is the tree of its keys: closed upwards, every key with the list of its children. */
  ghost predicate ListsAll(t: Tree, adj: Steiner.Adj) {
    && Indexed(t, adj) && 0 in adj
    && (forall v {:trigger Lists(t, adj, v)} :: v in adj ==> Lists(t, adj, v))
    && (forall v :: v in adj && v > 0 ==> t.nodes[v].parent in adj)
  }

  /** A child of a node of the subtree, seen by its path. */
  lemma ChildPath(t: Tree, adj: Steiner.Adj, v: nat, c: nat)
    requires Valid(t) && Indexed(t, adj) && v in adj && Lists(t, adj, v) && c in adj[v]
    ensures PathOf(t, c) in PathAdj(t, adj) && PathOf(t, c) != [] && Init(PathOf(t, c)) == PathOf(t, v)
  {
    assert NodeOk(t, c);
  }

  lemma DistinctPaths(t: Tree, vs: seq<nat>)
    requires Valid(t) && (forall v :: v in vs ==> v in t.nodes) && Distinct(vs)
    ensures Distinct(PathsOf(t, vs))
  {
    var ps := PathsOf(t, vs);
    forall i, j | 0 <= i < j < |ps| ensures ps[i] != ps[j] {
      assert vs[i] in vs && vs[j] in vs;
      if ps[i] == ps[j] {
        PathInjective(t, vs[i], vs[j]);
      }
    }
  }

  lemma ChildPaths(t: Tree, adj: Steiner.Adj, v: nat)
    requires Valid(t) && Indexed(t, adj) && v in adj && Lists(t, adj, v)
    ensures forall q :: q in PathsOf(t, adj[v]) ==> q in PathAdj(t, adj) && q != [] && Init(q) == PathOf(t, v)
    ensures Distinct(PathsOf(t, adj[v]))
  {
    DistinctPaths(t, adj[v]);
    var ps, m, p := PathsOf(t, adj[v]), PathAdj(t, adj), PathOf(t, v);
    forall q | q in ps ensures q in m && q != [] && Init(q) == p {
      var i :| 0 <= i < |ps| && ps[i] == q;
      ChildPath(t, adj, v, adj[v][i]);
    }
  }

  /** One node of the subtree, seen by its path. */
  lemma LinkedByPath(t: Tree, adj: Steiner.Adj, v: nat)
    requires Valid(t) && ListsAll(t, adj) && v in adj
    ensures PathOf(t, v) in PathAdj(t, adj) && Subtree.Linked(PathAdj(t, adj), PathOf(t, v))
  {
    assert Lists(t, adj, v);
    ChildPaths(t, adj, v);
    PathEmpty(t, v);
    if v > 0 {
      ParentListed(t, adj, v);
    }
  }

  lemma ParentListed(t: Tree, adj: Steiner.Adj, v: nat)
    requires Valid(t) && ListsAll(t, adj) && v in adj && v > 0
    ensures var m, p := PathAdj(t, adj), PathOf(t, v);
            p != [] && Init(p) in m && p in m[Init(p)]
  {
    assert NodeOk(t, v);
    var u := t.nodes[v].parent;
    assert Lists(t, adj, u);
    assert v in adj[u];
    var i :| 0 <= i < |adj[u]| && adj[u][i] == v;
    assert PathsOf(t, adj[u])[i] == PathOf(t, v);
    assert Init(PathOf(t, v)) == PathOf(t, u);
  }

  lemma TreeByPath(t: Tree, adj: Steiner.Adj)
    requires Valid(t) && ListsAll(t, adj)
    ensures Subtree.IsTree(PathAdj(t, adj))
  {
    var m := PathAdj(t, adj);
    forall p | p in m ensures Subtree.Linked(m, p) {
      assert HasNode(t, adj, p);
      var v :| At(t, adj, p, v);
      LinkedByPath(t, adj, v);
    }
    assert PathOf(t, 0) in m;
  }

  lemma SteinerLists(t: Tree, r: Euler.Tour, nodes: seq<nat>, adj: Steiner.Adj)
    requires Valid(t) && Steiner.IsSteiner(Shape(t), r, nodes, adj)
    ensures ListsAll(t, adj)
  {
    SteinerIndexed(t, r, nodes, adj);
    var s := Shape(t);
    forall v | v in adj ensures Lists(t, adj, v) {
      assert Steiner.ListedAt(s, r, adj, v);
    }
    forall v | v in adj && v > 0 ensures t.nodes[v].parent in adj {
      assert NodeOk(t, v);
      assert Steiner.Above(s, nodes, v);
      Steiner.ParentAbove(s, nodes, v);
    }
    assert Steiner.Above(s, nodes, 0);
  }

  lemma NodesByPath(t: Tree, r: Euler.Tour, nodes: seq<nat>, adj: Steiner.Adj)
    requires Valid(t) && Steiner.IsSteiner(Shape(t), r, nodes, adj) && Indexed(t, adj)
    ensures forall n :: n in nodes ==> n in t.nodes
    ensures forall p :: p in PathsOf(t, nodes) ==> p in PathAdj(t, adj)
  {
    var s, ps := Shape(t), PathsOf(t, nodes);
    forall i | 0 <= i < |ps| ensures ps[i] in PathAdj(t, adj) {
      assert nodes[i] in nodes && Euler.Anc(s, nodes[i], nodes[i]);
      assert Steiner.Above(s, nodes, nodes[i]);
    }
  }

  /** The index-based subtree, read by paths, connects the given paths with the root and
      holds nothing else: what resolving references and collapsing patches rely on. */
  lemma SteinerIsSubtree(t: Tree, r: Euler.Tour, nodes: seq<nat>, adj: Steiner.Adj)
    requires Valid(t) && Steiner.IsSteiner(Shape(t), r, nodes, adj)
    ensures Indexed(t, adj) && (forall n :: n in nodes ==> n in t.nodes)
    ensures Subtree.SubtreeOf(PathAdj(t, adj), PathsOf(t, nodes))
  {
    SteinerLists(t, r, nodes, adj);
    TreeByPath(t, adj);
    NodesByPath(t, r, nodes, adj);
    forall p | p in PathAdj(t, adj) ensures Subtree.OnPath(PathsOf(t, nodes), p) {
      assert HasNode(t, adj, p);
      var v :| At(t, adj, p, v);
      assert Steiner.Above(Shape(t), nodes, v);
      OnPathOf(t, nodes, v);
    }
  }

  lemma OnPathOf(t: Tree, nodes: seq<nat>, v: nat)
    requires Valid(t) && Euler.IsTree(Shape(t)) && Steiner.Nodes(Shape(t), nodes) && v in t.nodes
    requires Steiner.Above(Shape(t), nodes, v)
    ensures Subtree.OnPath(PathsOf(t, nodes), PathOf(t, v))
  {
    if v != 0 {
      var n :| n in nodes && Euler.Anc(Shape(t), v, n);
      AncIsPrefix(t, v, n);
      var i :| 0 <= i < |nodes| && nodes[i] == n;
      assert PathsOf(t, nodes)[i] in PathsOf(t, nodes);
    }
  }

  // ----- the index of a path tree

  /** A path tree with what `precompute` adds to it. */
  datatype Index = Index(tree: Tree, tour: Euler.Tour, log: seq<nat>, st: seq<seq<nat>>)

  ghost predicate Ready(ix: Index) {
    Valid(ix.tree) && Euler.TourOf(Shape(ix.tree), ix.tour) && Rmq.Table(ix.tour, ix.log, ix.st)
  }

  method MakeIndex(t: Tree) returns (ix: Index)
    requires Valid(t)
    ensures Ready(ix) && ix.tree == t
  {
    ShapeOk(t);
    var tour, log, st := Rmq.Precompute(Shape(t));
    ix := Index(t, tour, log, st);
  }

  /** An index-based subtree, read by paths. */
  method ToPaths(t: Tree, adj: Steiner.Adj) returns (r: Subtree.Adj)
    requires Valid(t) && Indexed(t, adj)
    ensures r == PathAdj(t, adj)
  {
    r := map[];
    var todo := adj.Keys;
    while todo != {}
      invariant todo <= adj.Keys
      invariant forall v :: v in adj && v !in todo ==> PathOf(t, v) in r && r[PathOf(t, v)] == PathsOf(t, adj[v])
      invariant forall p :: p in r ==> HasNode(t, adj, p)
      decreases todo
    {
      var v :| v in todo;
      assert At(t, adj, PathOf(t, v), v);
      OneNode(t, adj, v);
      r := r[PathOf(t, v) := PathsOf(t, adj[v])];
      todo := todo - {v};
    }
    SameAdj(t, adj, r);
  }

  lemma OneNode(t: Tree, adj: Steiner.Adj, v: nat)
    requires Valid(t) && Indexed(t, adj) && v in adj
    ensures forall u :: u in adj && PathOf(t, u) == PathOf(t, v) ==> u == v
  {
    forall u | u in adj && PathOf(t, u) == PathOf(t, v) ensures u == v {
      PathInjective(t, u, v);
    }
  }

  lemma SameAdj(t: Tree, adj: Steiner.Adj, r: Subtree.Adj)
    requires Valid(t) && Indexed(t, adj)
    requires forall v :: v in adj ==> PathOf(t, v) in r && r[PathOf(t, v)] == PathsOf(t, adj[v])
    requires forall p :: p in r ==> HasNode(t, adj, p)
    ensures r == PathAdj(t, adj)
  {
    var m := PathAdj(t, adj);
    forall p | p in r || p in m ensures p in r && p in m && r[p] == m[p] {
      assert HasNode(t, adj, p);
      var v :| At(t, adj, p, v);
      assert PathOf(t, v) == p;
    }
  }

  /** `build_steiner_tree` on a list of paths of the tree: look up their indices, connect
      them, and read the result by paths. */
  method SubtreeFor(ix: Index, ps: seq<Path>) returns (adj: Subtree.Adj)
    requires Ready(ix) && forall p :: p in ps ==> HasPath(ix.tree, p)
    ensures Subtree.SubtreeOf(adj, ps)
  {
    var t := ix.tree;
    var nodes := Indices(t, ps);
    var sub := Steiner.BuildSteinerTree(Shape(t), ix.tour, ix.log, ix.st, nodes);
    SteinerIsSubtree(t, ix.tour, nodes, sub);
    adj := ToPaths(t, sub);
  }

  method Indices(t: Tree, ps: seq<Path>) returns (nodes: seq<nat>)
    requires Valid(t) && forall p :: p in ps ==> HasPath(t, p)
    ensures (forall v :: v in nodes ==> v in t.nodes) && PathsOf(t, nodes) == ps
  {
    nodes := [];
    for i := 0 to |ps|
      invariant |nodes| == i && forall v :: v in nodes ==> v in t.nodes
      invariant forall j :: 0 <= j < i ==> nodes[j] in t.nodes && PathOf(t, nodes[j]) == ps[j]
    {
      assert ps[i] in ps;
      var v := PathListToIdx(t, ps[i]);
      nodes := nodes + [v.value];
    }
  }

  /** The whole path tree, read by paths. */
  method WholeTree(t: Tree) returns (adj: Subtree.Adj)
    requires Valid(t)
    ensures Subtree.IsTree(adj) && forall p :: p in adj <==> HasPath(t, p)
  {
    var all := map v | v in t.nodes :: t.nodes[v].order;
    assert forall v :: v in t.nodes ==> NodeOk(t, v);
    WholeLists(t, all);
    TreeByPath(t, all);
    adj := ToPaths(t, all);
    forall p ensures p in adj <==> HasPath(t, p) {
      if p in adj {
        assert HasNode(t, all, p);
        var v :| At(t, all, p, v);
      }
    }
  }

  lemma WholeLists(t: Tree, all: Steiner.Adj)
    requires Valid(t) && all.Keys == t.nodes.Keys && forall v :: v in all ==> all[v] == t.nodes[v].order
    ensures ListsAll(t, all)
  {
    forall v | v in all ensures Lists(t, all, v) && (v > 0 ==> t.nodes[v].parent in all) {
      assert NodeOk(t, v);
    }
  }

  // ----- from an index to its path

  /** A node has as many ancestors, itself included, as its path is long plus one. */
  lemma {:induction false} AncestorCount(t: Tree, r: Euler.Tour, adj: Steiner.Adj, v: nat)
    requires Valid(t) && v in t.nodes && Steiner.IsSteiner(Shape(t), r, [v], adj)
    ensures |adj| == |PathOf(t, v)| + 1
  {
    ShapeOk(t);
    var s := Shape(t);
    Euler.AncRoot(s, v);
    forall u: nat ensures u in adj.Keys <==> Euler.Anc(s, u, v) {
      assert u in adj <==> Steiner.Above(s, [v], u);
      assert v in [v];
    }
    ChainSize(t, v, adj.Keys);
  }

  lemma {:induction false} ChainSize(t: Tree, v: nat, above: set<nat>)
    requires Valid(t) && v in t.nodes && Euler.IsTree(Shape(t))
    requires forall u: nat :: u in above <==> Euler.Anc(Shape(t), u, v)
    ensures |above| == |PathOf(t, v)| + 1
    decreases v
  {
    var s := Shape(t);
    assert NodeOk(t, v);
    if v == 0 {
      assert above == {0};
    } else {
      var p := t.nodes[v].parent;
      forall u: nat ensures u in above - {v} <==> Euler.Anc(s, u, p) {
        if Euler.Anc(s, u, p) {
          Euler.AncBelow(s, u, p);
        }
      }
      ChainSize(t, p, above - {v});
    }
  }

  /** `idx_to_path_list`: down the one-node subtree, first child by first child. */
  method IdxToPathList(ix: Index, idx: nat) returns (path: Path)
    requires Ready(ix) && idx in ix.tree.nodes
    ensures path == PathOf(ix.tree, idx)
  {
    var t := ix.tree;
    var sub := Steiner.BuildSteinerTree(Shape(t), ix.tour, ix.log, ix.st, [idx]);
    AncestorCount(t, ix.tour, sub, idx);
    ghost var s := Shape(t);
    var current := 0;
    path := [];
    assert Steiner.Above(s, [idx], 0);
    Euler.AncRoot(s, idx);
    for i := 0 to |sub| - 1
      invariant current in t.nodes && current in sub && Euler.Anc(s, current, idx)
      invariant path == PathOf(t, current) && |path| == i
    {
      NextOnPath(t, ix.tour, sub, idx, current);
      current := sub[current][0];
      path := path + [t.nodes[current].element];
    }
    AncIsPrefix(t, current, idx);
    PathInjective(t, current, idx);
  }

  lemma NextOnPath(t: Tree, r: Euler.Tour, sub: Steiner.Adj, idx: nat, u: nat)
    requires Valid(t) && idx in t.nodes && Steiner.IsSteiner(Shape(t), r, [idx], sub)
    requires u in sub && u in t.nodes && Euler.Anc(Shape(t), u, idx) && |PathOf(t, u)| < |PathOf(t, idx)|
    ensures sub[u] != []
    ensures var c := sub[u][0];
            c in t.nodes && c in sub && Euler.Anc(Shape(t), c, idx)
            && PathOf(t, c) == PathOf(t, u) + [t.nodes[c].element]
  {
    var s := Shape(t);
    assert Steiner.ListedAt(s, r, sub, u);
    var d := Euler.AncChild(s, u, idx);
    assert idx in [idx];
    assert Steiner.Above(s, [idx], d);
    assert d in sub[u];
    var c := sub[u][0];
    assert c in sub[u];
    assert Steiner.Above(s, [idx], c);
    assert NodeOk(t, c);
  }
}
