/** The path tree: every path of a patch gets an index, new nodes are written to a journal,
    and a reader rebuilds the tree from the journal alone. */
module PathTree {
  import opened Values
  import opened Sorting

  /** A node; `order` lists its children as they were added, as iterating over the
      children dictionary does. */
  datatype PathNode = PathNode(parent: int, element: Key, children: map<Key, nat>, order: seq<nat>)

  datatype Tree = Tree(nodes: map<nat, PathNode>, counter: nat)

  /** One journal entry. */
  datatype Entry = Entry(idx: nat, parent: nat, element: Key)

  const ROOT := Tree(map[0 := PathNode(-1, StrKey("root"), map[], [])], 1)

  /** `add_node`. */
  function AddNode(t: Tree, e: Entry): Tree
    requires e.parent in t.nodes
  {
    var p := t.nodes[e.parent];
    var p' := p.(children := p.children[e.element := e.idx], order := p.order + [e.idx]);
    Tree(t.nodes[e.parent := p'][e.idx := PathNode(e.parent, e.element, map[], [])], t.counter + 1)
  }

  // ----- well-formed trees

  ghost predicate NodeOk(t: Tree, v: nat)
    requires v in t.nodes
  {
    var n := t.nodes[v];
    && (v == 0 ==> n.parent == -1)
    && (v > 0 ==>
          && 0 <= n.parent < v && n.parent in t.nodes
          && n.element in t.nodes[n.parent].children && t.nodes[n.parent].children[n.element] == v)
    && (forall k :: k in n.children ==>
          && v < n.children[k] && n.children[k] in t.nodes
          && t.nodes[n.children[k]].parent == v && t.nodes[n.children[k]].element == k)
    && (forall c :: c in n.order <==> c in t.nodes && c > 0 && t.nodes[c].parent == v)
    && Distinct(n.order)
  }

  /** Indices are dense, parents come first, siblings have different elements. */
  ghost predicate Valid(t: Tree) {
    && t.counter > 0 && (forall v: nat :: v in t.nodes <==> v < t.counter)
    && (forall v {:trigger NodeOk(t, v)} :: v in t.nodes ==> NodeOk(t, v))
  }

  /** The entry of a node that does not exist yet. */
  ghost predicate NewEntry(t: Tree, e: Entry) {
    && e.idx == t.counter && e.parent in t.nodes && e.element !in t.nodes[e.parent].children
  }

  lemma RootValid()
    ensures Valid(ROOT)
  {
    assert NodeOk(ROOT, 0);
  }

  lemma AddValid(t: Tree, e: Entry)
    requires Valid(t) && NewEntry(t, e)
    ensures Valid(AddNode(t, e))
  {
    var t' := AddNode(t, e);
    forall v | v in t'.nodes ensures NodeOk(t', v) {
      if v == e.idx {
        AddNew(t, e);
      } else {
        AddKeeps(t, e, v);
      }
    }
  }

  lemma AddNew(t: Tree, e: Entry)
    requires Valid(t) && NewEntry(t, e)
    ensures NodeOk(AddNode(t, e), e.idx)
  {
    var t' := AddNode(t, e);
    assert e.parent != e.idx;
    forall c | c in t'.nodes && c > 0 ensures t'.nodes[c].parent != e.idx {
      if c != e.idx {
        assert NodeOk(t, c);
      }
    }
  }

  lemma AddKeeps(t: Tree, e: Entry, v: nat)
    requires Valid(t) && NewEntry(t, e) && v in t.nodes
    ensures NodeOk(AddNode(t, e), v)
  {
    var t' := AddNode(t, e);
    assert NodeOk(t, v);
    assert forall c :: c in t.nodes ==> c in t'.nodes && t'.nodes[c].parent == t.nodes[c].parent
                                        && t'.nodes[c].element == t.nodes[c].element;
    AddOrder(t, e, v);
  }

  lemma AddOrder(t: Tree, e: Entry, v: nat)
    requires Valid(t) && NewEntry(t, e) && v in t.nodes
    ensures var t', n := AddNode(t, e), AddNode(t, e).nodes[v];
            && (forall c :: c in n.order <==> c in t'.nodes && c > 0 && t'.nodes[c].parent == v)
            && Distinct(n.order)
  {
    var t', n := AddNode(t, e), AddNode(t, e).nodes[v];
    assert NodeOk(t, v);
    assert n.order == if v == e.parent then t.nodes[v].order + [e.idx] else t.nodes[v].order;
    assert e.idx !in t.nodes[v].order;
  }

  // ----- paths and indices

  function PathOf(t: Tree, v: nat): Path
    requires Valid(t) && v in t.nodes
    decreases v
  {
    if v == 0 then []
    else
      assert NodeOk(t, v);
      PathOf(t, t.nodes[v].parent) + [t.nodes[v].element]
  }

  /** Different nodes have different paths. */
  lemma {:induction false} PathInjective(t: Tree, u: nat, v: nat)
    requires Valid(t) && u in t.nodes && v in t.nodes && PathOf(t, u) == PathOf(t, v)
    ensures u == v
    decreases u
  {
    assert NodeOk(t, u) && NodeOk(t, v);
    if u > 0 && v > 0 {
      var p, q := t.nodes[u].parent, t.nodes[v].parent;
      assert PathOf(t, p) == Init(PathOf(t, u)) && PathOf(t, q) == Init(PathOf(t, v));
      assert Last(PathOf(t, u)) == t.nodes[u].element && Last(PathOf(t, v)) == t.nodes[v].element;
      PathInjective(t, p, q);
    }
  }

  /** Adding a node leaves the paths of the others alone. */
  lemma {:induction false} PathKept(t: Tree, e: Entry, v: nat)
    requires Valid(t) && NewEntry(t, e) && v in t.nodes
    ensures Valid(AddNode(t, e)) && v in AddNode(t, e).nodes && PathOf(AddNode(t, e), v) == PathOf(t, v)
    decreases v
  {
    AddValid(t, e);
    assert NodeOk(t, v);
    if v > 0 {
      PathKept(t, e, t.nodes[v].parent);
    }
  }

  /** `path_list_to_idx`: the index of the node with this path, if there is one. */
  method PathListToIdx(t: Tree, path: Path) returns (r: Option<nat>)
    requires Valid(t)
    ensures r.Some? ==> r.value in t.nodes && PathOf(t, r.value) == path
    ensures r.None? ==> forall v :: v in t.nodes ==> PathOf(t, v) != path
  {
    var current := 0;
    for i := 0 to |path|
      invariant current in t.nodes && PathOf(t, current) == path[..i]
    {
      assert NodeOk(t, current);
      if path[i] !in t.nodes[current].children {
        forall v | v in t.nodes ensures PathOf(t, v) != path {
          NoChild(t, current, path, i, v);
        }
        return None;
      }
      current := t.nodes[current].children[path[i]];
      assert path[..i + 1] == path[..i] + [path[i]];
    }
    assert path[..|path|] == path;
    return Some(current);
  }

  /** Every prefix of a node's path is the path of a node. */
  lemma {:induction false} PrefixNode(t: Tree, v: nat, n: nat) returns (u: nat)
    requires Valid(t) && v in t.nodes && n <= |PathOf(t, v)|
    ensures u in t.nodes && PathOf(t, u) == PathOf(t, v)[..n]
    ensures n < |PathOf(t, v)| ==> PathOf(t, v)[n] in t.nodes[u].children
    decreases v
  {
    assert NodeOk(t, v);
    if n == |PathOf(t, v)| {
      u := v;
      assert PathOf(t, v)[..n] == PathOf(t, v);
    } else {
      var p := t.nodes[v].parent;
      u := PrefixNode(t, p, n);
      assert PathOf(t, v)[..n] == PathOf(t, p)[..n];
      if n == |PathOf(t, p)| {
        assert PathOf(t, p)[..n] == PathOf(t, p);
        PathInjective(t, u, p);
      }
    }
  }

  lemma NoChild(t: Tree, u: nat, path: Path, i: nat, v: nat)
    requires Valid(t) && u in t.nodes && v in t.nodes && i < |path|
    requires PathOf(t, u) == path[..i] && path[i] !in t.nodes[u].children
    ensures PathOf(t, v) != path
  {
    if PathOf(t, v) == path {
      var w := PrefixNode(t, v, i);
      PathInjective(t, w, u);
    }
  }

  // ----- the journal

  /** Replaying journal entries is adding their nodes. */
  ghost function Replay(t: Tree, js: seq<Entry>): Option<Tree> {
    if js == [] then Some(t)
    else match Replay(t, Init(js))
      case None => None
      case Some(t') => if Last(js).parent in t'.nodes then Some(AddNode(t', Last(js))) else None
  }

  lemma {:induction false} ReplayAppend(t: Tree, a: seq<Entry>, b: seq<Entry>)
    ensures Replay(t, a + b) == match Replay(t, a) case None => None case Some(t') => Replay(t', b)
  {
    if b == [] {
      assert a + b == a;
    } else {
      assert Init(a + b) == a + Init(b) && Last(a + b) == Last(b);
      ReplayAppend(t, a, Init(b));
    }
  }

  /** js journals the growth from t to t': replayed on t it gives t', its indices continue
      those of t without a gap, every parent comes before its child, and no old path moves. */
  ghost predicate Journals(t: Tree, js: seq<Entry>, t': Tree) {
    && Valid(t) && Valid(t')
    && Replay(t, js) == Some(t')
    && t'.counter == t.counter + |js|
    && (forall i :: 0 <= i < |js| ==> js[i].idx == t.counter + i && js[i].parent < js[i].idx)
    && (forall v :: v in t.nodes ==> v in t'.nodes && PathOf(t', v) == PathOf(t, v))
  }

  lemma JournalsNext(t: Tree, js: seq<Entry>, t': Tree, e: Entry)
    requires Journals(t, js, t') && NewEntry(t', e)
    ensures Journals(t, js + [e], AddNode(t', e))
  {
    AddValid(t', e);
    assert Init(js + [e]) == js;
    forall v | v in t.nodes ensures PathOf(AddNode(t', e), v) == PathOf(t, v) {
      PathKept(t', e, v);
    }
  }

  lemma JournalsChain(a: Tree, js: seq<Entry>, b: Tree, ks: seq<Entry>, c: Tree)
    requires Journals(a, js, b) && Journals(b, ks, c)
    ensures Journals(a, js + ks, c)
  {
    ReplayAppend(a, js, ks);
  }

  /** Some node has this path. */
  ghost predicate HasPath(t: Tree, p: Path)
    requires Valid(t)
  {
    exists v :: v in t.nodes && PathOf(t, v) == p
  }

  /** p is a prefix of one of the paths. */
  ghost predicate Within(paths: seq<Path>, p: Path) {
    exists q :: q in paths && p <= q
  }

  /** t' has a node for every one of the paths, and no new node that is not needed for it. */
  ghost predicate Covers(t: Tree, paths: seq<Path>, t': Tree)
    requires Valid(t) && Valid(t')
  {
    && (forall p {:trigger HasPath(t', p)} :: p in paths ==> HasPath(t', p))
    && (forall v :: v in t'.nodes && v !in t.nodes ==> Within(paths, PathOf(t', v)))
  }

  class Builder {
    var tree: Tree

    constructor ()
      ensures tree == ROOT
    {
      tree := ROOT;
    }

    /** The inner loop of `fill_with_paths`. */
    method FillPath(path: Path) returns (added: seq<Entry>)
      requires Valid(tree)
      modifies this
      ensures Journals(old(tree), added, tree) && Covers(old(tree), [path], tree)
    {
      added := [];
      var current := 0;
      for i := 0 to |path|
        invariant Journals(old(tree), added, tree) && Grown(old(tree), path, tree)
        invariant current in tree.nodes && PathOf(tree, current) == path[..i]
      {
        if path[i] in tree.nodes[current].children {
          Descend(tree, path, i, current);
          current := tree.nodes[current].children[path[i]];
        } else {
          var e := Entry(tree.counter, current, path[i]);
          JournalsNext(old(tree), added, tree, e);
          Grow(old(tree), tree, path, i, e);
          tree := AddNode(tree, e);
          added := added + [e];
          current := e.idx;
        }
      }
      assert path[..|path|] == path;
      assert HasPath(tree, path);
      GrownCovers(old(tree), path, tree);
    }

    /** `fill_with_paths`. */
    method FillWithPaths(paths: seq<Path>) returns (added: seq<Entry>)
      requires Valid(tree)
      modifies this
      ensures Journals(old(tree), added, tree) && Covers(old(tree), paths, tree)
    {
      added := [];
      for i := 0 to |paths|
        invariant Journals(old(tree), added, tree) && Covers(old(tree), paths[..i], tree)
      {
        ghost var before := tree;
        var more := FillPath(paths[i]);
        JournalsChain(old(tree), added, before, more, tree);
        CoversNext(old(tree), paths, i, before, tree);
        added := added + more;
      }
      assert paths[..|paths|] == paths;
    }
  }

  ghost predicate Grown(t: Tree, path: Path, t': Tree)
    requires Valid(t')
  {
    forall v :: v in t'.nodes && v !in t.nodes ==> PathOf(t', v) <= path
  }

  lemma GrownCovers(t: Tree, path: Path, t': Tree)
    requires Valid(t) && Valid(t') && Grown(t, path, t') && HasPath(t', path)
    ensures Covers(t, [path], t')
  {
    forall v | v in t'.nodes && v !in t.nodes ensures Within([path], PathOf(t', v)) {
      assert path in [path];
    }
  }

  lemma Descend(t: Tree, path: Path, i: nat, u: nat)
    requires Valid(t) && u in t.nodes && i < |path| && PathOf(t, u) == path[..i] && path[i] in t.nodes[u].children
    ensures t.nodes[u].children[path[i]] in t.nodes && PathOf(t, t.nodes[u].children[path[i]]) == path[..i + 1]
  {
    assert NodeOk(t, u);
    assert path[..i + 1] == path[..i] + [path[i]];
  }

  lemma Grow(t: Tree, mid: Tree, path: Path, i: nat, e: Entry)
    requires Valid(mid) && NewEntry(mid, e) && Grown(t, path, mid)
    requires i < |path| && PathOf(mid, e.parent) == path[..i] && e.element == path[i]
    ensures Valid(AddNode(mid, e)) && Grown(t, path, AddNode(mid, e))
    ensures PathOf(AddNode(mid, e), e.idx) == path[..i + 1]
  {
    AddValid(mid, e);
    PathKept(mid, e, e.parent);
    assert path[..i + 1] == path[..i] + [path[i]];
    forall v | v in AddNode(mid, e).nodes && v !in t.nodes ensures PathOf(AddNode(mid, e), v) <= path {
      if v != e.idx {
        PathKept(mid, e, v);
      }
    }
  }

  lemma CoversNext(t: Tree, paths: seq<Path>, i: nat, mid: Tree, t': Tree)
    requires Valid(t) && Valid(mid) && Valid(t') && i < |paths|
    requires Covers(t, paths[..i], mid) && Covers(mid, [paths[i]], t')
    requires forall v :: v in mid.nodes ==> v in t'.nodes && PathOf(t', v) == PathOf(mid, v)
    ensures Covers(t, paths[..i + 1], t')
  {
    assert paths[..i + 1] == paths[..i] + [paths[i]];
    forall p | p in paths[..i + 1] ensures HasPath(t', p) {
      if p in paths[..i] {
        assert HasPath(mid, p);
        var v :| v in mid.nodes && PathOf(mid, v) == p;
        assert PathOf(t', v) == p;
      } else {
        assert p in [paths[i]];
      }
    }
    forall v | v in t'.nodes && v !in t.nodes ensures Within(paths[..i + 1], PathOf(t', v)) {
      if v in mid.nodes {
        var p :| p in paths[..i] && PathOf(mid, v) <= p;
        assert p in paths[..i + 1];
      } else {
        var p :| p in [paths[i]] && PathOf(t', v) <= p;
        assert p in paths[..i + 1];
      }
    }
  }

  // ----- a writer and a reader

  ghost function Flatten(journal: seq<seq<Entry>>): seq<Entry> {
    if journal == [] then [] else Flatten(Init(journal)) + Last(journal)
  }

  /** The writer: each patch contributes its list of new nodes. */
  method Record(patches: seq<seq<Path>>) returns (tree: Tree, journal: seq<seq<Entry>>)
    ensures |journal| == |patches|
    ensures Journals(ROOT, Flatten(journal), tree)
    ensures forall i, p :: 0 <= i < |patches| && p in patches[i] ==> HasPath(tree, p)
  {
    var b := new Builder();
    journal := [];
    RootValid();
    for i := 0 to |patches|
      invariant |journal| == i && Journals(ROOT, Flatten(journal), b.tree)
      invariant forall j, p :: 0 <= j < i && p in patches[j] ==> HasPath(b.tree, p)
    {
      ghost var before := b.tree;
      var added := b.FillWithPaths(patches[i]);
      JournalsChain(ROOT, Flatten(journal), before, added, b.tree);
      assert Init(journal + [added]) == journal;
      journal := journal + [added];
      forall j, p | 0 <= j < i && p in patches[j] ensures HasPath(b.tree, p) {
        assert HasPath(before, p);
        var v :| v in before.nodes && PathOf(before, v) == p;
        assert PathOf(b.tree, v) == p;
      }
    }
    tree := b.tree;
  }

  /** The reader, on a fragmented replay: it starts from the root and adds the nodes every
      patch lists. */
  method LoadPathTree(journal: seq<seq<Entry>>) returns (r: Option<Tree>)
    ensures r == Replay(ROOT, Flatten(journal))
  {
    var tree := ROOT;
    for i := 0 to |journal|
      invariant Replay(ROOT, Flatten(journal[..i])) == Some(tree)
    {
      var js := journal[i];
      assert Init(journal[..i + 1]) == journal[..i];
      assert Flatten(journal[..i]) + js[..0] == Flatten(journal[..i]);
      for k := 0 to |js|
        invariant Replay(ROOT, Flatten(journal[..i]) + js[..k]) == Some(tree)
      {
        ghost var so := Flatten(journal[..i]) + js[..k + 1];
        assert Init(so) == Flatten(journal[..i]) + js[..k] && Last(so) == js[k];
        if js[k].parent !in tree.nodes {
          LostForGood(ROOT, journal, i, k);
          return None;
        }
        tree := AddNode(tree, js[k]);
      }
      assert js[..|js|] == js;
    }
    assert journal[..|journal|] == journal;
    return Some(tree);
  }

  /** What the recorder journals patch by patch, the reader turns back into the recorder's own
      tree. */
  method RecordAndLoad(patches: seq<seq<Path>>) returns (tree: Tree, r: Option<Tree>)
    ensures r == Some(tree) && Valid(tree)
    ensures forall i, p :: 0 <= i < |patches| && p in patches[i] ==> HasPath(tree, p)
  {
    var journal;
    tree, journal := Record(patches);
    r := LoadPathTree(journal);
  }

  lemma {:induction false} ReplayLost(t: Tree, a: seq<Entry>, b: seq<Entry>)
    requires Replay(t, a).None?
    ensures Replay(t, a + b).None?
  {
    ReplayAppend(t, a, b);
  }

  lemma {:induction false} FlattenAppend(a: seq<seq<Entry>>, b: seq<seq<Entry>>)
    ensures Flatten(a + b) == Flatten(a) + Flatten(b)
  {
    if b == [] {
      assert a + b == a;
    } else {
      assert Init(a + b) == a + Init(b) && Last(a + b) == Last(b);
      FlattenAppend(a, Init(b));
      assert Flatten(a) + Flatten(Init(b)) + Last(b) == Flatten(a) + (Flatten(Init(b)) + Last(b));
    }
  }

  lemma LostForGood(t: Tree, journal: seq<seq<Entry>>, i: nat, k: nat)
    requires i < |journal| && k < |journal[i]|
    requires Replay(t, Flatten(journal[..i]) + journal[i][..k + 1]).None?
    ensures Replay(t, Flatten(journal)).None?
  {
    var js := journal[i];
    assert journal == journal[..i] + journal[i..] && journal[i..] == [js] + journal[i + 1..];
    FlattenAppend(journal[..i], journal[i..]);
    FlattenAppend([js], journal[i + 1..]);
    assert Init([js]) == [];
    var head := Flatten(journal[..i]) + js[..k + 1];
    assert Flatten(journal) == head + (js[k + 1..] + Flatten(journal[i + 1..]));
    ReplayLost(t, head, js[k + 1..] + Flatten(journal[i + 1..]));
  }
}
