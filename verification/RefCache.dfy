/** `apply_patch` with cached references: the container objects found on earlier patches are
    reused, and every result is the one a fresh walk from the root would give. */
module RefCache {
  import opened Values
  import opened ObjectStore
  import Subtree = OpTree
  import PathTree
  import PathIndex
  import opened Sorting

  /** Every cached reference is the object reached by walking the node's parent path. */
  ghost predicate CacheOk(st: Store, root: nat, refs: map<Path, nat>) {
    forall p {:trigger refs[p]} :: p in refs ==> p != [] && Walk(st, Ref(root), Init(p)) == Some(refs[p])
  }

  /** q is strictly below p. */
  predicate Below(q: Path, p: Path) {
    p <= q && p != q
  }

  /** No operation addresses something strictly below an earlier one of the patch. */
  ghost predicate NoneBelow(ops: seq<Op>) {
    forall i, j :: 0 <= i < j < |ops| ==> !Below(ops[j].path, ops[i].path)
  }

  /** The values of the operations from i on live in the store, unshared with the state and
      with each other. */
  ghost predicate Fresh(st: Store, root: nat, v: Value, ops: seq<Op>, xs: seq<Handle>, i: nat) {
    && |xs| == |ops| && Models(st, Ref(root), v)
    && (forall j :: i <= j < |ops| ==>
          && IsTree(st, xs[j], ops[j].value)
          && Foot(st, xs[j], ops[j].value) !! Foot(st, Ref(root), v))
    && (forall j, l :: i <= j < l < |ops| ==>
          Foot(st, xs[j], ops[j].value) !! Foot(st, xs[l], ops[l].value))
  }

  // ----- one operation

  lemma {:induction false} FreshStep(st: Store, root: nat, v: Value, v': Value, ops: seq<Op>, xs: seq<Handle>, i: nat,
                                     c: nat, cell: Cell)
    requires Fresh(st, root, v, ops, xs, i) && i < |ops| && c in Foot(st, Ref(root), v)
    requires Stepped(st, st[c := cell], Ref(root), v, v', xs[i], ops[i].value)
    ensures Fresh(st[c := cell], root, v', ops, xs, i + 1)
  {
    var st' := st[c := cell];
    forall j | i < j < |ops|
      ensures IsTree(st', xs[j], ops[j].value)
      ensures Foot(st', xs[j], ops[j].value) == Foot(st, xs[j], ops[j].value)
      ensures Foot(st', xs[j], ops[j].value) !! Foot(st', Ref(root), v')
    {
      Frame(st, c, cell, xs[j], ops[j].value);
    }
  }

  lemma CacheStep(st: Store, root: nat, v: Value, refs: map<Path, nat>, p: Path, c: nat, cell: Cell)
    requires IsTree(st, Ref(root), v) && CacheOk(st, root, refs) && p != []
    requires Walk(st, Ref(root), Init(p)) == Some(c) && c in st && OnlyAt(st[c], cell, Last(p))
    ensures CacheOk(st[c := cell], root, Reset(refs, p))
  {
    var refs' := Reset(refs, p);
    assert p == Init(p) + [Last(p)];
    forall q | q in refs' ensures q != [] && Walk(st[c := cell], Ref(root), Init(q)) == Some(refs'[q]) {
      assert q in refs && refs[q] == refs'[q];
      assert p <= Init(q) ==> Below(q, p);
      WalkKept(st, Ref(root), v, Init(p), Last(p), cell, Init(q));
    }
  }

  /** The references left after forgetting every one strictly below p. */
  ghost function Reset(refs: map<Path, nat>, p: Path): (r: map<Path, nat>)
    ensures forall q :: q in r <==> q in refs && !Below(q, p)
    ensures forall q :: q in r ==> r[q] == refs[q]
  {
    map q | q in refs && !Below(q, p) :: refs[q]
  }

  // ----- resolving references

  lemma {:induction false} WalkSnoc(st: Store, h: Handle, p: Path, k: Key)
    ensures Walk(st, h, p + [k]) ==
            match Walk(st, h, p)
            case None => None
            case Some(r) => if r in st && k in st[r].kids then Walk(st, st[r].kids[k], []) else None
    ensures Walk(st, h, p).Some? ==> Walk(st, h, p).value in st
    decreases |p|
  {
    if p == [] {
      assert p + [k] == [k];
    } else {
      assert (p + [k])[0] == p[0] && (p + [k])[1..] == p[1..] + [k];
      if h.Ref? && h.r in st && p[0] in st[h.r].kids {
        WalkSnoc(st, st[h.r].kids[p[0]], p[1..], k);
      }
    }
  }

  // ----- which containers a patch needs

  /** There is a container at the path. */
  ghost predicate Holds(v: Value, path: Path)
    decreases |path|
  {
    v.Node? && (path == [] || (path[0] in v.kids && Holds(v.kids[path[0]], path[1..])))
  }

  lemma {:induction false} WalkHolds(st: Store, h: Handle, v: Value, path: Path)
    requires Models(st, h, v)
    ensures Walk(st, h, path).Some? <==> Holds(v, path)
    decreases |path|
  {
    if v.Node? && path != [] && path[0] in v.kids {
      WalkHolds(st, st[h.r].kids[path[0]], v.kids[path[0]], path[1..]);
    }
  }

  /** An operation needs the container it writes to. */
  lemma {:induction false} StepNeeds(op: Op, v: Value)
    requires op.path != [] && SlotStep(op, Some(v)).Some?
    ensures Holds(v, Init(op.path))
    decreases |op.path|
  {
    if |op.path| > 1 {
      StepShape(op, v);
      StepNeeds(Tail(op), v.kids[op.path[0]]);
      assert Init(op.path)[1..] == Init(op.path[1..]);
    }
  }

  /** It makes or breaks no container except at or below its own path. */
  lemma {:induction false} StepHolds(op: Op, v: Value, v': Value, q: Path)
    requires op.path != [] && SlotStep(op, Some(v)) == Some(Some(v')) && !(op.path <= q)
    ensures Holds(v, q) <==> Holds(v', q)
    decreases |op.path|
  {
    StepShape(op, v);
    var k := op.path[0];
    if q != [] {
      assert Lookup(v', q[0]) == Lookup(v, q[0]) || q[0] == k;
      if q[0] == k && |op.path| > 1 {
        assert op.path == [k] + op.path[1..] && q == [k] + q[1..];
        StepHolds(Tail(op), v.kids[k], v'.kids[k], q[1..]);
      }
    }
  }

  lemma {:induction false} RunHolds(v: Value, ops: seq<Op>, q: Path)
    requires AllDeep(ops) && SlotRun(Some(v), ops).Some?
    requires forall i :: 0 <= i < |ops| ==> !(ops[i].path <= q)
    ensures SlotRun(Some(v), ops).value.Some?
    ensures Holds(v, q) <==> Holds(SlotRun(Some(v), ops).value.value, q)
  {
    if ops != [] {
      RunHolds(v, Init(ops), q);
      var w := SlotRun(Some(v), Init(ops)).value.value;
      StepIsExec(Last(ops), w);
      StepHolds(Last(ops), w, SlotRun(Some(v), ops).value.value, q);
    }
  }

  /** Every container a patch without nesting writes to is there from the start. */
  lemma {:induction false} PatchNeeds(v: Value, ops: seq<Op>, j: nat)
    requires AllDeep(ops) && SlotRun(Some(v), ops).Some? && NoneBelow(ops) && j < |ops|
    ensures Holds(v, Init(ops[j].path))
  {
    var p, before := ops[j].path, ops[..j];
    RunPrefix(Some(v), ops, j + 1);
    assert Init(ops[..j + 1]) == before && Last(ops[..j + 1]) == ops[j];
    forall i | 0 <= i < |before| ensures !(before[i].path <= Init(p)) {
      var above := ops[i].path;
      assert above <= Init(p) ==> Below(p, above);
      assert !Below(p, ops[i].path);
    }
    RunHolds(v, before, Init(p));
    StepNeeds(ops[j], SlotRun(Some(v), before).value.value);
  }

  /** Every node of the subtree has a container to refer to. */
  ghost predicate Resolvable(st: Store, root: nat, adj: Subtree.Adj) {
    forall p :: p in adj && p != [] ==> Walk(st, Ref(root), Init(p)).Some?
  }

  /** The breadth-first walk so far: nothing is visited twice, a node is reached from its
      parent, and the children of the nodes done are done or queued. */
  ghost predicate Visiting(adj: Subtree.Adj, seen: set<Path>, q: seq<Path>) {
    && seen <= adj.Keys
    && (forall p :: p in q ==> p != [] && p !in seen)
    && (forall p :: p in seen || p in q ==> |p| > 1 ==> Init(p) in seen)
    && (forall p :: p in adj && p != [] ==> (|p| == 1 || Init(p) in seen ==> p in seen || p in q))
    && Distinct(q)
  }

  /** The nodes done or queued are resolved. */
  ghost predicate Resolved(refs: map<Path, nat>, seen: set<Path>, q: seq<Path>) {
    (forall p :: p in seen ==> p in refs) && (forall p :: p in q ==> p in refs)
  }

  lemma {:induction false} AllVisited(adj: Subtree.Adj, seen: set<Path>, p: Path)
    requires Subtree.IsTree(adj) && Visiting(adj, seen, []) && p in adj && p != []
    ensures p in seen
    decreases |p|
  {
    if |p| > 1 {
      assert Subtree.Linked(adj, p);
      AllVisited(adj, seen, Init(p));
    }
  }

  lemma VisitStep(adj: Subtree.Adj, seen: set<Path>, q: seq<Path>)
    requires Subtree.IsTree(adj) && q != [] && q[0] in adj && Visiting(adj, seen, q)
    ensures Visiting(adj, seen + {q[0]}, q[1..] + adj[q[0]])
    ensures q[0] !in seen
  {
    var u := q[0];
    var seen', q' := seen + {u}, q[1..] + adj[u];
    assert u in q;
    assert Subtree.Linked(adj, u);
    assert forall p :: p in q <==> p == u || p in q[1..];
    assert forall p :: p in q' <==> p in q[1..] || p in adj[u];
    forall p | p in adj[u] ensures p !in seen' && p !in q[1..] && |p| > 1 && Init(p) == u {
      assert |p| == |u| + 1;
    }
    forall p | p in adj && p != [] && (|p| == 1 || Init(p) in seen') ensures p in seen' || p in q' {
      assert Subtree.Linked(adj, p);
    }
    DistinctAppend(q[1..], adj[u]);
  }

  /** The queue of the root's children, those outside the subtree among them. */
  lemma VisitStart(tree: Subtree.Adj, adj: Subtree.Adj)
    requires Subtree.IsTree(tree) && Subtree.IsTree(adj) && adj.Keys <= tree.Keys
    ensures Visiting(adj, {}, tree[[]])
  {
    assert Subtree.Linked(tree, []);
    forall p | p in adj && |p| == 1 ensures p in tree[[]] {
      assert Subtree.Linked(tree, p);
      assert Init(p) == [];
    }
  }

  lemma VisitSkip(adj: Subtree.Adj, seen: set<Path>, q: seq<Path>)
    requires q != [] && q[0] !in adj && Visiting(adj, seen, q)
    ensures Visiting(adj, seen, q[1..])
  {
    assert forall p :: p in q <==> p == q[0] || p in q[1..];
  }

  /** The containers above a resolvable node are resolvable. */
  lemma {:induction false} HoldsPrefix(v: Value, p: Path, n: nat)
    requires n <= |p| && Holds(v, p)
    ensures Holds(v, p[..n])
    decreases |p|
  {
    if n > 0 {
      assert p[..n][1..] == p[1..][..n - 1];
      HoldsPrefix(v.kids[p[0]], p[1..], n - 1);
    }
  }

  lemma SubtreeResolvable(st: Store, root: nat, v: Value, ops: seq<Op>, ps: seq<Path>, adj: Subtree.Adj)
    requires Models(st, Ref(root), v) && AllDeep(ops) && SlotRun(Some(v), ops).Some? && NoneBelow(ops)
    requires forall p :: p in ps ==> exists j :: 0 <= j < |ops| && ops[j].path == p
    requires Subtree.SubtreeOf(adj, ps)
    ensures Resolvable(st, root, adj)
  {
    forall q | q in adj && q != [] ensures Walk(st, Ref(root), Init(q)).Some? {
      assert Subtree.OnPath(ps, q);
      var p :| p in ps && q <= p;
      var j :| 0 <= j < |ops| && ops[j].path == p;
      PatchNeeds(v, ops, j);
      assert Init(p)[..|q| - 1] == Init(q);
      HoldsPrefix(v, Init(p), |q| - 1);
      WalkHolds(st, Ref(root), v, Init(q));
    }
  }

  // ----- forgetting references

  /** The depth-first sweep below start so far: everything reached lies below start, nothing
      is reached twice, and the children of the nodes done are done or stacked. */
  ghost predicate Sweeping(tree: Subtree.Adj, start: Path, done: set<Path>, stack: seq<Path>) {
    && done <= tree.Keys
    && (forall p :: p in stack ==> p in tree && p !in done)
    && (forall p :: p in done || p in stack ==> p == start || (Below(p, start) && Init(p) in done))
    && (forall p :: p in tree && Below(p, start) && Init(p) in done ==> p in done || p in stack)
    && (start in done || start in stack)
    && Distinct(stack)
  }

  lemma SweepStep(tree: Subtree.Adj, start: Path, done: set<Path>, stack: seq<Path>)
    requires Subtree.IsTree(tree) && stack != [] && Sweeping(tree, start, done, stack)
    ensures Last(stack) in tree && Last(stack) !in done
    ensures Sweeping(tree, start, done + {Last(stack)}, Init(stack) + tree[Last(stack)])
  {
    var u := Last(stack);
    var done', stack' := done + {u}, Init(stack) + tree[u];
    assert u in stack;
    assert Subtree.Linked(tree, u);
    assert forall p :: p in stack <==> p == u || p in Init(stack);
    assert forall p :: p in stack' <==> p in Init(stack) || p in tree[u];
    forall p | p in tree[u] ensures p !in done' && p !in Init(stack) && Below(p, start) && Init(p) == u {
      assert |p| == |u| + 1 && u <= p;
    }
    forall p | p in tree && Below(p, start) && Init(p) in done' ensures p in done' || p in stack' {
      assert Subtree.Linked(tree, p);
    }
    DistinctAppend(Init(stack), tree[u]);
  }

  lemma {:induction false} AllSwept(tree: Subtree.Adj, start: Path, done: set<Path>, p: Path)
    requires Subtree.IsTree(tree) && Sweeping(tree, start, done, []) && p in tree && start <= p
    ensures p in done
    decreases |p|
  {
    if p != start {
      assert Subtree.Linked(tree, p);
      AllSwept(tree, start, done, Init(p));
    }
  }

  /** The nodes whose references the sweep has dropped. */
  ghost predicate Dropped(done: set<Path>, p: Path) {
    p != [] && Init(p) in done
  }

  lemma SweptAll(tree: Subtree.Adj, start: Path, done: set<Path>)
    requires Subtree.IsTree(tree) && Sweeping(tree, start, done, [])
    ensures forall p :: p in tree ==> (Dropped(done, p) <==> Below(p, start))
  {
    forall p | p in tree ensures Dropped(done, p) <==> Below(p, start) {
      assert Subtree.Linked(tree, p);
      if Below(p, start) {
        AllSwept(tree, start, done, Init(p));
      }
      if Dropped(done, p) {
        assert Init(p) <= p && start <= Init(p);
      }
    }
  }

  // ----- the segment

  class ReplaySegment {
    var store: Store
    var refs: map<Path, nat>
    const root: nat
    const tree: Subtree.Adj
    const index: PathIndex.Index

    /** The index is that of the path tree. */
    ghost predicate Mapped() {
      PathIndex.Ready(index) && forall p :: p in tree ==> PathTree.HasPath(index.tree, p)
    }

    /** The state graph represents v without sharing and every cached reference is right. */
    ghost predicate Valid(v: Value)
      reads this
    {
      && IsTree(store, Ref(root), v) && v.Node?
      && CacheOk(store, root, refs) && refs.Keys <= tree.Keys
      && Subtree.IsTree(tree)
    }

    /** A segment starts without references. */
    constructor (store: Store, root: nat, tree: Subtree.Adj, index: PathIndex.Index)
      ensures this.store == store && this.root == root && this.tree == tree && this.index == index && refs == map[]
    {
      this.store, this.root, this.tree, this.index, refs := store, root, tree, index, map[];
    }

    /** The children of the root all refer to the state object. */
    method SeedRoot() returns (q: seq<Path>)
      requires Walk(store, Ref(root), []).Some? && CacheOk(store, root, refs) && refs.Keys <= tree.Keys
      requires Subtree.IsTree(tree)
      modifies `refs
      ensures CacheOk(store, root, refs) && refs.Keys <= tree.Keys
      ensures q == tree[[]]
      ensures forall p :: p in old(refs) || p in q ==> p in refs
    {
      q := [];
      var children := tree[[]];
      assert Subtree.Linked(tree, []);
      for i := 0 to |children|
        invariant q == children[..i]
        invariant CacheOk(store, root, refs) && refs.Keys <= tree.Keys
        invariant forall p :: p in old(refs) || p in children[..i] ==> p in refs
      {
        var p := children[i];
        assert p in tree[[]];
        refs := refs[p := root];
        q := q + [p];
      }
    }

    /** `get_reference_from_direct_parent` for every child of u in the subtree; it fails
        where the parent's container has no such entry or the entry is no container. */
    method SetChildren(u: Path, children: seq<Path>) returns (ok: bool)
      requires u in refs && CacheOk(store, root, refs)
      requires forall v :: v in children ==> v != [] && Init(v) == u
      modifies `refs
      ensures CacheOk(store, root, refs) && refs.Keys <= old(refs.Keys) + set v | v in children
      ensures forall p :: p in old(refs) ==> p in refs
      ensures ok ==> forall p :: p in children ==> p in refs
      ensures children == [] || Walk(store, Ref(root), u).Some? ==> ok
    {
      for i := 0 to |children|
        invariant CacheOk(store, root, refs) && u in refs
        invariant refs.Keys <= old(refs.Keys) + set v | v in children
        invariant forall p :: p in old(refs) || p in children[..i] ==> p in refs
      {
        var v := children[i];
        assert v in children;
        assert u == Init(u) + [Last(u)];
        WalkSnoc(store, Ref(root), Init(u), Last(u));
        if Last(u) !in store[refs[u]].kids {
          return false;
        }
        var found := store[refs[u]].kids[Last(u)];
        if found.Prim? || found.r !in store {
          return false;
        }
        refs := refs[v := found.r];
        assert children[..i + 1] == children[..i] + [v];
      }
      assert children[..|children|] == children;
      return true;
    }

    /** `bfs_set_references`: resolve every node of the subtree, level by level. */
    method BfsSetReferences(adj: Subtree.Adj, ghost v: Value) returns (ok: bool)
      requires Valid(v) && Subtree.IsTree(adj) && adj.Keys <= tree.Keys
      modifies `refs
      ensures Valid(v)
      ensures Resolvable(store, root, adj) ==> ok
      ensures ok ==> forall p :: p in adj && p != [] ==> p in refs
      ensures forall p :: p in old(refs) ==> p in refs
    {
      var q := SeedRoot();
      VisitStart(tree, adj);
      ghost var seen: set<Path> := {};
      while q != []
        invariant CacheOk(store, root, refs) && refs.Keys <= tree.Keys
        invariant Visiting(adj, seen, q) && Resolved(refs, seen, q)
        invariant forall p :: p in old(refs) ==> p in refs
        decreases adj.Keys - seen, |q|
      {
        var u := q[0];
        assert u in q;
        if u in adj {
          assert Subtree.Linked(adj, u);
          SubtreeChildren(store, root, adj, u);
          var found := SetChildren(u, adj[u]);
          if !found {
            return false;
          }
          VisitStep(adj, seen, q);
          q := q[1..] + adj[u];
          seen := seen + {u};
        } else {
          VisitSkip(adj, seen, q);
          q := q[1..];
        }
      }
      forall p | p in adj && p != [] ensures p in refs {
        AllVisited(adj, seen, p);
      }
      return true;
    }

    /** The operations without a usable reference; an empty container counts as none. */
    method UnknownPaths(ops: seq<Op>) returns (ps: seq<Path>)
      ensures forall p :: p in ps ==> Unknown(p) && exists j :: 0 <= j < |ops| && ops[j].path == p
      ensures forall j :: 0 <= j < |ops| ==> (ops[j].path in ps <==> Unknown(ops[j].path))
    {
      ps := [];
      for i := 0 to |ops|
        invariant forall p :: p in ps ==> Unknown(p) && exists j :: 0 <= j < |ops| && ops[j].path == p
        invariant forall j :: 0 <= j < i ==> (ops[j].path in ps <==> Unknown(ops[j].path))
      {
        if Unknown(ops[i].path) {
          ps := ps + [ops[i].path];
        }
      }
    }

    /** The node has no reference, or one to an empty container. */
    predicate Unknown(p: Path)
      reads this
    {
      p !in refs || Falsy(refs[p])
    }

    /** How the program's truth test sees a reference. */
    predicate Falsy(r: nat)
      reads this
    {
      r in store && !store[r].kind.Obj? && store[r].kids == map[]
    }

    /** `reset_child_references`: forget every reference strictly below the node. */
    method ResetChildReferences(start: Path)
      requires refs.Keys <= tree.Keys && Subtree.IsTree(tree) && start in tree
      modifies `refs
      ensures refs == Reset(old(refs), start)
    {
      var stack := [start];
      ghost var done: set<Path> := {};
      while stack != []
        invariant Sweeping(tree, start, done, stack)
        invariant forall p :: p in refs <==> p in old(refs) && !Dropped(done, p)
        invariant forall p :: p in refs ==> refs[p] == old(refs)[p]
        decreases tree.Keys - done, |stack|
      {
        var u := Last(stack);
        SweepStep(tree, start, done, stack);
        DropChildren(u, tree[u]);
        stack := Init(stack) + tree[u];
        done := done + {u};
      }
      SweptAll(tree, start, done);
    }

    method DropChildren(u: Path, children: seq<Path>)
      requires u in tree && children == tree[u] && Subtree.IsTree(tree) && refs.Keys <= tree.Keys
      modifies `refs
      ensures forall p :: p in refs <==> p in old(refs) && !(p != [] && Init(p) == u)
      ensures forall p :: p in refs ==> refs[p] == old(refs)[p]
    {
      for i := 0 to |children|
        invariant forall p :: p in refs <==> p in old(refs) && p !in children[..i]
        invariant forall p :: p in refs ==> refs[p] == old(refs)[p]
      {
        refs := refs - {children[i]};
      }
      assert Subtree.Linked(tree, u);
      forall p | p in old(refs) ensures p in children[..|children|] <==> p != [] && Init(p) == u {
        assert Subtree.Linked(tree, p);
      }
    }

    /** `apply_patch`.  On a state without sharing, a patch that fits the state is carried
        out exactly when none of its operations lies below an earlier one; the state is
        then the one a walk from the root for each operation gives, and every reference
        left in the cache is again the object such a walk reaches. */
    method ApplyPatch(ops: seq<Op>, xs: seq<Handle>, ghost v: Value, ghost v': Value) returns (ok: bool)
      requires Valid(v) && Mapped() && Fresh(store, root, v, ops, xs, 0)
      requires AllDeep(ops) && SlotRun(Some(v), ops) == Some(Some(v'))
      requires forall i :: 0 <= i < |ops| ==> ops[i].path in tree
      modifies `store, `refs
      ensures ok <==> NoneBelow(ops)
      ensures ok ==> Valid(v') && ExecRun(v, ops) == Some(v')
    {
      var unknown := UnknownPaths(ops);
      var adj := PathIndex.SubtreeFor(index, unknown);
      WithinTree(tree, adj, unknown);
      if NoneBelow(ops) {
        SubtreeResolvable(store, root, v, ops, unknown, adj);
      }
      ok := BfsSetReferences(adj, v);
      if !ok {
        return;
      }
      ok := ApplyResolved(ops, xs, v, v');
      RunIsExec(v, ops);
    }

    /** The second loop of `apply_patch`: each operation through its reference. */
    method ApplyResolved(ops: seq<Op>, xs: seq<Handle>, ghost v: Value, ghost v': Value) returns (ok: bool)
      requires Valid(v) && Fresh(store, root, v, ops, xs, 0)
      requires AllDeep(ops) && SlotRun(Some(v), ops) == Some(Some(v'))
      requires forall i :: 0 <= i < |ops| ==> ops[i].path in refs
      modifies `store, `refs
      ensures ok <==> NoneBelow(ops)
      ensures ok ==> Valid(v')
    {
      ghost var w := v;
      for i := 0 to |ops|
        invariant SlotRun(Some(v), ops[..i]) == Some(Some(w))
        invariant Valid(w) && Fresh(store, root, w, ops, xs, i)
        invariant Known(ops, i, refs)
        invariant NoneBelow(ops[..i])
      {
        var p := ops[i].path;
        if p !in refs {
          StaleReference(ops, i, refs);
          return false;
        }
        ghost var w' := NextState(v, ops, i, w, v');
        ghost var before := refs;
        ApplyOp(ops, xs, i, w, w');
        KnownStep(ops, i, before, refs);
        w := w';
      }
      assert ops[..|ops|] == ops;
      return true;
    }

    /** One operation through its reference, and the references below it forgotten. */
    method ApplyOp(ops: seq<Op>, xs: seq<Handle>, i: nat, ghost w: Value, ghost w': Value)
      requires Valid(w) && Fresh(store, root, w, ops, xs, i) && i < |ops|
      requires ops[i].path in refs && ops[i].path != [] && SlotStep(ops[i], Some(w)) == Some(Some(w'))
      modifies `store, `refs
      ensures Valid(w') && Fresh(store, root, w', ops, xs, i + 1)
      ensures refs == Reset(old(refs), ops[i].path)
    {
      var p := ops[i].path;
      var c := refs[p];
      StepThrough(store, Ref(root), w, ops[i], xs[i], w');
      var cell := ApplyCell(ops[i].kind, xs[i], store[c], Last(p)).value;
      CacheStep(store, root, w, refs, p, c, cell);
      FreshStep(store, root, w, w', ops, xs, i, c, cell);
      store := store[c := cell];
      ResetChildReferences(p);
      StepShape(ops[i], w);
    }
  }

  /** Loading a segment: its path tree is read from the journal and indexed, and no reference
      is set. */
  method Load(store: Store, root: nat, t: PathTree.Tree, ghost v: Value) returns (s: ReplaySegment)
    requires PathTree.Valid(t) && IsTree(store, Ref(root), v) && v.Node?
    ensures fresh(s) && s.Valid(v) && s.Mapped() && s.refs == map[]
    ensures forall p :: p in s.tree <==> PathTree.HasPath(t, p)
  {
    var tree := PathIndex.WholeTree(t);
    var index := PathIndex.MakeIndex(t);
    s := new ReplaySegment(store, root, tree, index);
  }

  /** Of the operations from i on, exactly those still have their reference that lie below
      none of the first i. */
  ghost predicate Known(ops: seq<Op>, i: nat, refs: map<Path, nat>)
    requires i <= |ops|
  {
    forall j :: i <= j < |ops| ==>
      (ops[j].path in refs <==> forall a :: 0 <= a < i ==> !Below(ops[j].path, ops[a].path))
  }

  lemma KnownStep(ops: seq<Op>, i: nat, refs: map<Path, nat>, refs': map<Path, nat>)
    requires i < |ops| && refs' == Reset(refs, ops[i].path) && ops[i].path in refs
    requires Known(ops, i, refs) && NoneBelow(ops[..i])
    ensures Known(ops, i + 1, refs') && NoneBelow(ops[..i + 1])
  {
    forall a, j | 0 <= a < j < i + 1 ensures !Below(ops[j].path, ops[a].path) {
      if j < i {
        assert !Below(ops[..i][j].path, ops[..i][a].path);
      }
    }
  }

  lemma StaleReference(ops: seq<Op>, i: nat, refs: map<Path, nat>)
    requires i < |ops| && Known(ops, i, refs) && ops[i].path !in refs
    ensures !NoneBelow(ops)
  {
  }

  ghost function NextState(v: Value, ops: seq<Op>, i: nat, w: Value, v': Value): (w': Value)
    requires i < |ops| && AllDeep(ops) && SlotRun(Some(v), ops) == Some(Some(v'))
    requires SlotRun(Some(v), ops[..i]) == Some(Some(w))
    ensures SlotStep(ops[i], Some(w)) == Some(Some(w'))
    ensures SlotRun(Some(v), ops[..i + 1]) == Some(Some(w'))
  {
    RunPrefix(Some(v), ops, i + 1);
    assert Init(ops[..i + 1]) == ops[..i] && Last(ops[..i + 1]) == ops[i];
    StepIsExec(ops[i], w);
    SlotStep(ops[i], Some(w)).value.value
  }

  lemma WithinTree(tree: Subtree.Adj, adj: Subtree.Adj, ps: seq<Path>)
    requires Subtree.IsTree(tree) && Subtree.SubtreeOf(adj, ps) && forall p :: p in ps ==> p in tree
    ensures adj.Keys <= tree.Keys
  {
    forall q | q in adj ensures q in tree {
      if q != [] {
        assert Subtree.OnPath(ps, q);
        var p :| p in ps && q <= p;
        assert p[..|q|] == q;
        Subtree.TreePrefix(tree, p, |q|);
      }
    }
  }

  lemma SubtreeChildren(st: Store, root: nat, adj: Subtree.Adj, u: Path)
    requires Subtree.IsTree(adj) && u in adj
    ensures forall v :: v in adj[u] ==> v != [] && Init(v) == u && v in adj
    ensures Resolvable(st, root, adj) && adj[u] != [] ==> Walk(st, Ref(root), u).Some?
  {
    assert Subtree.Linked(adj, u);
    if adj[u] != [] {
      assert adj[u][0] in adj[u];
    }
  }
}
