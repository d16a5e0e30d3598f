/** `build_steiner_tree`: the subtree that connects a list of nodes with the root, built from
    tour order, an ancestor stack and parent pointers. */
module Steiner {
  import opened EulerTour
  import opened SparseTable
  import opened Sorting

  type Adj = map<nat, seq<nat>>

  /** v lies on the way from the root to one of the nodes. */
  ghost predicate Above(t: Tree, nodes: seq<nat>, v: nat)
    requires IsTree(t) && Nodes(t, nodes)
  {
    v == 0 || exists n :: n in nodes && Anc(t, v, n)
  }

  ghost predicate Nodes(t: Tree, nodes: seq<nat>) {
    forall n :: n in nodes ==> Node(t, n)
  }

  function Key(r: Tour): nat -> int {
    (v: nat) => if v < |r.tin| then r.tin[v] else 0
  }

  /** The list of p: its children among the keys, once each, in tour order. */
  ghost predicate ListedAt(t: Tree, r: Tour, adj: Adj, p: nat)
    requires p in adj
  {
    && (forall c :: c in adj[p] <==> c in adj && 0 < c < |t.par| && t.par[c] == p)
    && Distinct(adj[p]) && StrictlySortedBy(adj[p], Key(r))
  }

  /** adj is the naive union of the root paths. */
  ghost predicate IsSteiner(t: Tree, r: Tour, nodes: seq<nat>, adj: Adj) {
    && IsTree(t) && Nodes(t, nodes)
    && (forall v: nat :: v in adj <==> Above(t, nodes, v))
    && (forall p {:trigger ListedAt(t, r, adj, p)} :: p in adj ==> ListedAt(t, r, adj, p))
  }

  // ----- sorting and removing duplicates

  /** `std::unique`. */
  method Unique(xs: seq<nat>) returns (ys: seq<nat>)
    ensures forall x :: x in ys <==> x in xs
    ensures forall key: nat -> int :: Ascending(xs, key) ==> Ascending(ys, key)
    ensures forall i :: 0 <= i < |ys| - 1 ==> ys[i] != ys[i + 1]
  {
    ys := [];
    for i := 0 to |xs|
      invariant forall x :: x in ys <==> x in xs[..i]
      invariant forall key: nat -> int :: Ascending(xs, key) ==> Ascending(ys, key)
      invariant forall j :: 0 <= j < |ys| - 1 ==> ys[j] != ys[j + 1]
      invariant i == 0 <==> ys == []
      invariant i > 0 ==> ys[|ys| - 1] == xs[i - 1]
    {
      assert xs[..i + 1] == xs[..i] + [xs[i]];
      if ys == [] || ys[|ys| - 1] != xs[i] {
        ys := ys + [xs[i]];
      }
    }
    assert xs[..|xs|] == xs;
  }

  /** Sorted, stated for neighbours. */
  ghost predicate Ascending(xs: seq<nat>, key: nat -> int) {
    forall i {:trigger xs[i]} :: 0 < i < |xs| ==> key(xs[i - 1]) <= key(xs[i])
  }

  lemma {:induction false} AscendingSorted(xs: seq<nat>, key: nat -> int, i: nat, j: nat)
    requires Ascending(xs, key) && i <= j < |xs|
    ensures key(xs[i]) <= key(xs[j])
  {
    if i < j {
      AscendingSorted(xs, key, i, j - 1);
    }
  }

  /** Sort by entry time and drop duplicates. */
  method SortUnique(ghost t: Tree, r: Tour, xs: seq<nat>) returns (ys: seq<nat>)
    requires TourOf(t, r) && Nodes(t, xs)
    ensures forall x :: x in ys <==> x in xs
    ensures StrictlySortedBy(ys, Key(r))
  {
    var zs := SortBy(xs, Key(r));
    SameElements(xs, zs);
    ys := Unique(zs);
    assert Ascending(zs, Key(r));
    forall i, j | 0 <= i < j < |ys| ensures Key(r)(ys[i]) < Key(r)(ys[j]) {
      AscendingSorted(ys, Key(r), i, j - 1);
      assert ys[j - 1] != ys[j] && ys[j - 1] in xs && ys[j] in xs;
      if r.tin[ys[j - 1]] == r.tin[ys[j]] {
        TinInjective(t, r, ys[j - 1], ys[j]);
      }
    }
  }

  // ----- inserting common ancestors

  /** The nodes and, behind them, the lowest common ancestor of every two neighbours. */
  method WithLcas(ghost t: Tree, r: Tour, log: seq<nat>, st: seq<seq<nat>>, nodes: seq<nat>)
    returns (full: seq<nat>, ghost lcas: seq<nat>)
    requires TourOf(t, r) && Table(r, log, st) && Nodes(t, nodes)
    ensures full == nodes + lcas && |lcas| == (if nodes == [] then 0 else |nodes| - 1) && AllJoin(t, nodes, lcas)
    ensures Nodes(t, full) && forall v :: v in full ==> Above(t, nodes, v)
  {
    full, lcas := nodes, [];
    var i := 0;
    while i < |nodes| - 1
      invariant 0 <= i && full == nodes + lcas && |lcas| == i && AllJoin(t, nodes, lcas)
      invariant if nodes == [] then i == 0 else i <= |nodes| - 1
    {
      assert nodes[i] in nodes && nodes[i + 1] in nodes;
      var l := QueryLca(t, r, log, st, nodes[i], nodes[i + 1]);
      full, lcas := full + [l], lcas + [l];
      i := i + 1;
    }
    LcasAbove(t, nodes, lcas);
  }

  ghost predicate Joins(t: Tree, nodes: seq<nat>, i: nat, l: nat)
    requires IsTree(t) && Nodes(t, nodes)
  {
    i + 1 < |nodes| && nodes[i] in nodes && nodes[i + 1] in nodes && IsLca(t, l, nodes[i], nodes[i + 1])
  }

  /** Each entry is the lowest common ancestor of two neighbours. */
  ghost predicate AllJoin(t: Tree, nodes: seq<nat>, lcas: seq<nat>)
    requires IsTree(t) && Nodes(t, nodes)
  {
    forall i {:trigger lcas[i]} :: 0 <= i < |lcas| ==> Joins(t, nodes, i, lcas[i])
  }

  lemma LcasAbove(t: Tree, nodes: seq<nat>, lcas: seq<nat>)
    requires IsTree(t) && Nodes(t, nodes) && AllJoin(t, nodes, lcas)
    ensures Nodes(t, nodes + lcas) && forall v :: v in nodes + lcas ==> Above(t, nodes, v)
  {
    SelfAbove(t, nodes);
    forall v | v in lcas ensures Node(t, v) && Above(t, nodes, v) {
      var i :| 0 <= i < |lcas| && lcas[i] == v;
      assert Joins(t, nodes, i, v);
    }
  }

  // ----- compressed parents

  /** Every node but the root has a proper ancestor in the list. */
  ghost predicate Compressed(t: Tree, full: seq<nat>, up: map<nat, nat>)
    requires IsTree(t) && Nodes(t, full)
  {
    && (forall v :: v in up <==> v in full && v != 0)
    && (forall v :: v in up ==> up[v] in full && up[v] != v && Anc(t, up[v], v))
  }

  /** That ancestor is the nearest one in the list: all others are above it. */
  ghost predicate Nearest(t: Tree, full: seq<nat>, up: map<nat, nat>)
    requires IsTree(t) && Nodes(t, full) && forall v :: v in up ==> v in full && up[v] in full
  {
    forall v, w :: v in up && w in full && w != v && Anc(t, w, v) ==> Anc(t, w, up[v])
  }

  /** The `while` loop that pops the stack down to an ancestor of v. */
  method PopTo(ghost t: Tree, r: Tour, stack: seq<nat>, v: nat) returns (rest: seq<nat>)
    requires TourOf(t, r) && Nodes(t, stack) && Node(t, v) && stack != [] && stack[0] == 0
    ensures rest != [] && rest <= stack && Anc(t, rest[|rest| - 1], v)
    ensures forall j :: |rest| <= j < |stack| ==>
              stack[j] in stack && !(r.tin[stack[j]] <= r.tin[v] <= r.tout[stack[j]])
  {
    rest := stack;
    while true
      invariant rest != [] && rest <= stack
      invariant forall j :: |rest| <= j < |stack| ==>
                  stack[j] in stack && !(r.tin[stack[j]] <= r.tin[v] <= r.tout[stack[j]])
      decreases |rest|
    {
      var top := rest[|rest| - 1];
      assert top == stack[|rest| - 1] && top in stack;
      IntervalIsAncestor(t, r, top, v);
      if r.tin[top] <= r.tin[v] <= r.tout[top] {
        return;
      }
      AncRoot(t, v);
      rest := rest[..|rest| - 1];
    }
  }

  /** Each node of the stack is above the next ones. */
  ghost predicate Chain(t: Tree, stack: seq<nat>)
    requires IsTree(t) && Nodes(t, stack)
  {
    forall a, b :: 0 <= a < b < |stack| ==> stack[a] in stack && stack[b] in stack && Anc(t, stack[a], stack[b])
  }

  /** Of the first i nodes, the stack holds every one that is above a later node. */
  ghost predicate Keeps(t: Tree, full: seq<nat>, i: nat, stack: seq<nat>)
    requires IsTree(t) && Nodes(t, full)
  {
    forall k, w {:trigger full[k], full[w]} ::
      0 <= w < i <= k < |full| ==> full[k] in full && (Anc(t, full[w], full[k]) ==> full[w] in stack)
  }

  ghost predicate StackOk(t: Tree, full: seq<nat>, i: nat, stack: seq<nat>)
    requires IsTree(t) && Nodes(t, full) && i <= |full|
  {
    && stack != [] && stack[0] == 0 && (forall u :: u in stack ==> u in full[..i])
    && Nodes(t, stack) && Chain(t, stack) && Keeps(t, full, i, stack)
  }

  method CompressedParents(ghost t: Tree, r: Tour, full: seq<nat>) returns (up: map<nat, nat>)
    requires TourOf(t, r) && Nodes(t, full) && StrictlySortedBy(full, Key(r)) && 0 in full
    ensures Compressed(t, full, up) && Nearest(t, full, up)
  {
    RootFirst(t, r, full);
    up := map[];
    var stack := [];
    for i := 0 to |full|
      invariant i == 0 ==> stack == []
      invariant i > 0 ==> StackOk(t, full, i, stack)
      invariant UpTo(t, full, i, up)
    {
      if stack == [] {
        stack := [full[i]];
        continue;
      }
      var top;
      top, stack := Place(t, r, full, i, stack);
      UpNext(t, r, full, i, up, top);
      up := up[full[i] := top];
    }
    assert full[..|full|] == full;
  }

  /** The nearest ancestors of the first i nodes. */
  ghost predicate UpTo(t: Tree, full: seq<nat>, i: nat, up: map<nat, nat>)
    requires IsTree(t) && Nodes(t, full) && i <= |full|
  {
    && (forall v :: v in up <==> v in full[..i] && v != 0)
    && (forall v :: v in up ==> v in full && up[v] in full && up[v] != v && Anc(t, up[v], v))
    && Nearest(t, full, up)
  }

  lemma UpNext(t: Tree, r: Tour, full: seq<nat>, i: nat, up: map<nat, nat>, top: nat)
    requires TourOf(t, r) && Nodes(t, full) && StrictlySortedBy(full, Key(r)) && 0 < i < |full| && full[i] != 0
    requires UpTo(t, full, i, up) && top in full[..i] && full[i] in full && Anc(t, top, full[i])
    requires forall w :: w in full && w != full[i] && Anc(t, w, full[i]) ==> Anc(t, w, top)
    ensures UpTo(t, full, i + 1, up[full[i] := top])
  {
    var v := full[i];
    assert full[..i + 1] == full[..i] + [v];
    var k :| 0 <= k < i && full[k] == top;
    assert Key(r)(full[k]) < Key(r)(full[i]);
    assert top in full && top != v;
    NearestNext(t, full, up, v, top);
  }

  lemma NearestNext(t: Tree, full: seq<nat>, up: map<nat, nat>, v: nat, top: nat)
    requires IsTree(t) && Nodes(t, full) && v in full && top in full
    requires forall x :: x in up ==> x in full && up[x] in full
    requires Nearest(t, full, up) && forall w :: w in full && w != v && Anc(t, w, v) ==> Anc(t, w, top)
    ensures Nearest(t, full, up[v := top])
  {
  }

  /** One round: the nearest ancestor of the next node, and the stack with that node. */
  method Place(ghost t: Tree, r: Tour, full: seq<nat>, i: nat, stack: seq<nat>) returns (top: nat, next: seq<nat>)
    requires TourOf(t, r) && Nodes(t, full) && StrictlySortedBy(full, Key(r)) && 0 < i < |full|
    requires StackOk(t, full, i, stack)
    ensures top in full[..i] && full[i] in full && Anc(t, top, full[i]) && StackOk(t, full, i + 1, next)
    ensures forall w :: w in full && w != full[i] && Anc(t, w, full[i]) ==> Anc(t, w, top)
  {
    assert full[i] in full;
    var rest := PopTo(t, r, stack, full[i]);
    top := rest[|rest| - 1];
    assert top == stack[|rest| - 1] && top in stack;
    AllAbove(t, r, full, i, stack, rest);
    NextStack(t, r, full, i, stack, rest);
    next := rest + [full[i]];
    assert full[..i + 1] == full[..i] + [full[i]];
  }

  /** What of the list is above the next node is above the stack's new top. */
  lemma AllAbove(t: Tree, r: Tour, full: seq<nat>, i: nat, stack: seq<nat>, rest: seq<nat>)
    requires TourOf(t, r) && Nodes(t, full) && StrictlySortedBy(full, Key(r)) && i < |full| && Nodes(t, stack)
    requires rest != [] && rest <= stack && Chain(t, stack) && Keeps(t, full, i, stack)
    requires forall j :: |rest| <= j < |stack| ==>
               stack[j] in stack && full[i] in full && !(r.tin[stack[j]] <= r.tin[full[i]] <= r.tout[stack[j]])
    ensures rest[|rest| - 1] in stack && full[i] in full
    ensures forall w :: w in full && w != full[i] && Anc(t, w, full[i]) ==> Anc(t, w, rest[|rest| - 1])
  {
    var v, top := full[i], rest[|rest| - 1];
    assert top == stack[|rest| - 1] && top in stack && v in full;
    forall w | w in full && w != v && Anc(t, w, v) ensures Anc(t, w, top) {
      var k :| 0 <= k < |full| && full[k] == w;
      IntervalIsAncestor(t, r, w, v);
      assert Key(r)(full[k]) <= Key(r)(full[i]);
      assert k < i;
      assert w in stack;
      var j :| 0 <= j < |stack| && stack[j] == w;
      assert j < |rest|;
      assert Anc(t, w, w);
    }
  }

  lemma NextStack(t: Tree, r: Tour, full: seq<nat>, i: nat, stack: seq<nat>, rest: seq<nat>)
    requires TourOf(t, r) && Nodes(t, full) && StrictlySortedBy(full, Key(r)) && i < |full| && Nodes(t, stack)
    requires rest != [] && rest <= stack && Chain(t, stack) && Keeps(t, full, i, stack)
    requires full[i] in full && rest[|rest| - 1] in stack && Anc(t, rest[|rest| - 1], full[i])
    requires forall j :: |rest| <= j < |stack| ==>
               stack[j] in stack && !(r.tin[stack[j]] <= r.tin[full[i]] <= r.tout[stack[j]])
    ensures Nodes(t, rest + [full[i]]) && Chain(t, rest + [full[i]]) && Keeps(t, full, i + 1, rest + [full[i]])
  {
    var v, top := full[i], rest[|rest| - 1];
    forall a | 0 <= a < |rest| ensures rest[a] in stack && Anc(t, rest[a], v) {
      assert rest[a] == stack[a];
      if a < |rest| - 1 {
        AncTrans(t, stack[a], top, v);
      }
    }
    forall k, w | 0 <= w < i + 1 <= k < |full|
      ensures full[k] in full && (Anc(t, full[w], full[k]) ==> full[w] in rest + [v])
    {
      if Anc(t, full[w], full[k]) && w < i {
        NotPopped(t, r, full, i, stack, rest, k, w);
      }
    }
  }

  /** A node above a later one is not popped. */
  lemma NotPopped(t: Tree, r: Tour, full: seq<nat>, i: nat, stack: seq<nat>, rest: seq<nat>, k: nat, w: nat)
    requires TourOf(t, r) && Nodes(t, full) && StrictlySortedBy(full, Key(r)) && w < i < k < |full| && Nodes(t, stack)
    requires rest <= stack && Keeps(t, full, i, stack) && full[i] in full && full[k] in full && Anc(t, full[w], full[k])
    requires forall j :: |rest| <= j < |stack| ==>
               stack[j] in stack && !(r.tin[stack[j]] <= r.tin[full[i]] <= r.tout[stack[j]])
    ensures full[w] in rest
  {
    assert full[w] in stack;
    var j :| 0 <= j < |stack| && stack[j] == full[w];
    assert full[w] in full;
    IntervalIsAncestor(t, r, full[w], full[k]);
    assert Key(r)(full[w]) < Key(r)(full[i]) < Key(r)(full[k]);
    assert j < |rest|;
    assert rest[j] == full[w];
  }

  lemma RootFirst(t: Tree, r: Tour, full: seq<nat>)
    requires TourOf(t, r) && Nodes(t, full) && StrictlySortedBy(full, Key(r)) && 0 in full
    ensures full[0] == 0 && forall i :: 1 <= i < |full| ==> full[i] != 0
  {
    var j :| 0 <= j < |full| && full[j] == 0;
    if j > 0 {
      assert full[0] in full;
      BelowDuring(t, r, 0, full[0]) by {
        AncRoot(t, full[0]);
      }
      assert false;
    }
  }

  // ----- expanding the compressed edges

  ghost predicate EdgesAt(adj: Adj, added: set<(nat, nat)>, p: nat)
    requires p in adj
  {
    (forall c :: c in adj[p] <==> (p, c) in added) && Distinct(adj[p])
  }

  /** The adjacency lists hold exactly the edges added, all of them edges of the tree. */
  ghost predicate Expanded(t: Tree, full: seq<nat>, adj: Adj, added: set<(nat, nat)>)
    requires IsTree(t) && Nodes(t, full)
  {
    && (forall v :: v in full ==> v in adj)
    && (forall v :: v in adj ==> Above(t, full, v))
    && (forall p {:trigger EdgesAt(adj, added, p)} :: p in adj ==> EdgesAt(adj, added, p))
    && (forall p, c :: (p, c) in added ==> p in adj && c in adj && 0 < c < |t.par| && t.par[c] == p)
  }

  /** Every edge between child and the ancestor top has been added. */
  ghost predicate Covered(t: Tree, added: set<(nat, nat)>, child: nat, top: nat)
    requires IsTree(t) && Node(t, child)
  {
    forall x: nat :: 0 < x < |t.par| && Anc(t, x, child) && Anc(t, top, x) && x != top ==> (t.par[x], x) in added
  }

  /** One step of the expansion: the edge p -> c, unless it is there. */
  method AddEdge(ghost t: Tree, ghost full: seq<nat>, adj: Adj, added: set<(nat, nat)>, p: nat, c: nat)
    returns (adj': Adj, added': set<(nat, nat)>)
    requires IsTree(t) && Nodes(t, full) && Expanded(t, full, adj, added)
    requires 0 < c < |t.par| && t.par[c] == p && c in adj
    ensures Expanded(t, full, adj', added')
    ensures added' == added + {(p, c)} && p in adj' && forall v :: v in adj ==> v in adj'
  {
    adj', added' := adj, added;
    ParentAbove(t, full, c);
    if (p, c) !in added {
      var before := if p in adj then adj[p] else [];
      if p in adj {
        assert EdgesAt(adj, added, p);
      }
      added' := added + {(p, c)};
      adj' := adj[p := before + [c]];
      forall q | q in adj' ensures EdgesAt(adj', added', q) {
        if q != p {
          assert EdgesAt(adj, added, q);
        }
      }
    }
  }

  lemma ParentAbove(t: Tree, full: seq<nat>, c: nat)
    requires IsTree(t) && Nodes(t, full) && 0 < c < |t.par| && Above(t, full, c)
    ensures Above(t, full, t.par[c])
  {
    var n :| n in full && Anc(t, c, n);
    assert Anc(t, t.par[c], c);
    AncTrans(t, t.par[c], c, n);
  }

  /** Walk from child up to top, adding the edges on the way. */
  method ExpandEdge(ghost t: Tree, r: Tour, ghost full: seq<nat>, adj: Adj, added: set<(nat, nat)>, child: nat,
                    top: nat)
    returns (adj': Adj, added': set<(nat, nat)>)
    requires TourOf(t, r) && Nodes(t, full) && Expanded(t, full, adj, added)
    requires child in full && Anc(t, top, child)
    ensures Expanded(t, full, adj', added') && added <= added' && Covered(t, added', child, top)
  {
    adj', added' := adj, added;
    var cur := child;
    CoveredStart(t, added, child);
    while cur != top
      invariant Node(t, cur) && cur in adj' && Anc(t, top, cur) && Anc(t, cur, child)
      invariant Expanded(t, full, adj', added') && added <= added'
      invariant Covered(t, added', child, cur)
      decreases cur
    {
      assert Placed(t, r, cur);
      var p := r.parent[cur];
      CoveredStep(t, added', child, cur);
      adj', added' := AddEdge(t, full, adj', added', p, cur);
      AncTrans(t, p, cur, child) by {
        assert Anc(t, p, p);
      }
      cur := p;
    }
  }

  lemma CoveredStart(t: Tree, added: set<(nat, nat)>, child: nat)
    requires IsTree(t) && Node(t, child)
    ensures Covered(t, added, child, child)
  {
    forall x: nat | 0 < x < |t.par| && Anc(t, x, child) && Anc(t, child, x) ensures x == child {
      AncBelow(t, x, child);
      AncBelow(t, child, x);
    }
  }

  /** Every compressed edge outside todo has been expanded. */
  ghost predicate Done(t: Tree, up: map<nat, nat>, todo: set<nat>, added: set<(nat, nat)>)
    requires IsTree(t) && forall c :: c in up ==> Node(t, c)
  {
    forall c {:trigger up[c]} :: c in up && c !in todo ==> Covered(t, added, c, up[c])
  }

  lemma DoneMore(t: Tree, up: map<nat, nat>, todo: set<nat>, added: set<(nat, nat)>, added': set<(nat, nat)>,
                 child: nat)
    requires IsTree(t) && added <= added' && forall c :: c in up ==> Node(t, c)
    requires Done(t, up, todo, added) && child in up && Covered(t, added', child, up[child])
    ensures Done(t, up, todo - {child}, added')
  {
  }

  lemma CoveredStep(t: Tree, added: set<(nat, nat)>, child: nat, cur: nat)
    requires IsTree(t) && Node(t, child) && Anc(t, cur, child) && 0 < cur < |t.par|
    requires Covered(t, added, child, cur)
    ensures Covered(t, added + {(t.par[cur], cur)}, child, t.par[cur])
  {
    var p := t.par[cur];
    forall x: nat | 0 < x < |t.par| && Anc(t, x, child) && Anc(t, p, x) && x != p
      ensures (t.par[x], x) in added + {(p, cur)}
    {
      if x != cur && !Anc(t, cur, x) {
        AncChain(t, cur, x, child);
        assert Anc(t, x, p);
        AncBelow(t, x, p);
        AncBelow(t, p, x);
        assert false;
      }
    }
  }

  /** All edges above a node of the list are added once every compressed edge is expanded. */
  lemma {:induction false} AllCovered(t: Tree, full: seq<nat>, up: map<nat, nat>, added: set<(nat, nat)>, n: nat,
                                      v: nat)
    requires IsTree(t) && Nodes(t, full) && Compressed(t, full, up)
    requires Done(t, up, {}, added)
    requires n in full && Anc(t, v, n) && v > 0
    ensures v < |t.par| && (t.par[v], v) in added
    decreases n
  {
    AncBelow(t, v, n);
    var top := up[n];
    assert Covered(t, added, n, top);
    AncChain(t, v, top, n);
    if v == top || !Anc(t, top, v) {
      AncBelow(t, top, n);
      AllCovered(t, full, up, added, top, v);
    }
  }

  method ExpandAll(ghost t: Tree, r: Tour, full: seq<nat>, up: map<nat, nat>)
    returns (adj: Adj, ghost added: set<(nat, nat)>)
    requires TourOf(t, r) && Nodes(t, full) && Compressed(t, full, up)
    ensures Expanded(t, full, adj, added)
    ensures Done(t, up, {}, added)
  {
    adj := map v | v in full :: [];
    var edges: set<(nat, nat)> := {};
    SelfAbove(t, full);
    var todo := up.Keys;
    while todo != {}
      invariant todo <= up.Keys && Expanded(t, full, adj, edges)
      invariant Done(t, up, todo, edges)
      decreases todo
    {
      var child :| child in todo;
      ghost var before := edges;
      adj, edges := ExpandEdge(t, r, full, adj, edges, child, up[child]);
      DoneMore(t, up, todo, before, edges, child);
      todo := todo - {child};
    }
    added := edges;
  }

  lemma SelfAbove(t: Tree, full: seq<nat>)
    requires IsTree(t) && Nodes(t, full)
    ensures forall v :: v in full ==> Above(t, full, v)
  {
    forall v | v in full ensures Above(t, full, v) {
      assert Anc(t, v, v);
    }
  }

  // ----- children in tour order

  method SortChildren(ghost t: Tree, r: Tour, adj: Adj) returns (adj': Adj)
    ensures adj'.Keys == adj.Keys
    ensures forall p :: p in adj ==> multiset(adj'[p]) == multiset(adj[p]) && SortedBy(adj'[p], Key(r))
  {
    adj' := map[];
    var todo := adj.Keys;
    while todo != {}
      invariant todo <= adj.Keys && adj'.Keys == adj.Keys - todo
      invariant forall p :: p in adj' ==> multiset(adj'[p]) == multiset(adj[p]) && SortedBy(adj'[p], Key(r))
      decreases todo
    {
      var p :| p in todo;
      var sorted := SortBy(adj[p], Key(r));
      adj' := adj'[p := sorted];
      todo := todo - {p};
    }
  }

  lemma SortedList(t: Tree, r: Tour, adj: Adj, added: set<(nat, nat)>, adj': Adj, full: seq<nat>, p: nat)
    requires TourOf(t, r) && Nodes(t, full) && Expanded(t, full, adj, added) && p in adj && adj'.Keys == adj.Keys
    requires multiset(adj'[p]) == multiset(adj[p]) && SortedBy(adj'[p], Key(r))
    requires forall c :: c in adj && c > 0 ==> c < |t.par| && (t.par[c], c) in added
    ensures ListedAt(t, r, adj', p)
  {
    var xs := adj'[p];
    assert EdgesAt(adj, added, p);
    SameElements(adj[p], xs);
    DistinctPermutation(adj[p], xs);
    forall i, j | 0 <= i < j < |xs| && Key(r)(xs[i]) == Key(r)(xs[j]) ensures xs[i] == xs[j] {
      assert xs[i] in xs && xs[j] in xs;
      assert (p, xs[i]) in added && (p, xs[j]) in added;
      TinInjective(t, r, xs[i], xs[j]);
    }
    SortedStrict(xs, Key(r));
  }

  lemma SameAbove(t: Tree, nodes: seq<nat>, full: seq<nat>, v: nat)
    requires IsTree(t) && Nodes(t, nodes) && Nodes(t, full)
    requires forall n :: n in nodes ==> n in full
    requires forall m :: m in full ==> Above(t, nodes, m)
    ensures Above(t, nodes, v) <==> Above(t, full, v)
  {
    if v != 0 && Above(t, full, v) {
      var m :| m in full && Anc(t, v, m);
      AncBelow(t, v, m);
      var n :| n in nodes && Anc(t, m, n);
      AncTrans(t, v, m, n);
    }
  }

  /** The root counts as one of the nodes. */
  lemma RootAbove(t: Tree, input: seq<nat>, nodes: seq<nat>, v: nat)
    requires IsTree(t) && Nodes(t, nodes) && Nodes(t, input)
    requires forall n :: n in nodes <==> n in input || n == 0
    ensures Above(t, input, v) <==> Above(t, nodes, v)
  {
    assert Anc(t, v, 0) ==> v == 0;
  }

  /** Expansion of the tour-ordered list. */
  method Connect(ghost t: Tree, r: Tour, full: seq<nat>) returns (adj: Adj)
    requires TourOf(t, r) && Nodes(t, full) && StrictlySortedBy(full, Key(r)) && 0 in full
    ensures IsSteiner(t, r, full, adj)
  {
    var up := CompressedParents(t, r, full);
    var lists, added := ExpandAll(t, r, full, up);
    adj := SortChildren(t, r, lists);
    KeysAbove(t, full, up, lists, added);
    forall p | p in adj ensures ListedAt(t, r, adj, p) {
      SortedList(t, r, lists, added, adj, full, p);
    }
  }

  /** `build_steiner_tree`. */
  method BuildSteinerTree(ghost t: Tree, r: Tour, log: seq<nat>, st: seq<seq<nat>>, input: seq<nat>) returns (adj: Adj)
    requires TourOf(t, r) && Table(r, log, st) && Nodes(t, input)
    ensures IsSteiner(t, r, input, adj)
  {
    var nodes := if 0 in input then input else input + [0];
    nodes := SortUnique(t, r, nodes);
    var full;
    ghost var lcas;
    full, lcas := WithLcas(t, r, log, st, nodes);
    full := SortUnique(t, r, full);
    adj := Connect(t, r, full);
    forall v: nat ensures v in adj <==> Above(t, input, v) {
      SameAbove(t, nodes, full, v);
      RootAbove(t, input, nodes, v);
    }
  }

  lemma KeysAbove(t: Tree, full: seq<nat>, up: map<nat, nat>, adj: Adj, added: set<(nat, nat)>)
    requires IsTree(t) && Nodes(t, full) && Compressed(t, full, up) && Expanded(t, full, adj, added) && 0 in full
    requires Done(t, up, {}, added)
    ensures forall v: nat :: v in adj <==> Above(t, full, v)
    ensures forall c :: c in adj && c > 0 ==> c < |t.par| && (t.par[c], c) in added
  {
    forall v: nat | Above(t, full, v) && v > 0 ensures v in adj && v < |t.par| && (t.par[v], v) in added {
      var n :| n in full && Anc(t, v, n);
      AllCovered(t, full, up, added, n, v);
    }
  }
}
