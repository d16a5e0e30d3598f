/** The graph of patches between recorded times: its sorted vertex list, its cost matrix over
    dense indices, and the shortest chain of patches between two times. */
module PatchGraph {
  import opened Values
  import opened Sorting

  datatype Patch = Patch(from: int, to: int, cost: nat, ops: seq<Op>)

  type Patches = map<(int, int), Patch>

  type Matrix = map<(nat, nat), nat>

  /** How many operations a patch counts for: an empty one counts as one. */
  function Weight(ops: seq<Op>): (n: nat)
    ensures ops != [] ==> n == |ops|
    ensures ops == [] ==> n == 1
  {
    if ops == [] then 1 else |ops|
  }

  /** The patch costs one for each operation, and one if it has none. */
  ghost predicate Priced(p: Patch) {
    (p.ops != [] ==> p.cost == |p.ops|) && (p.ops == [] ==> p.cost == 1)
  }

  ghost predicate AllPriced(patches: Patches) {
    forall k {:trigger patches[k]} :: k in patches ==> Priced(patches[k])
  }

  /** `compute_cost` on creation. */
  function NewPatch(from: int, to: int, ops: seq<Op>): (p: Patch)
    ensures Priced(p) && p.cost >= 1
  {
    Patch(from, to, if |ops| == 0 then 1 else |ops|, ops)
  }

  // ----- chains of patches

  ghost predicate Keyed(patches: Patches, p: Patch) {
    (p.from, p.to) in patches && patches[(p.from, p.to)] == p
  }

  /** The path leads from a to b, each patch starting where the one before it ends. */
  ghost predicate Chained(patches: Patches, path: seq<Patch>, a: int, b: int)
    decreases |path|
  {
    if path == [] then a == b
    else path[0].from == a && Keyed(patches, path[0]) && Chained(patches, path[1..], path[0].to, b)
  }

  function Total(path: seq<Patch>): nat {
    if path == [] then 0 else path[0].cost + Total(path[1..])
  }

  /** `cost`: the sum of the costs, at least 1. */
  function Cost(path: seq<Patch>): nat {
    if Total(path) < 1 then 1 else Total(path)
  }

  /** No chain from a to b is cheaper. */
  ghost predicate ShortestChain(patches: Patches, path: seq<Patch>, a: int, b: int) {
    Chained(patches, path, a, b) && forall q :: Chained(patches, q, a, b) ==> Total(path) <= Total(q)
  }

  /** The operations of a chain, an empty patch counted as one. */
  function Operations(path: seq<Patch>): nat {
    if path == [] then 0 else Weight(path[0].ops) + Operations(path[1..])
  }

  /** No chain from a to b has fewer operations. */
  ghost predicate FewestOperations(patches: Patches, path: seq<Patch>, a: int, b: int) {
    Chained(patches, path, a, b) && forall q :: Chained(patches, q, a, b) ==> Operations(path) <= Operations(q)
  }

  /** Where every patch costs its operations, a chain does too. */
  lemma {:induction false} TotalIsOperations(patches: Patches, path: seq<Patch>, a: int, b: int)
    requires AllPriced(patches) && Chained(patches, path, a, b)
    ensures Total(path) == Operations(path)
    decreases |path|
  {
    if path != [] {
      assert Priced(patches[(path[0].from, path[0].to)]);
      TotalIsOperations(patches, path[1..], path[0].to, b);
    }
  }

  /** So the cheapest chains are those with the fewest operations. */
  lemma CheapestIsFewest(patches: Patches, path: seq<Patch>, a: int, b: int)
    requires AllPriced(patches)
    ensures ShortestChain(patches, path, a, b) <==> FewestOperations(patches, path, a, b)
  {
    forall q | Chained(patches, q, a, b) ensures Total(q) == Operations(q) {
      TotalIsOperations(patches, q, a, b);
    }
  }

  function Reversed<T>(s: seq<T>): (r: seq<T>) {
    if s == [] then [] else [Last(s)] + Reversed(Init(s))
  }

  // ----- the shortest-path routine, by specification

  /** Distances and predecessors from one source. */
  datatype Routes = Routes(dist: seq<Option<nat>>, pred: seq<int>)

  const UNREACHED := -9999

  ghost predicate Entered(m: Matrix, r: Routes, v: nat)
    requires v < |r.dist| == |r.pred|
  {
    && r.dist[v].Some? && 0 <= r.pred[v] < |r.dist|
    && (r.pred[v], v) in m && r.dist[r.pred[v]].Some?
    && r.dist[v].value == r.dist[r.pred[v]].value + m[(r.pred[v], v)]
  }

  /** What the library promises: every edge is relaxed, every reached node but the source is
      entered over an edge that attains its distance, and the others are marked. */
  ghost predicate RoutesFrom(n: nat, m: Matrix, src: nat, r: Routes) {
    && |r.dist| == |r.pred| == n && src < n
    && r.dist[src] == Some(0)
    && (forall u: nat, v: nat :: (u, v) in m && u < n && v < n && r.dist[u].Some? ==>
          r.dist[v].Some? && r.dist[v].value <= r.dist[u].value + m[(u, v)])
    && (forall v: nat {:trigger Entered(m, r, v)} :: v < n && v != src && r.dist[v].Some? ==> Entered(m, r, v))
    && (forall v: nat :: v < n && (v == src || r.dist[v].None?) ==> r.pred[v] == UNREACHED)
  }

  type Dijkstra = (nat, Matrix, nat) -> Routes

  /** Every entry costs at least 1; the sparse matrix reads a zero as no edge. */
  ghost predicate Positive(m: Matrix) {
    forall k :: k in m ==> m[k] >= 1
  }

  ghost predicate Solves(dijkstra: Dijkstra) {
    forall n: nat, m: Matrix, src: nat :: src < n && Positive(m) ==> RoutesFrom(n, m, src, dijkstra(n, m, src))
  }

  // ----- recorded times

  ghost predicate Rising(s: seq<int>) {
    forall i, j :: 0 <= i < j < |s| ==> s[i] < s[j]
  }

  /** r is the greatest recorded time not after t, if there is one. */
  ghost predicate IsPrev(stamps: seq<int>, t: int, r: Option<int>) {
    && (r.Some? ==> r.value in stamps && r.value <= t && forall x :: x in stamps && x <= t ==> x <= r.value)
    && (r.None? ==> forall x :: x in stamps ==> x > t)
  }

  ghost function PrevOf(stamps: seq<int>, t: int): Option<int> {
    if stamps == [] then None
    else if Last(stamps) <= t then Some(Last(stamps))
    else PrevOf(Init(stamps), t)
  }

  lemma {:induction false} PrevIs(stamps: seq<int>, t: int)
    requires Rising(stamps)
    ensures IsPrev(stamps, t, PrevOf(stamps, t))
    ensures stamps != [] && stamps[0] <= t ==> PrevOf(stamps, t).Some?
  {
    if stamps != [] {
      assert forall x :: x in stamps <==> x in Init(stamps) || x == Last(stamps);
      if Last(stamps) > t {
        PrevIs(Init(stamps), t);
      } else {
        assert forall x :: x in Init(stamps) ==> x <= Last(stamps);
      }
    }
  }

  lemma PrevUnique(stamps: seq<int>, t: int, r: Option<int>)
    requires Rising(stamps) && IsPrev(stamps, t, r)
    ensures r == PrevOf(stamps, t)
  {
    PrevIs(stamps, t);
  }

  /** `bisect_right`. */
  method BisectRight(s: seq<int>, t: int) returns (i: nat)
    requires Rising(s)
    ensures i <= |s| && (forall j :: 0 <= j < i ==> s[j] <= t) && (forall j :: i <= j < |s| ==> s[j] > t)
  {
    var lo, hi := 0, |s|;
    while lo < hi
      invariant 0 <= lo <= hi <= |s|
      invariant (forall j :: 0 <= j < lo ==> s[j] <= t) && (forall j :: hi <= j < |s| ==> s[j] > t)
    {
      var mid := (lo + hi) / 2;
      if t < s[mid] {
        hi := mid;
      } else {
        lo := mid + 1;
      }
    }
    return lo;
  }

  method SortedTimes(ts: set<int>) returns (s: seq<int>)
    ensures Rising(s) && forall t :: t in s <==> t in ts
  {
    var listed := Listed(ts);
    s := SortBy(listed, (t: int) => t);
    SameElements(listed, s);
    DistinctPermutation(listed, s);
    SortedStrict(s, (t: int) => t);
  }

  // ----- vertices and the matrix

  /** The matrix says what the patch map says. */
  ghost predicate Agree(stamps: seq<int>, patches: Patches, m: Matrix) {
    && (forall u: nat, v: nat :: (u, v) in m <==> u < |stamps| && v < |stamps| && (stamps[u], stamps[v]) in patches)
    && (forall u: nat, v: nat :: (u, v) in m ==> m[(u, v)] == patches[(stamps[u], stamps[v])].cost)
  }

  ghost predicate Indexes(stamps: seq<int>, dense: map<int, nat>) {
    && Rising(stamps)
    && (forall t :: t in dense <==> t in stamps)
    && (forall i :: 0 <= i < |stamps| ==> stamps[i] in dense && dense[stamps[i]] == i)
  }

  /** `create_dense_indices`. */
  method CreateDenseIndices(stamps: seq<int>) returns (dense: map<int, nat>)
    requires Rising(stamps)
    ensures Indexes(stamps, dense)
  {
    dense := map[];
    for i := 0 to |stamps|
      invariant forall t :: t in dense <==> t in stamps[..i]
      invariant forall j :: 0 <= j < i ==> stamps[j] in dense && dense[stamps[j]] == j
    {
      dense := dense[stamps[i] := i];
    }
    assert stamps[..|stamps|] == stamps;
  }

  /** One entry more in both. */
  lemma AgreeAdd(stamps: seq<int>, dense: map<int, nat>, patches: Patches, m: Matrix, p: Patch)
    requires Indexes(stamps, dense) && Agree(stamps, patches, m) && p.from in stamps && p.to in stamps
    ensures p.from in dense && p.to in dense
    ensures Agree(stamps, patches[(p.from, p.to) := p], m[(dense[p.from], dense[p.to]) := p.cost])
  {
    var a, b := dense[p.from], dense[p.to];
    forall u: nat, v: nat | u < |stamps| && v < |stamps|
      ensures (stamps[u], stamps[v]) == (p.from, p.to) <==> (u, v) == (a, b)
    {
      assert dense[stamps[u]] == u && dense[stamps[v]] == v;
    }
  }

  /** `create_lil_matrix`: one entry per patch, in any order. */
  method CreateMatrix(stamps: seq<int>, dense: map<int, nat>, patches: Patches) returns (m: Matrix)
    requires Indexes(stamps, dense)
    requires forall k :: k in patches ==> k.0 in stamps && k.1 in stamps && k == (patches[k].from, patches[k].to)
    ensures Agree(stamps, patches, m)
  {
    m := map[];
    var todo, done: Patches := patches, map[];
    while todo != map[]
      invariant forall k :: k in patches <==> k in todo || k in done
      invariant forall k :: k in todo ==> todo[k] == patches[k]
      invariant forall k :: k in done ==> done[k] == patches[k] && k !in todo
      invariant Agree(stamps, done, m)
      decreases todo.Keys
    {
      var k :| k in todo;
      var p := todo[k];
      AgreeAdd(stamps, dense, done, m, p);
      m := m[(dense[k.0], dense[k.1]) := p.cost];
      done := done[k := p];
      todo := todo - {k};
    }
    assert done == patches;
  }

  class Graph {
    var stamps: seq<int>
    var pending: set<int>
    var patches: Patches
    var dense: map<int, nat>
    var lil: Matrix
    var csr: Matrix
    var upToDate: bool

    ghost predicate Edges()
      reads this
    {
      forall k :: k in patches ==> k == (patches[k].from, patches[k].to) && patches[k].cost >= 1
    }

    /** A graph ready for use. */
    ghost predicate Valid()
      reads this
    {
      && Indexes(stamps, dense) && Edges() && Agree(stamps, patches, lil)
      && (forall k :: k in patches ==> k.0 in stamps && k.1 in stamps)
      && (upToDate ==> csr == lil)
    }

    constructor ()
      ensures stamps == [] && pending == {} && patches == map[] && Edges()
    {
      stamps, pending, patches, dense, lil, csr, upToDate := [], {}, map[], map[], map[], map[], false;
    }

    /** `add_edge_and_vertices`. */
    method AddEdgeAndVertices(p: Patch)
      requires Edges() && p.cost >= 1
      modifies this
      ensures Edges() && patches == old(patches)[(p.from, p.to) := p] && pending == old(pending) + {p.from, p.to}
    {
      patches := patches[(p.from, p.to) := p];
      pending := pending + {p.from, p.to};
    }

    /** `finalize`. */
    method Finalize()
      requires Edges() && forall k :: k in patches ==> k.0 in pending && k.1 in pending
      modifies this
      ensures Valid() && patches == old(patches) && pending == {}
      ensures forall t :: t in stamps <==> t in old(pending)
    {
      upToDate := false;
      stamps := SortedTimes(pending);
      pending := {};
      dense := CreateDenseIndices(stamps);
      lil := CreateMatrix(stamps, dense, patches);
      csr := lil;
      upToDate := true;
    }

    /** `find_prev_timestamp`. */
    method FindPrevTimestamp(target: int) returns (r: Option<int>)
      requires Valid()
      ensures r == PrevOf(stamps, target)
      ensures r.Some? ==> r.value in stamps
      ensures stamps != [] && stamps[0] <= target ==> r.Some?
    {
      var i := BisectRight(stamps, target);
      r := if i > 0 then Some(stamps[i - 1]) else None;
      PrevUnique(stamps, target, r);
    }

    /** `add_edge`: refused for a time that is no vertex. */
    method AddEdge(p: Patch) returns (ok: bool)
      requires Valid() && p.cost >= 1
      modifies this
      ensures Valid() && stamps == old(stamps) && dense == old(dense)
      ensures ok <==> p.from in stamps && p.to in stamps
      ensures patches == if ok then old(patches)[(p.from, p.to) := p] else old(patches)
    {
      if p.from !in dense || p.to !in dense {
        return false;
      }
      AgreeAdd(stamps, dense, patches, lil, p);
      patches := patches[(p.from, p.to) := p];
      lil := lil[(dense[p.from], dense[p.to]) := p.cost];
      upToDate := false;
      return true;
    }

    /** `update_graph`. */
    method UpdateGraph()
      requires Valid()
      modifies `csr, `upToDate
      ensures Valid() && csr == lil
    {
      if !upToDate {
        csr := lil;
        upToDate := true;
      }
    }

    /** `_find_patch_path_exact`: a cheapest chain of patches between two recorded times;
        none exactly when there is no chain at all.  The walk over the predecessors ends
        because every edge costs at least 1. */
    method FindPatchPathExact(from: int, to: int, dijkstra: Dijkstra) returns (r: Option<seq<Patch>>)
      requires Valid() && from in stamps && to in stamps && Solves(dijkstra)
      modifies `csr, `upToDate
      ensures Valid()
      ensures r.Some? ==> ShortestChain(patches, r.value, from, to)
      ensures r.None? ==> forall q :: !Chained(patches, q, from, to)
    {
      if from == to {
        return Some([]);
      }
      UpdateGraph();
      var src, dst := dense[from], dense[to];
      Costs(stamps, patches, csr);
      var routes := dijkstra(|stamps|, csr, src);
      Decided(stamps, dense, patches, csr, routes, from, to);
      if routes.pred[dst] == UNREACHED {
        return None;
      }
      var path := Reconstruct(stamps, dense, patches, csr, src, dst, routes);
      return Some(path);
    }

    /** `find_patch_path`. */
    method FindPatchPath(from: int, to: int, dijkstra: Dijkstra) returns (r: Option<seq<Patch>>)
      requires Valid() && Solves(dijkstra)
      modifies `csr, `upToDate
      ensures Valid()
      ensures r.Some? ==>
                && PrevOf(stamps, from).Some? && PrevOf(stamps, to).Some?
                && ShortestChain(patches, r.value, PrevOf(stamps, from).value, PrevOf(stamps, to).value)
      ensures r.None? && PrevOf(stamps, from).Some? && PrevOf(stamps, to).Some? ==>
                forall q :: !Chained(patches, q, PrevOf(stamps, from).value, PrevOf(stamps, to).value)
    {
      if |stamps| == 0 {
        return None;
      }
      var a := FindPrevTimestamp(from);
      var b := FindPrevTimestamp(to);
      if a.None? || b.None? {
        return None;
      }
      r := FindPatchPathExact(a.value, b.value, dijkstra);
    }
  }

  lemma Costs(stamps: seq<int>, patches: Patches, m: Matrix)
    requires Agree(stamps, patches, m) && forall k :: k in patches ==> patches[k].cost >= 1
    ensures Positive(m)
  {
    forall k | k in m ensures m[k] >= 1 {
      var (u, v) := k;
      assert (u, v) in m;
    }
  }

  /** No chain costs less than the distance. */
  lemma {:induction false} ChainCost(stamps: seq<int>, dense: map<int, nat>, patches: Patches, m: Matrix, src: nat,
                                     r: Routes, q: seq<Patch>, a: int, b: int)
    requires Indexes(stamps, dense) && Agree(stamps, patches, m) && RoutesFrom(|stamps|, m, src, r)
    requires forall k :: k in patches ==> k.0 in stamps && k.1 in stamps
    requires Chained(patches, q, a, b) && a in stamps && r.dist[dense[a]].Some?
    ensures b in stamps && r.dist[dense[b]].Some?
    ensures r.dist[dense[b]].value <= r.dist[dense[a]].value + Total(q)
    decreases |q|
  {
    if q != [] {
      var c := q[0].to;
      assert (a, c) in patches;
      assert stamps[dense[a]] == a && stamps[dense[c]] == c;
      assert (dense[a], dense[c]) in m;
      ChainCost(stamps, dense, patches, m, src, r, q[1..], c, b);
    }
  }

  /** What the routes say about all chains between two times. */
  lemma Decided(stamps: seq<int>, dense: map<int, nat>, patches: Patches, m: Matrix, r: Routes, from: int, to: int)
    requires Indexes(stamps, dense) && Agree(stamps, patches, m) && from in stamps && to in stamps && from != to
    requires forall k :: k in patches ==> k.0 in stamps && k.1 in stamps
    requires RoutesFrom(|stamps|, m, dense[from], r)
    ensures dense[from] < |stamps| && dense[to] < |stamps| && stamps[dense[from]] == from && stamps[dense[to]] == to
    ensures r.pred[dense[to]] == UNREACHED <==> r.dist[dense[to]].None?
    ensures forall q :: Chained(patches, q, from, to) ==> r.dist[dense[to]].Some? && r.dist[dense[to]].value <= Total(q)
  {
    var i :| 0 <= i < |stamps| && stamps[i] == from;
    var j :| 0 <= j < |stamps| && stamps[j] == to;
    assert r.dist[j].Some? ==> Entered(m, r, j);
    forall q | Chained(patches, q, from, to) ensures r.dist[j].Some? && r.dist[j].value <= Total(q) {
      ChainCost(stamps, dense, patches, m, i, r, q, from, to);
    }
  }

  /** The reconstruction loop. */
  method Reconstruct(stamps: seq<int>, dense: map<int, nat>, patches: Patches, m: Matrix, src: nat, dst: nat, r: Routes)
    returns (path: seq<Patch>)
    requires Indexes(stamps, dense) && Agree(stamps, patches, m) && RoutesFrom(|stamps|, m, src, r)
    requires forall k :: k in patches ==> k == (patches[k].from, patches[k].to) && patches[k].cost >= 1
    requires src < |stamps| && dst < |stamps| && r.dist[dst].Some?
    ensures Chained(patches, path, stamps[src], stamps[dst]) && Total(path) == r.dist[dst].value
  {
    var back: seq<Patch> := [];
    var cur := dst;
    while cur != src
      invariant 0 <= cur < |stamps| && r.dist[cur].Some?
      invariant Chained(patches, Reversed(back), stamps[cur], stamps[dst])
      invariant r.dist[cur].value + Total(Reversed(back)) == r.dist[dst].value
      decreases r.dist[cur].value
    {
      assert Entered(m, r, cur);
      var prev := r.pred[cur];
      var p := patches[(stamps[prev], stamps[cur])];
      assert Init(back + [p]) == back;
      assert ([p] + Reversed(back))[1..] == Reversed(back);
      back := back + [p];
      cur := prev;
    }
    path := Reversed(back);
  }
}
