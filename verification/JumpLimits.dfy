/** A family of recordings in which a jump fails although source and target are the same
    state: what one patch adds the next one removes, so merging leaves an empty patch. */
module JumpLimits {
  import opened Values
  import opened LongPatch
  import opened Collapse
  import opened Cancellation
  import opened PatchGraph
  import opened Jump
  import Subtree = OpTree
  import PathTree
  import PathIndex
  import Builder = LongPatchBuilder
  import Recording

  type Entries = seq<(Key, Value)>

  /** Entries with different keys that the dict d does not have. */
  ghost predicate NewTo(d: Value, es: Entries) {
    && d.Node? && d.kind.Dict? && WellFormed(d)
    && (forall i :: 0 <= i < |es| ==> es[i].0 !in d.kids && WellFormed(es[i].1))
    && (forall i, j :: 0 <= i < j < |es| ==> es[i].0 != es[j].0)
  }

  function Filled(d: Value, es: Entries): (r: Value)
    requires d.Node?
    ensures r.Node? && r.kind == d.kind
  {
    if es == [] then d else Node(d.kind, Filled(d, Init(es)).kids[Last(es).0 := Last(es).1])
  }

  function Adds(es: Entries): (r: seq<Op>)
    ensures |r| == |es| && forall i :: 0 <= i < |es| ==> r[i] == Op(0, Add, [es[i].0], es[i].1)
  {
    seq(|es|, i requires 0 <= i < |es| => Op(0, Add, [es[i].0], es[i].1))
  }

  /** The removals, last entry first, as the comparison of two dicts writes its backward patch. */
  function Removes(es: Entries): (r: seq<Op>)
    ensures |r| == |es| && forall i :: 0 <= i < |es| ==> r[i] == Op(0, Remove, [es[|es| - 1 - i].0], NONE)
  {
    seq(|es|, i requires 0 <= i < |es| => Op(0, Remove, [es[|es| - 1 - i].0], NONE))
  }

  lemma {:induction false} FilledKeys(d: Value, es: Entries, k: Key)
    requires d.Node?
    ensures k in Filled(d, es).kids <==> k in d.kids || exists i :: 0 <= i < |es| && es[i].0 == k
  {
    if es != [] {
      FilledKeys(d, Init(es), k);
      assert forall i :: 0 <= i < |es| - 1 ==> es[i] == Init(es)[i];
    }
  }

  lemma NewToInit(d: Value, es: Entries)
    requires NewTo(d, es) && es != []
    ensures NewTo(d, Init(es)) && Last(es).0 !in Filled(d, Init(es)).kids
  {
    FilledKeys(d, Init(es), Last(es).0);
  }

  /** An operation on an entry of a dict. */
  lemma KeyStep(v: Value, op: Op)
    requires v.Node? && v.kind.Dict? && |op.path| == 1 && !op.kind.Replace?
    requires op.path[0] in v.kids <==> op.kind.Remove?
    ensures SlotStep(op, Some(v)) ==
            Some(Some(Node(Dict, Assign(v.kids, op.path[0], if op.kind.Add? then Some(op.value) else None))))
  {
    assert Tail(op).path == [];
  }

  lemma {:induction false} AddsRun(d: Value, es: Entries)
    requires NewTo(d, es)
    ensures SlotRun(Some(d), Adds(es)) == Some(Some(Filled(d, es)))
  {
    if es != [] {
      NewToInit(d, es);
      AddsRun(d, Init(es));
      assert Init(Adds(es)) == Adds(Init(es)) && Last(Adds(es)) == Op(0, Add, [Last(es).0], Last(es).1);
      KeyStep(Filled(d, Init(es)), Last(Adds(es)));
    }
  }

  lemma {:induction false} RemovesRun(d: Value, es: Entries)
    requires NewTo(d, es)
    ensures SlotRun(Some(Filled(d, es)), Removes(es)) == Some(Some(d))
  {
    if es != [] {
      NewToInit(d, es);
      RemovesRun(d, Init(es));
      var op := Op(0, Remove, [Last(es).0], NONE);
      RemoveLast(d, es, op);
      assert Removes(es) == [op] + Removes(Init(es));
      RunAppend(Some(Filled(d, es)), [op], Removes(Init(es)));
    }
  }

  lemma RemoveLast(d: Value, es: Entries, op: Op)
    requires NewTo(d, es) && es != [] && op == Op(0, Remove, [Last(es).0], NONE)
    ensures SlotRun(Some(Filled(d, es)), [op]) == Some(Some(Filled(d, Init(es))))
  {
    NewToInit(d, es);
    var v, w := Filled(d, es), Filled(d, Init(es));
    assert Init([op]) == [] && Last([op]) == op;
    KeyStep(v, op);
    assert Assign(v.kids, Last(es).0, None) == w.kids;
  }

  /** Adding and removing the entries, as a chain of two patches. */
  function Chain(es: Entries): seq<Op> {
    Subtree.Chain([Adds(es), Removes(es)])
  }

  lemma ChainPaths(es: Entries, op: Op)
    requires op in Chain(es)
    ensures exists i :: 0 <= i < |es| && op.path == [es[i].0]
  {
    var both := [Adds(es), Removes(es)];
    ChainFrom(both, op);
    var i, j :| 0 <= i < |both| && 0 <= j < |both[i]| && both[i][j].path == op.path;
    assert op.path == [es[if i == 0 then j else |es| - 1 - j].0];
  }

  /** The chain satisfies (E) and leaves no trace: every position it addresses is empty in d. */
  lemma ChainCancels(d: Value, es: Entries)
    requires NewTo(d, es)
    ensures CondE(Chain(es)) && Cancels(Some(d), Chain(es), Some(d))
  {
    forall a, b, c ensures !Sandwich(Chain(es), a, b, c) {
      if Sandwich(Chain(es), a, b, c) {
        ChainPaths(es, a);
        ChainPaths(es, b);
        assert false;
      }
    }
    forall p | Topmost(Chain(es), p) ensures GetAt(Some(d), p).None? {
      var op :| op in Chain(es) && op.path == p;
      ChainPaths(es, op);
      assert GetAt(HeldUnder(Some(d), p[0]), p[1..]) == HeldUnder(Some(d), p[0]);
    }
  }

  /** It can be run from d and therefore pushed. */
  lemma ChainPushable(d: Value, es: Entries)
    requires NewTo(d, es)
    ensures Pushable(Chain(es))
  {
    var patches := [Adds(es), Removes(es)];
    ChainCancels(d, es);
    Subtree.ChainTimes(patches);
    ChainGood(patches);
    AddsRun(d, es);
    RemovesRun(d, es);
    assert Init(patches) == [Adds(es)] && Init([Adds(es)]) == [];
    assert Builder.RunPatches(Some(d), [Adds(es)]) == Some(Some(Filled(d, es)));
    Builder.ChainRun(Some(d), patches);
    FoldablePushable(Some(d), Chain(es));
  }

  // ----- the recording

  function Edges(es: Entries): Patches {
    map[(0, 1) := NewPatch(0, 1, Adds(es)), (1, 0) := NewPatch(1, 0, Removes(es)),
        (1, 2) := NewPatch(1, 2, Removes(es)), (2, 1) := NewPatch(2, 1, Adds(es))]
  }

  function Route(es: Entries): seq<Patch> {
    [NewPatch(0, 1, Adds(es)), NewPatch(1, 2, Removes(es))]
  }

  ghost function States(d: Value, es: Entries): map<int, Value>
    requires d.Node?
  {
    map[0 := d, 1 := Filled(d, es), 2 := d]
  }

  lemma {:induction false} FilledGood(d: Value, es: Entries)
    requires NewTo(d, es)
    ensures WellFormed(Filled(d, es))
  {
    if es != [] {
      NewToInit(d, es);
      FilledGood(d, Init(es));
    }
  }

  lemma EdgesMean(d: Value, es: Entries)
    requires NewTo(d, es)
    ensures Means(States(d, es), Edges(es))
  {
    AddsRun(d, es);
    RemovesRun(d, es);
    var states := States(d, es);
    assert Carries(states, NewPatch(0, 1, Adds(es))) && Carries(states, NewPatch(2, 1, Adds(es)));
    assert Carries(states, NewPatch(1, 0, Removes(es))) && Carries(states, NewPatch(1, 2, Removes(es)));
  }

  lemma EdgesPriced(es: Entries)
    ensures AllPriced(Edges(es))
  {
  }

  /** A chain with the fewest operations from 0 to 2 is the two patches and nothing else. */
  lemma OnlyRoute(es: Entries, q: seq<Patch>)
    requires FewestOperations(Edges(es), q, 0, 2)
    ensures q == Route(es)
  {
    EdgesPriced(es);
    CheapestIsFewest(Edges(es), q, 0, 2);
    var rest := q[1..];
    assert q[0] == NewPatch(0, 1, Adds(es));
    assert Chained(Edges(es), rest, 1, 2);
    var last := rest[1..];
    assert Total(q) == q[0].cost + rest[0].cost + Total(last);
    assert rest[0].to == 0 ==> Chained(Edges(es), last, 0, 2);
    assert rest[0] == NewPatch(1, 2, Removes(es));
    RouteTotal(es);
    assert Chained(Edges(es), last, 2, 2);
    assert last != [] ==> Keyed(Edges(es), last[0]);
    assert last == [];
    assert q == [q[0]] + rest && rest == [rest[0]] + last;
  }

  lemma RouteTotal(es: Entries)
    ensures Chained(Edges(es), Route(es), 0, 2)
    ensures Total(Route(es)) == NewPatch(0, 1, Adds(es)).cost + NewPatch(1, 2, Removes(es)).cost
  {
    var rest := Route(es)[1..];
    assert rest == [NewPatch(1, 2, Removes(es))] && rest[1..] == [];
    assert Total(rest) == rest[0].cost;
  }

  method AddBoth(g: Graph, p: Patch, q: Patch)
    requires g.Edges() && p.cost >= 1 && q.cost >= 1 && q.from == p.to && q.to == p.from
    modifies g
    ensures g.Edges() && g.patches == old(g.patches)[(p.from, p.to) := p][(q.from, q.to) := q]
    ensures g.pending == old(g.pending) + {p.from, p.to}
  {
    g.AddEdgeAndVertices(p);
    g.AddEdgeAndVertices(q);
  }

  method MakeGraph(es: Entries) returns (g: Graph)
    ensures fresh(g) && g.Valid() && g.patches == Edges(es) && g.stamps == [0, 1, 2]
  {
    g := new Graph();
    AddBoth(g, NewPatch(0, 1, Adds(es)), NewPatch(1, 0, Removes(es)));
    AddBoth(g, NewPatch(1, 2, Removes(es)), NewPatch(2, 1, Adds(es)));
    assert g.pending == {0, 1, 2};
    FourEdges(es, g.patches);
    g.Finalize();
    Stamps(g.stamps);
  }

  lemma FourEdges(es: Entries, patches: Patches)
    requires patches == map[][(0, 1) := NewPatch(0, 1, Adds(es))][(1, 0) := NewPatch(1, 0, Removes(es))]
                          [(1, 2) := NewPatch(1, 2, Removes(es))][(2, 1) := NewPatch(2, 1, Adds(es))]
    ensures patches == Edges(es) && forall k :: k in patches ==> k.0 in {0, 1, 2} && k.1 in {0, 1, 2}
  {
  }

  method MakeTree(es: Entries) returns (tree: PathTree.Tree)
    ensures PathTree.Valid(tree) && AllInTree(tree, Edges(es))
  {
    var b := new PathTree.Builder();
    PathTree.RootValid();
    var p, q := NewPatch(0, 1, Adds(es)), NewPatch(1, 0, Removes(es));
    var added := Recording.FillTree(b, p, q, map[]);
    tree := b.tree;
  }

  lemma Stamps(stamps: seq<int>)
    requires Rising(stamps) && forall t :: t in stamps <==> t in {0, 1, 2}
    ensures stamps == [0, 1, 2]
  {
    var all := [0, 1, 2];
    assert forall t :: t in all <==> t in {0, 1, 2};
    Recording.RisingUnique(stamps, all);
  }

  lemma Joins(es: Entries)
    ensures Joined([0, 1, 2], Edges(es))
  {
    forall i | 0 < i < 3 ensures JoinedAt([0, 1, 2], Edges(es), i) {
    }
  }

  /** The segment that records d, then d with the entries, then d. */
  method MakeSegment(d: Value, es: Entries) returns (s: Segment)
    requires NewTo(d, es)
    ensures fresh(s) && fresh(s.graph) && s.Valid() && s.recorded == States(d, es)
    ensures s.Now() == View([0, 1, 2], Edges(es), 0, d, [])
  {
    var g := MakeGraph(es);
    var tree := MakeTree(es);
    var index := PathIndex.MakeIndex(tree);
    Good(d, es, index);
    s := new Segment(0, None, g, index, d, 0, States(d, es));
  }

  lemma Good(d: Value, es: Entries, index: PathIndex.Index)
    requires NewTo(d, es) && PathIndex.Ready(index) && AllInTree(index.tree, Edges(es))
    ensures Shaped(index, View([0, 1, 2], Edges(es), 0, d, []), 0)
    ensures Meaningful(States(d, es), View([0, 1, 2], Edges(es), 0, d, []))
  {
    EdgesMean(d, es);
    EdgesPriced(es);
    Joins(es);
    FilledGood(d, es);
    PrevTwo();
  }

  lemma PrevTwo()
    ensures PrevOf([0, 1, 2], 2) == Some(2) && PrevOf([0, 1, 2], 0) == Some(0)
  {
    PrevIs([0, 1, 2], 2);
    PrevIs([0, 1, 2], 0);
  }

  /** The only cheapest chain is long, satisfies (E) and leaves no trace. */
  lemma CheapestCancels(d: Value, es: Entries, q: seq<Patch>)
    requires NewTo(d, es) && |es| >= 6 && CheapestFor(View([0, 1, 2], Edges(es), 0, d, []), q, 2)
    ensures WorthMerging(q) && Pushable(ChainOps(q)) && NoTrace(States(d, es), 0, 2, q)
  {
    PrevTwo();
    OnlyRoute(es, q);
    assert q[1..][1..] == [];
    assert OpsOf(q) == [Adds(es), Removes(es)];
    ChainCancels(d, es);
    ChainPushable(d, es);
  }

  /** For every dict and at least six new entries, the segment that records their adding and
      removing is valid, and the jump over both steps fails: the chain costs more than the
      threshold, so it is merged, and nothing of it survives. */
  method TracelessJump(d: Value, es: Entries, dijkstra: Dijkstra) returns (s: Segment, ok: bool)
    requires NewTo(d, es) && |es| >= 6 && Solves(dijkstra)
    ensures fresh(s) && s.Valid() && s.recorded == States(d, es)
    ensures !ok && s.Now() == View([0, 1, 2], Edges(es), 0, d, [])
  {
    s := MakeSegment(d, es);
    ghost var path, merged;
    ok, path, merged := s.MoveTo(2, true, dijkstra);
    CheapestCancels(d, es, path);
    CheapestCancels(d, es, merged.value);
    PrevTwo();
  }
}
