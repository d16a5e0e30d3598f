/** From recorded states to a replay one can jump in: each state is compared with the one
    before it, and the two patches become edges of the graph. */
module Recording {
  import opened Values
  import Diff
  import opened PatchGraph
  import opened Jump
  import PathTree
  import PathIndex

  /** What was recorded when. */
  ghost function History(times: seq<int>, states: seq<Value>): (h: map<int, Value>)
    requires |times| == |states|
    ensures Rising(times) ==> forall i :: 0 <= i < |times| ==> times[i] in h && h[times[i]] == states[i]
  {
    map t | t in times :: states[IndexOf(times, t)]
  }

  ghost function IndexOf(times: seq<int>, t: int): (i: nat)
    requires t in times
    ensures i < |times| && times[i] == t
  {
    var i :| 0 <= i < |times| && times[i] == t;
    i
  }

  /** States that can be compared: well-formed objects of one root type, each with the
      attributes of its class. */
  ghost predicate Recordable(states: seq<Value>, schema: string -> set<Key>) {
    && (forall v :: v in states ==> v.Node? && WellFormed(v) && Diff.Typed(schema, v))
    && (forall v, w :: v in states && w in states ==> v.kind == w.kind)
  }

  /** The edges after the first n states. */
  ghost predicate Linked(times: seq<int>, patches: Patches, pending: set<int>, n: nat)
    requires n <= |times|
  {
    && (forall k :: k in patches ==> k.0 in pending && k.1 in pending)
    && (forall t :: t in pending ==> t in times[..n])
    && (forall i {:trigger JoinedAt(times, patches, i)} :: 0 < i < n ==> JoinedAt(times, patches, i))
    && (n > 1 ==> forall t :: t in times[..n] ==> t in pending)
  }

  lemma LinkedNext(times: seq<int>, patches: Patches, pending: set<int>, n: nat, p: Patch, q: Patch)
    requires 0 < n < |times| && Linked(times, patches, pending, n)
    requires p.from == q.to == times[n - 1] && p.to == q.from == times[n]
    ensures Linked(times, patches[(p.from, p.to) := p][(q.from, q.to) := q],
                   pending + {p.from, p.to} + {q.from, q.to}, n + 1)
  {
    var after := patches[(p.from, p.to) := p][(q.from, q.to) := q];
    assert times[..n + 1] == times[..n] + [times[n]];
    assert times[n - 1] in times[..n];
    forall i | 0 < i < n + 1 ensures JoinedAt(times, after, i) {
      if i < n {
        assert JoinedAt(times, patches, i);
      }
    }
    if n == 1 {
      assert times[..n] == [times[0]];
    }
  }

  /** The two edges of one comparison carry what was recorded. */
  method RecordStep(times: seq<int>, states: seq<Value>, n: nat, ghost schema: string -> set<Key>)
    returns (p: Patch, q: Patch)
    requires |times| == |states| && 0 < n < |times| && Rising(times) && Recordable(states, schema)
    ensures p.from == q.to == times[n - 1] && p.to == q.from == times[n] && Priced(p) && Priced(q)
    ensures Carries(History(times, states), p) && Carries(History(times, states), q)
    ensures Antichain(p.ops) && Diff.Mirror(p.ops, q.ops)
    ensures Diff.Exact(Some(states[n - 1]), Some(states[n]), p.ops)
    ensures Diff.Exact(Some(states[n]), Some(states[n - 1]), q.ops)
  {
    assert states[n - 1] in states && states[n] in states;
    var rp := Diff.MakeBiReplayPatch(states[n - 1], states[n], schema);
    p := NewPatch(times[n - 1], times[n], rp.forward);
    q := NewPatch(times[n], times[n - 1], rp.backward);
  }

  /** Filling the path tree with the paths of the forward patch is enough for the backward
      patch, and loses none of the earlier paths. */
  method FillTree(b: PathTree.Builder, p: Patch, ghost q: Patch, ghost patches: Patches)
    returns (added: seq<PathTree.Entry>)
    requires PathTree.Valid(b.tree) && AllInTree(b.tree, patches) && Diff.Mirror(p.ops, q.ops)
    modifies b
    ensures PathTree.Journals(old(b.tree), added, b.tree)
    ensures AllInTree(b.tree, patches) && InTree(b.tree, p) && InTree(b.tree, q)
  {
    ghost var before := b.tree;
    var paths := seq(|p.ops|, i requires 0 <= i < |p.ops| => p.ops[i].path);
    added := b.FillWithPaths(paths);
    forall op | op in p.ops ensures PathTree.HasPath(b.tree, op.path) {
      var i :| 0 <= i < |p.ops| && p.ops[i] == op;
      assert paths[i] in paths;
    }
    forall op | op in q.ops ensures PathTree.HasPath(b.tree, op.path) {
      var i :| 0 <= i < |q.ops| && q.ops[i] == op;
      assert p.ops[|p.ops| - 1 - i] in p.ops;
    }
    forall k | k in patches ensures InTree(b.tree, patches[k]) {
      assert InTree(before, patches[k]);
      StillThere(before, added, b.tree, patches[k]);
    }
  }

  lemma StillThere(t: PathTree.Tree, added: seq<PathTree.Entry>, t': PathTree.Tree, p: Patch)
    requires PathTree.Journals(t, added, t') && InTree(t, p)
    ensures InTree(t', p)
  {
    forall op | op in p.ops ensures PathTree.HasPath(t', op.path) {
      assert PathTree.HasPath(t, op.path);
      var v :| v in t.nodes && PathTree.PathOf(t, v) == op.path;
      assert PathTree.PathOf(t', v) == op.path;
    }
  }

  method Link(g: Graph, b: PathTree.Builder, times: seq<int>, states: seq<Value>, n: nat,
              ghost schema: string -> set<Key>)
    requires |times| == |states| && 0 < n < |times| && Rising(times) && Recordable(states, schema)
    requires g.Edges() && Means(History(times, states), g.patches) && Linked(times, g.patches, g.pending, n)
    requires PathTree.Valid(b.tree) && AllInTree(b.tree, g.patches) && AllPriced(g.patches)
    modifies g, b
    ensures g.Edges() && Means(History(times, states), g.patches) && Linked(times, g.patches, g.pending, n + 1)
    ensures PathTree.Valid(b.tree) && AllInTree(b.tree, g.patches) && AllPriced(g.patches)
  {
    var p, q := RecordStep(times, states, n, schema);
    LinkedNext(times, g.patches, g.pending, n, p, q);
    MeansTwo(History(times, states), g.patches, p, q);
    var added := FillTree(b, p, q, g.patches);
    AddBoth(g, b.tree, p, q);
  }

  /** Two more edges whose paths are in the tree. */
  method AddBoth(g: Graph, ghost tree: PathTree.Tree, p: Patch, q: Patch)
    requires g.Edges() && p.cost >= 1 && q.cost >= 1
    requires AllInTree(tree, g.patches) && InTree(tree, p) && InTree(tree, q)
    modifies g
    ensures g.Edges() && AllInTree(tree, g.patches)
    ensures g.patches == old(g.patches)[(p.from, p.to) := p][(q.from, q.to) := q]
    ensures g.pending == old(g.pending) + {p.from, p.to} + {q.from, q.to}
  {
    g.AddEdgeAndVertices(p);
    g.AddEdgeAndVertices(q);
  }

  lemma MeansTwo(recorded: map<int, Value>, patches: Patches, p: Patch, q: Patch)
    requires Means(recorded, patches) && AllPriced(patches)
    requires Carries(recorded, p) && Carries(recorded, q) && Priced(p) && Priced(q)
    ensures var after := patches[(p.from, p.to) := p][(q.from, q.to) := q];
            Means(recorded, after) && AllPriced(after)
  {
  }

  /** The graph and the path tree of a history. */
  method BuildGraph(times: seq<int>, states: seq<Value>, ghost schema: string -> set<Key>)
    returns (g: Graph, tree: PathTree.Tree)
    requires |times| == |states| > 0 && Rising(times) && Recordable(states, schema)
    ensures fresh(g) && g.Valid() && Means(History(times, states), g.patches) && Joined(g.stamps, g.patches)
    ensures PathTree.Valid(tree) && AllInTree(tree, g.patches) && AllPriced(g.patches)
    ensures |times| > 1 ==> g.stamps == times
    ensures forall t :: t in g.stamps ==> t in times
    ensures g.stamps != [] ==> g.stamps[0] == times[0]
  {
    g := new Graph();
    var b := new PathTree.Builder();
    PathTree.RootValid();
    ghost var history := History(times, states);
    for n := 1 to |times|
      invariant fresh(g) && g.Edges() && Means(history, g.patches) && Linked(times, g.patches, g.pending, n)
      invariant fresh(b) && PathTree.Valid(b.tree) && AllInTree(b.tree, g.patches) && AllPriced(g.patches)
    {
      Link(g, b, times, states, n, schema);
    }
    ghost var pending := g.pending;
    g.Finalize();
    StampsAre(times, g.patches, pending, g.stamps);
    tree := b.tree;
  }

  /** Recording any history of comparable states, one patch pair per step, gives a segment
      in which every jump is right. */
  method Record(times: seq<int>, states: seq<Value>, ghost schema: string -> set<Key>) returns (s: Segment)
    requires |times| == |states| > 0 && Rising(times) && Recordable(states, schema)
    ensures fresh(s) && fresh(s.graph) && s.Valid() && s.saved == []
    ensures s.recorded == History(times, states) && s.state == states[0] && s.time == times[0] == s.start
    ensures |times| > 1 ==> s.graph.stamps == times
  {
    var g, tree := BuildGraph(times, states, schema);
    s := SegmentOf(times[0], g, tree, states[0], times, states, schema);
  }

  /** The segment of a recorded graph and path tree, at its first state. */
  method SegmentOf(start: int, g: Graph, tree: PathTree.Tree, state: Value, ghost times: seq<int>,
                   ghost states: seq<Value>, ghost schema: string -> set<Key>) returns (s: Segment)
    requires |times| == |states| > 0 && Rising(times) && Recordable(states, schema)
    requires start == times[0] && state == states[0] && PathTree.Valid(tree) && AllInTree(tree, g.patches)
    requires g.Valid() && Means(History(times, states), g.patches) && Joined(g.stamps, g.patches)
    requires AllPriced(g.patches)
    requires (forall t :: t in g.stamps ==> t in times) && (g.stamps != [] ==> g.stamps[0] == times[0])
    ensures fresh(s) && s.graph == g && s.Valid() && s.saved == []
    ensures s.recorded == History(times, states) && s.state == states[0] && s.time == times[0] == s.start
  {
    var index := PathIndex.MakeIndex(tree);
    StartsGood(times, states, schema, index, g.stamps, g.patches);
    s := new Segment(start, None, g, index, state, start, History(times, states));
  }

  lemma StartsGood(times: seq<int>, states: seq<Value>, schema: string -> set<Key>, index: PathIndex.Index,
                   stamps: seq<int>, patches: Patches)
    requires |times| == |states| > 0 && Rising(times) && Recordable(states, schema)
    requires Rising(stamps) && (forall t :: t in stamps ==> t in times) && (stamps != [] ==> stamps[0] == times[0])
    requires Means(History(times, states), patches) && Joined(stamps, patches)
    requires PathIndex.Ready(index) && AllInTree(index.tree, patches) && AllPriced(patches)
    ensures Shaped(index, View(stamps, patches, times[0], states[0], []), times[0])
    ensures Meaningful(History(times, states), View(stamps, patches, times[0], states[0], []))
  {
    HistoryGood(times, states, schema);
    PrevFirst(stamps, times[0]);
  }

  lemma HistoryGood(times: seq<int>, states: seq<Value>, schema: string -> set<Key>)
    requires |times| == |states| && Rising(times) && Recordable(states, schema)
    ensures forall t :: t in times ==> t in History(times, states) && WellFormed(History(times, states)[t])
  {
    forall t | t in times ensures t in History(times, states) && WellFormed(History(times, states)[t]) {
      assert times[IndexOf(times, t)] == t;
      assert states[IndexOf(times, t)] in states;
    }
  }

  lemma PrevFirst(stamps: seq<int>, t: int)
    requires Rising(stamps) && (stamps != [] ==> stamps[0] == t)
    ensures PrevOf(stamps, t) == if stamps == [] then None else Some(t)
  {
    PrevIs(stamps, t);
    if stamps != [] {
      assert stamps[0] in stamps;
    }
  }

  /** The vertices are the recorded times. */
  lemma StampsAre(times: seq<int>, patches: Patches, pending: set<int>, stamps: seq<int>)
    requires times != [] && Rising(times) && Rising(stamps) && Linked(times, patches, pending, |times|)
    requires forall t :: t in stamps <==> t in pending
    ensures forall t :: t in stamps ==> t in times
    ensures |times| > 1 ==> stamps == times
    ensures Joined(stamps, patches) && (stamps != [] ==> stamps[0] == times[0])
  {
    assert times[..|times|] == times;
    if |times| > 1 {
      RisingUnique(stamps, times);
    } else {
      assert forall t :: t in stamps ==> t == times[0];
      if |stamps| > 1 {
        TwoRise(stamps);
      } else if |stamps| == 1 {
        assert stamps[0] in stamps;
      }
    }
  }

  lemma TwoRise(stamps: seq<int>)
    requires Rising(stamps) && |stamps| > 1
    ensures stamps[0] in stamps && stamps[1] in stamps && stamps[0] < stamps[1]
  {
  }

  lemma {:induction false} RisingUnique(a: seq<int>, b: seq<int>)
    requires Rising(a) && Rising(b) && forall t :: t in a <==> t in b
    ensures a == b
  {
    assert |a| > 0 ==> a[0] in a;
    assert |b| > 0 ==> b[0] in b;
    if |a| > 0 && |b| > 0 {
      assert Last(a) in a && Last(b) in b;
      assert Last(a) in b && Last(b) in a;
      assert Last(a) == Last(b);
      forall t ensures t in Init(a) <==> t in Init(b) {
        assert t in a <==> t in Init(a) || t == Last(a);
        assert t in b <==> t in Init(b) || t == Last(b);
        assert Last(a) !in Init(a) && Last(b) !in Init(b);
      }
      RisingUnique(Init(a), Init(b));
      assert a == Init(a) + [Last(a)] && b == Init(b) + [Last(b)];
    }
  }
}
