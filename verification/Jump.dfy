/** Time travel: `jump_to` over segments, along cheapest chains of patches, with long patches
    saved as new edges. */
module Jump {
  import opened Values
  import opened LongPatch
  import Subtree = OpTree
  import PathTree
  import PathIndex
  import Timeline
  import opened Cancellation
  import opened Collapse
  import opened LongPatchBuilder
  import opened PatchGraph
  import opened Sorting

  const LONG_PATCH_THRESHOLD := 10

  // ----- what the edges mean

  function OpsOf(path: seq<Patch>): (r: seq<seq<Op>>)
    ensures |r| == |path| && forall i :: 0 <= i < |path| ==> r[i] == path[i].ops
  {
    seq(|path|, i requires 0 <= i < |path| => path[i].ops)
  }

  /** The operations of a chain, in order. */
  function ChainOps(path: seq<Patch>): seq<Op> {
    Subtree.Chain(OpsOf(path))
  }

  /** The patch leads from one recorded state to another. */
  ghost predicate Carries(recorded: map<int, Value>, p: Patch) {
    && p.from in recorded && p.to in recorded
    && AllDeep(p.ops) && GoodValues(p.ops)
    && SlotRun(Some(recorded[p.from]), p.ops) == Some(Some(recorded[p.to]))
  }

  ghost predicate Means(recorded: map<int, Value>, patches: Patches) {
    forall k {:trigger patches[k]} :: k in patches ==> Carries(recorded, patches[k])
  }

  lemma {:induction false} RunFirst(cur: Option<Value>, p: seq<Op>, rest: seq<seq<Op>>)
    ensures RunPatches(cur, [p] + rest) == match SlotRun(cur, p) case None => None case Some(x) => RunPatches(x, rest)
  {
    if rest == [] {
      assert [p] + rest == [p];
      assert Init([p]) == [];
    } else {
      assert Init([p] + rest) == [p] + Init(rest) && Last([p] + rest) == Last(rest);
      RunFirst(cur, p, Init(rest));
    }
  }

  /** Running a chain of edges leads from the state recorded at its start to the one
      recorded at its end. */
  lemma {:induction false} ChainMeans(recorded: map<int, Value>, patches: Patches, path: seq<Patch>, a: int, b: int)
    requires Means(recorded, patches) && Chained(patches, path, a, b) && a in recorded
    ensures b in recorded && RunPatches(Some(recorded[a]), OpsOf(path)) == Some(Some(recorded[b]))
    ensures forall i :: 0 <= i < |path| ==> AllDeep(path[i].ops) && GoodValues(path[i].ops)
    decreases |path|
  {
    if path != [] {
      var p := path[0];
      assert Carries(recorded, patches[(p.from, p.to)]);
      ChainMeans(recorded, patches, path[1..], p.to, b);
      assert OpsOf(path) == [p.ops] + OpsOf(path[1..]);
      RunFirst(Some(recorded[a]), p.ops, OpsOf(path[1..]));
      forall i | 0 <= i < |path| ensures AllDeep(path[i].ops) && GoodValues(path[i].ops) {
        if i > 0 {
          assert path[i] == path[1..][i - 1];
        }
      }
    }
  }

  lemma {:induction false} ChainGood(patches: seq<seq<Op>>)
    requires forall i :: 0 <= i < |patches| ==> AllDeep(patches[i]) && GoodValues(patches[i])
    ensures AllDeep(Subtree.Chain(patches)) && GoodValues(Subtree.Chain(patches))
  {
    if patches != [] {
      ChainGood(Init(patches));
      var before, last := Subtree.Chain(Init(patches)), Last(patches);
      forall op | op in Subtree.StampFrom(|before|, last) ensures op.path != [] && WellFormed(op.value) {
        var i :| 0 <= i < |last| && op == last[i].(at := |before| + i);
        assert last[i] in last;
      }
    }
  }

  lemma {:induction false} ChainFrom(patches: seq<seq<Op>>, op: Op)
    requires op in Subtree.Chain(patches)
    ensures exists i, j :: 0 <= i < |patches| && 0 <= j < |patches[i]| && patches[i][j].path == op.path
  {
    var before, last := Subtree.Chain(Init(patches)), Last(patches);
    if op in before {
      ChainFrom(Init(patches), op);
      var init: seq<seq<Op>> := Init(patches);
      var i, j :| 0 <= i < |init| && 0 <= j < |init[i]| && init[i][j].path == op.path;
      assert patches[i][j].path == op.path;
    } else {
      var j :| 0 <= j < |last| && op == last[j].(at := |before| + j);
      assert patches[|patches| - 1][j].path == op.path;
    }
  }

  /** Some operation of the chain addresses p. */
  ghost predicate Mentions(path: seq<Patch>, p: Path) {
    exists i, j :: 0 <= i < |path| && 0 <= j < |path[i].ops| && path[i].ops[j].path == p
  }

  lemma ChainMentions(path: seq<Patch>, p: Path)
    requires Touched(ChainOps(path), p)
    ensures Mentions(path, p)
  {
    var op :| op in ChainOps(path) && op.path == p;
    ChainFrom(OpsOf(path), op);
    var i, j :| 0 <= i < |path| && 0 <= j < |OpsOf(path)[i]| && OpsOf(path)[i][j].path == p;
    assert path[i].ops[j].path == p;
  }

  /** The set of all paths a chain touches, as a list. */
  method ChangedPaths(path: seq<Patch>) returns (ps: seq<Path>)
    ensures forall p :: p in ps <==> Mentions(path, p)
  {
    var changed: set<Path> := {};
    for i := 0 to |path|
      invariant forall k, j :: 0 <= k < i && 0 <= j < |path[k].ops| ==> path[k].ops[j].path in changed
      invariant forall p :: p in changed ==> Mentions(path, p)
    {
      changed := changed + set j | 0 <= j < |path[i].ops| :: path[i].ops[j].path;
    }
    ps := Listed(changed);
  }

  // ----- the paths of a segment

  /** Every path of the patch is a node of the path tree. */
  ghost predicate InTree(tree: PathTree.Tree, p: Patch) {
    PathTree.Valid(tree) && forall op :: op in p.ops ==> PathTree.HasPath(tree, op.path)
  }

  ghost predicate AllInTree(tree: PathTree.Tree, patches: Patches) {
    forall k {:trigger patches[k]} :: k in patches ==> InTree(tree, patches[k])
  }

  lemma {:induction false} ChainInTree(tree: PathTree.Tree, patches: Patches, path: seq<Patch>, a: int, b: int)
    requires PathTree.Valid(tree) && AllInTree(tree, patches) && Chained(patches, path, a, b)
    ensures forall p :: Mentions(path, p) ==> PathTree.HasPath(tree, p)
  {
    forall p | Mentions(path, p) ensures PathTree.HasPath(tree, p) {
      var i, j :| 0 <= i < |path| && 0 <= j < |path[i].ops| && path[i].ops[j].path == p;
      ChainKeyed(patches, path, a, b, i);
      assert InTree(tree, patches[(path[i].from, path[i].to)]);
      assert path[i].ops[j] in path[i].ops;
    }
  }

  lemma {:induction false} ChainKeyed(patches: Patches, path: seq<Patch>, a: int, b: int, i: nat)
    requires Chained(patches, path, a, b) && i < |path|
    ensures Keyed(patches, path[i])
    decreases |path|
  {
    if i > 0 {
      ChainKeyed(patches, path[1..], path[0].to, b, i - 1);
      assert path[1..][i - 1] == path[i];
    }
  }

  // ----- merging a chain of edges

  /** p is the merged form of the chain from a to b. */
  ghost predicate Merged(recorded: map<int, Value>, a: int, b: int, chain: seq<Patch>, p: Patch) {
    && p.from == a && p.to == b && Priced(p) && a in recorded && b in recorded
    && AllDeep(p.ops) && GoodValues(p.ops) && Antichain(p.ops) && |p.ops| <= |ChainOps(chain)|
    && ExecRun(recorded[a], p.ops).Some?
    && (Carries(recorded, p) <==> LossFree(ChainOps(chain)))
    && (ExecRun(recorded[a], p.ops) == Some(recorded[b]) <==> LossFree(ChainOps(chain)))
  }

  /** What merging a chain that can be pushed gives: nothing if and only if every topmost
      addressed position is empty in both recorded states, which are then the same. */
  ghost predicate MergedOr(recorded: map<int, Value>, a: int, b: int, chain: seq<Patch>, r: Option<Patch>) {
    && a in recorded && b in recorded
    && (r.None? <==> NoTrace(recorded, a, b, chain))
    && (r.None? ==> recorded[a] == recorded[b])
    && (r.Some? ==> Merged(recorded, a, b, chain, r.value))
  }

  /** The edges mean what was recorded, and the chain starts from a recorded state. */
  ghost predicate From(recorded: map<int, Value>, patches: Patches, a: int) {
    Means(recorded, patches) && a in recorded && WellFormed(recorded[a])
  }

  /** The chain of edges that mean what was recorded starts from this state. */
  ghost predicate Leads(recorded: map<int, Value>, patches: Patches, path: seq<Patch>, a: int, b: int, state: Value) {
    Means(recorded, patches) && Chained(patches, path, a, b) && a in recorded && state == recorded[a]
  }

  /** `create_long_patch` once the chain is found. */
  method Merge(ghost recorded: map<int, Value>, ghost patches: Patches, chain: seq<Patch>, index: PathIndex.Index,
               a: int, b: int) returns (r: Option<Patch>)
    requires Chained(patches, chain, a, b) && PathIndex.Ready(index) && AllInTree(index.tree, patches)
    ensures r.Some? ==> r.value.from == a && r.value.to == b && Priced(r.value) && InTree(index.tree, r.value)
    ensures From(recorded, patches, a) && CondE(ChainOps(chain)) ==> Pushable(ChainOps(chain))
    ensures From(recorded, patches, a) && Pushable(ChainOps(chain)) ==> MergedOr(recorded, a, b, chain, r)
  {
    ChainInTree(index.tree, patches, chain, a, b);
    var changed := ChangedPaths(chain);
    var adj := PathIndex.SubtreeFor(index, changed);
    CoversChain(adj, changed, chain);
    ghost var start := if a in recorded then recorded[a] else NONE;
    if From(recorded, patches, a) {
      ChainMeans(recorded, patches, chain, a, b);
      ChainGood(OpsOf(chain));
    }
    var ops := CreateLongPatch(OpsOf(chain), adj, start);
    if ops.None? {
      return None;
    }
    forall e | e in ops.value ensures PathTree.HasPath(index.tree, e.path) {
      ChainMentions(chain, e.path);
    }
    return Some(NewPatch(a, b, ops.value));
  }

  /** Every topmost position the chain addresses is empty in both recorded states. */
  ghost predicate NoTrace(recorded: map<int, Value>, a: int, b: int, chain: seq<Patch>)
    requires a in recorded && b in recorded
  {
    Cancels(Some(recorded[a]), ChainOps(chain), Some(recorded[b]))
  }

  lemma CoversChain(adj: Subtree.Adj, ps: seq<Path>, chain: seq<Patch>)
    requires Subtree.SubtreeOf(adj, ps) && forall p :: p in ps <==> Mentions(chain, p)
    ensures Subtree.Covers(adj, ChainOps(chain))
  {
    forall op | op in ChainOps(chain) ensures op.path in adj {
      assert Touched(ChainOps(chain), op.path);
      ChainMentions(chain, op.path);
    }
  }

  // ----- connected recordings

  /** Neighbouring recorded times are joined both ways. */
  ghost predicate Joined(stamps: seq<int>, patches: Patches) {
    forall i {:trigger JoinedAt(stamps, patches, i)} :: 0 < i < |stamps| ==> JoinedAt(stamps, patches, i)
  }

  ghost predicate JoinedAt(stamps: seq<int>, patches: Patches, i: int)
    requires 0 < i < |stamps|
  {
    (stamps[i - 1], stamps[i]) in patches && (stamps[i], stamps[i - 1]) in patches
  }

  ghost predicate Reaches(patches: Patches, a: int, b: int) {
    exists q :: Chained(patches, q, a, b)
  }

  lemma {:induction false} JoinedReaches(stamps: seq<int>, patches: Patches, i: nat, j: nat)
    requires Joined(stamps, patches) && i < |stamps| && j < |stamps|
    requires forall k :: k in patches ==> k == (patches[k].from, patches[k].to)
    ensures Reaches(patches, stamps[i], stamps[j])
    decreases if i < j then j - i else i - j
  {
    if i == j {
      assert Chained(patches, [], stamps[i], stamps[j]);
    } else {
      var n := if i < j then i + 1 else i - 1;
      assert JoinedAt(stamps, patches, if i < j then n else i);
      JoinedReaches(stamps, patches, n, j);
      var q :| Chained(patches, q, stamps[n], stamps[j]);
      var p := patches[(stamps[i], stamps[n])];
      assert ([p] + q)[1..] == q;
      assert Chained(patches, [p] + q, stamps[i], stamps[j]);
    }
  }

  /** The test of `jump_to`. */
  predicate Long(path: seq<Patch>) {
    Cost(path) > LONG_PATCH_THRESHOLD && |path| > 1
  }

  /** A chain worth merging, counted in operations. */
  ghost predicate WorthMerging(path: seq<Patch>) {
    |path| >= 2 && Operations(path) > 10
  }

  lemma LongIs(patches: Patches, path: seq<Patch>, a: int, b: int)
    requires AllPriced(patches) && Chained(patches, path, a, b)
    ensures Long(path) <==> WorthMerging(path)
  {
    TotalIsOperations(patches, path, a, b);
  }

  // ----- one segment

  /** What of a segment a move depends on and changes; `saved` lists the chains whose merged form
      was saved as an edge. */
  datatype View = View(stamps: seq<int>, patches: Patches, time: int, state: Value, saved: seq<seq<Patch>>)

  /** The edges join neighbouring times, cost one for each operation (one if they have none) and
      stay within the path tree, and the segment's start and current time are not before its
      first recorded one. */
  ghost predicate Shaped(index: PathIndex.Index, v: View, start: int) {
    && Joined(v.stamps, v.patches) && AllPriced(v.patches)
    && (v.stamps != [] ==> v.stamps[0] <= start && v.stamps[0] <= v.time)
    && PathIndex.Ready(index) && AllInTree(index.tree, v.patches)
  }

  /** The state is the one recorded at the greatest recorded time not after t. */
  ghost predicate HoldsAt(recorded: map<int, Value>, v: View, t: int) {
    var a := PrevOf(v.stamps, t);
    a.Some? ==> a.value in recorded && v.state == recorded[a.value]
  }

  /** The edges mean what was recorded, and the state is the recorded one for the time. */
  ghost predicate Meaningful(recorded: map<int, Value>, v: View) {
    && Means(recorded, v.patches) && HoldsAt(recorded, v, v.time)
    && (forall t :: t in v.stamps ==> t in recorded && WellFormed(recorded[t]))
  }

  /** Merging the chain neither goes astray nor loses anything. */
  ghost predicate Good(chain: seq<Patch>) {
    Pushable(ChainOps(chain)) && LossFree(ChainOps(chain))
  }

  ghost predicate AllGood(chains: seq<seq<Patch>>) {
    forall i :: 0 <= i < |chains| ==> Good(chains[i])
  }

  /** As long as all chains merged so far were good, the segment means what was recorded. */
  ghost predicate Kept(recorded: map<int, Value>, v: View) {
    AllGood(v.saved) ==> Meaningful(recorded, v)
  }

  /** The chain leads from the current state to the state at time t, and no chain that does has
      fewer operations. */
  ghost predicate CheapestFor(v: View, q: seq<Patch>, t: int) {
    var a, b := PrevOf(v.stamps, v.time), PrevOf(v.stamps, t);
    a.Some? && b.Some? && FewestOperations(v.patches, q, a.value, b.value)
  }

  /** Every topmost position the chain addresses is empty in the recorded states of both ends. */
  ghost predicate TracelessFor(recorded: map<int, Value>, v: View, q: seq<Patch>, t: int) {
    var a, b := PrevOf(v.stamps, v.time), PrevOf(v.stamps, t);
    && a.Some? && b.Some? && a.value in recorded && b.value in recorded
    && NoTrace(recorded, a.value, b.value, q)
  }

  /** Nothing was merged, or a chain that loses nothing. */
  ghost predicate Keeps(merged: Option<seq<Patch>>) {
    merged.None? || LossFree(ChainOps(merged.value))
  }

  /** Nothing was merged, or a chain that can be pushed. */
  ghost predicate Tame(merged: Option<seq<Patch>>) {
    merged.None? || Pushable(ChainOps(merged.value))
  }

  /** A cheapest chain from a to b was merged and, if that worked, saved as an edge. */
  ghost predicate Saved(recorded: map<int, Value>, before: View, after: View, a: int, b: int, chain: seq<Patch>,
                        r: Option<Patch>) {
    && FewestOperations(before.patches, chain, a, b)
    && (r.None? ==> after == before)
    && (r.Some? ==>
          && r.value.from == a && r.value.to == b
          && after == before.(patches := before.patches[(a, b) := r.value], saved := before.saved + [chain]))
    && (From(recorded, before.patches, a) && Pushable(ChainOps(chain)) ==> MergedOr(recorded, a, b, chain, r))
  }

  /** Patch after patch, each operation by operation; None where one raises. */
  ghost function ApplyAll(v: Value, path: seq<Patch>): Option<Value> {
    if path == [] then Some(v)
    else match ApplyAll(v, Init(path))
      case None => None
      case Some(w) => ExecRun(w, Last(path).ops)
  }

  lemma {:induction false} ApplyStops(v: Value, path: seq<Patch>, n: nat)
    requires n <= |path| && ApplyAll(v, path[..n]).None?
    ensures ApplyAll(v, path).None?
  {
    if n == |path| {
      assert path[..n] == path;
    } else {
      assert Init(path)[..n] == path[..n];
      ApplyStops(v, Init(path), n);
    }
  }

  /** Which way a move to time t takes: a chain with the fewest operations; if merging is asked
      for, that chain has at least two patches and they hold more than ten operations (an empty
      patch counted as one), and only then, another such chain is merged.  Without merging the
      move is the application of the chain, whatever its patches mean. */
  ghost predicate Routed(before: View, after: View, t: int, create: bool, ok: bool, path: seq<Patch>,
                         merged: Option<seq<Patch>>) {
    && after.stamps == before.stamps && after.time == (if ok then t else before.time)
    && (before.stamps == [] ==> !ok && after == before)
    && (before.stamps != [] ==> CheapestFor(before, path, t))
    && (merged.Some? <==> create && before.stamps != [] && |path| >= 2 && Operations(path) > 10)
    && (merged.Some? ==> CheapestFor(before, merged.value, t) && Operations(merged.value) == Operations(path))
    && (after.saved == before.saved || (merged.Some? && after.saved == before.saved + [merged.value]))
    && (after.saved == before.saved ==> after.patches == before.patches)
    && (merged.Some? && after.saved == before.saved ==> !ok && after == before)
    && (merged.None? && before.stamps != [] ==>
          && (ok <==> ApplyAll(before.state, path).Some?) && (ok ==> Some(after.state) == ApplyAll(before.state, path)))
  }

  /** What it does to a segment that means what was recorded.  Unless the merged chain cannot be
      pushed, the move fails if and only if there is nothing recorded or that chain leaves no
      trace; the state is then already the one for t, and nothing changes.  Otherwise the state
      is the one for t if and only if what was merged loses nothing. */
  ghost predicate Landed(recorded: map<int, Value>, before: View, after: View, t: int, ok: bool,
                         merged: Option<seq<Patch>>) {
    && (!ok <==> before.stamps == [] || (merged.Some? && TracelessFor(recorded, before, merged.value, t)))
    && (!ok ==> after == before && HoldsAt(recorded, after, t))
    && (ok ==> (HoldsAt(recorded, after, t) <==> Keeps(merged)))
    && (!ok || Keeps(merged) ==> Meaningful(recorded, after))
  }

  ghost predicate Moved(recorded: map<int, Value>, before: View, after: View, t: int, create: bool, ok: bool,
                        path: seq<Patch>, merged: Option<seq<Patch>>) {
    && Routed(before, after, t, create, ok, path, merged)
    && (Meaningful(recorded, before) && Tame(merged) ==> Landed(recorded, before, after, t, ok, merged))
  }

  /** Whatever was merged before, a move keeps the promise of the segment. */
  lemma MovedKept(recorded: map<int, Value>, before: View, after: View, t: int, create: bool, ok: bool,
                  path: seq<Patch>, merged: Option<seq<Patch>>)
    requires Moved(recorded, before, after, t, create, ok, path, merged)
    ensures Kept(recorded, before) ==> Kept(recorded, after)
    ensures Stepped(before, after, ok, t, create)
  {
    if AllGood(after.saved) {
      forall i | 0 <= i < |before.saved| ensures Good(before.saved[i]) {
        assert before.saved[i] == after.saved[i];
      }
      if after.saved != before.saved {
        assert Good(after.saved[|before.saved|]);
      }
    }
  }

  class Segment {
    const start: int
    const end: Option<int>
    const graph: Graph
    const index: PathIndex.Index
    ghost const recorded: map<int, Value>
    var state: Value
    var time: int
    ghost var saved: seq<seq<Patch>>

    ghost function Now(): View
      reads this, graph
    {
      View(graph.stamps, graph.patches, time, state, saved)
    }

    /** Graph and path tree are in order, whatever the edges mean. */
    ghost predicate Sound()
      reads this, graph
    {
      graph.Valid() && Shaped(index, Now(), start)
    }

    /** The segment holds the recorded state for its time. */
    ghost predicate Valid()
      reads this, graph
    {
      Sound() && Meaningful(recorded, Now())
    }

    /** A jump to time t leads from recorded time a to recorded time b. */
    ghost predicate Route(a: int, b: int, t: int)
      reads this, graph
    {
      PrevOf(graph.stamps, time) == Some(a) && PrevOf(graph.stamps, t) == Some(b)
    }

    constructor (start: int, end: Option<int>, graph: Graph, index: PathIndex.Index, state: Value, time: int,
                 ghost recorded: map<int, Value>)
      ensures this.start == start && this.end == end && this.graph == graph && this.index == index
      ensures this.state == state && this.time == time && this.recorded == recorded && saved == []
    {
      this.start, this.end, this.graph, this.index, this.recorded := start, end, graph, index, recorded;
      this.state, this.time, saved := state, time, [];
    }

    /** `_apply_patches_and_update_state` on a chain of edges; it stops where an operation raises. */
    method ApplyPatches(path: seq<Patch>, ghost a: int, ghost b: int) returns (ok: bool)
      modifies `state
      ensures ok <==> ApplyAll(old(state), path).Some?
      ensures ok ==> Some(state) == ApplyAll(old(state), path)
      ensures Leads(recorded, graph.patches, path, a, b, old(state)) ==> ok && b in recorded && state == recorded[b]
    {
      ghost var good := Leads(recorded, graph.patches, path, a, b, state);
      ghost var from := state;
      if good {
        ChainMeans(recorded, graph.patches, path, a, b);
      }
      for i := 0 to |path|
        invariant ApplyAll(old(state), path[..i]) == Some(state)
        invariant good ==> RunPatches(Some(from), OpsOf(path[..i])) == Some(Some(state))
      {
        assert Init(path[..i + 1]) == path[..i] && Last(path[..i + 1]) == path[i];
        if good {
          RunNext(from, path, i, state);
        }
        ok := ApplyOps(path[i].ops);
        if !ok {
          ApplyStops(old(state), path, i + 1);
          return false;
        }
      }
      assert path[..|path|] == path;
      return true;
    }

    /** A single patch, operation by operation; it stops where one raises. */
    method ApplyOps(ops: seq<Op>) returns (ok: bool)
      modifies `state
      ensures ok <==> ExecRun(old(state), ops).Some?
      ensures ok ==> Some(state) == ExecRun(old(state), ops)
    {
      for i := 0 to |ops|
        invariant ExecRun(old(state), ops[..i]) == Some(state)
      {
        assert Init(ops[..i + 1]) == ops[..i] && Last(ops[..i + 1]) == ops[i];
        var next := Exec(ops[i], state);
        if next.None? {
          ExecStops(old(state), ops, i + 1);
          return false;
        }
        state := next.value;
      }
      assert ops[..|ops|] == ops;
      return true;
    }

    /** `create_long_patch` and saving its result as an edge. */
    method CreateAndSaveLongPatch(t: int, dijkstra: Dijkstra, ghost a: int, ghost b: int)
      returns (r: Option<Patch>, ghost chain: seq<Patch>)
      requires Sound() && Route(a, b, t) && Solves(dijkstra)
      modifies graph, `saved
      ensures Sound() && Saved(recorded, old(Now()), Now(), a, b, chain, r)
    {
      var from := graph.FindPrevTimestamp(time);
      var to := graph.FindPrevTimestamp(t);
      var path := FindRoute(t, dijkstra, a, b);
      chain := path;
      r := Merge(recorded, graph.patches, path, index, from.value, to.value);
      if r.Some? {
        SaveEdge(r.value, chain);
      }
    }

    /** The new edge keeps the graph in order. */
    method SaveEdge(p: Patch, ghost chain: seq<Patch>)
      requires Sound() && p.from in graph.stamps && p.to in graph.stamps && Priced(p) && InTree(index.tree, p)
      modifies graph, `saved
      ensures Sound()
      ensures Now() == old(Now()).(patches := old(graph.patches)[(p.from, p.to) := p], saved := old(saved) + [chain])
    {
      SavedShape(graph.stamps, index.tree, graph.patches, p);
      var ok := graph.AddEdge(p);
      saved := saved + [chain];
    }

    /** `find_patch_path`: it succeeds, since neighbouring recorded times are joined. */
    method FindRoute(t: int, dijkstra: Dijkstra, ghost a: int, ghost b: int) returns (path: seq<Patch>)
      requires Sound() && Solves(dijkstra) && Route(a, b, t)
      modifies graph`csr, graph`upToDate
      ensures Sound() && Now() == old(Now()) && FewestOperations(graph.patches, path, a, b)
    {
      PrevIs(graph.stamps, time);
      PrevIs(graph.stamps, t);
      Reachable(graph.stamps, graph.patches, a, b);
      var found := graph.FindPatchPath(time, t, dijkstra);
      path := found.value;
      CheapestIsFewest(graph.patches, path, a, b);
    }

    /** The merging branch of `jump_to`. */
    method MoveMerged(t: int, dijkstra: Dijkstra, ghost a: int, ghost b: int, ghost path: seq<Patch>)
      returns (ok: bool, ghost chain: seq<Patch>)
      requires Sound() && Solves(dijkstra) && graph.stamps != [] && graph.stamps[0] <= t && Route(a, b, t)
      requires FewestOperations(graph.patches, path, a, b) && WorthMerging(path)
      modifies this, graph
      ensures Sound() && Moved(recorded, old(Now()), Now(), t, true, ok, path, Some(chain))
    {
      ghost var before := Now();
      var long;
      long, chain := CreateAndSaveLongPatch(t, dijkstra, a, b);
      ghost var mid := Now();
      ok := false;
      if long.Some? {
        ok := Land(t, long.value.ops);
      }
      MovedLong(recorded, before, mid, Now(), t, a, b, ok, path, chain, long);
    }

    /** Apply a patch and, if nothing raises, set the time. */
    method Land(t: int, ops: seq<Op>) returns (ok: bool)
      requires Sound() && (graph.stamps != [] ==> graph.stamps[0] <= t)
      modifies `state, `time
      ensures Sound() && Now() == old(Now()).(state := state, time := if ok then t else old(time))
      ensures ok <==> ExecRun(old(state), ops).Some?
      ensures ok ==> Some(state) == ExecRun(old(state), ops)
    {
      ok := ApplyOps(ops);
      if ok {
        time := t;
      }
    }

    /** The other branch. */
    method MoveShort(t: int, path: seq<Patch>, ghost create: bool, ghost a: int, ghost b: int) returns (ok: bool)
      requires Sound() && graph.stamps != [] && graph.stamps[0] <= t && Route(a, b, t)
      requires FewestOperations(graph.patches, path, a, b) && !(create && WorthMerging(path))
      modifies this
      ensures Sound() && Moved(recorded, old(Now()), Now(), t, create, ok, path, None)
    {
      ok := ApplyPatches(path, a, b);
      if ok {
        time := t;
      }
      MovedShort(recorded, old(Now()), Now(), t, a, b, create, ok, path);
    }

    /** The part of `jump_to` within a segment: find the cheapest chain to the target time,
        merge it if it is long, apply. */
    method MoveTo(t: int, create: bool, dijkstra: Dijkstra)
      returns (ok: bool, ghost path: seq<Patch>, ghost merged: Option<seq<Patch>>)
      requires Sound() && Solves(dijkstra) && (graph.stamps != [] ==> graph.stamps[0] <= t)
      modifies this, graph
      ensures Sound() && Moved(recorded, old(Now()), Now(), t, create, ok, path, merged)
    {
      path, merged := [], None;
      ok := false;
      if |graph.stamps| > 0 {
        PrevIs(graph.stamps, time);
        PrevIs(graph.stamps, t);
        ghost var a, b := PrevOf(graph.stamps, time).value, PrevOf(graph.stamps, t).value;
        var found := FindRoute(t, dijkstra, a, b);
        path := found;
        LongIs(graph.patches, path, a, b);
        if Long(found) && create {
          ghost var chain;
          ok, chain := MoveMerged(t, dijkstra, a, b, path);
          merged := Some(chain);
        } else {
          ok := MoveShort(t, found, create, a, b);
        }
      }
    }
  }

  lemma MovedShort(recorded: map<int, Value>, before: View, after: View, t: int, a: int, b: int, create: bool,
                   ok: bool, path: seq<Patch>)
    requires PrevOf(before.stamps, before.time) == Some(a) && PrevOf(before.stamps, t) == Some(b)
    requires FewestOperations(before.patches, path, a, b) && !(create && WorthMerging(path)) && before.stamps != []
    requires after == before.(time := if ok then t else before.time, state := after.state)
    requires (ok <==> ApplyAll(before.state, path).Some?) && (ok ==> Some(after.state) == ApplyAll(before.state, path))
    requires Leads(recorded, before.patches, path, a, b, before.state) ==>
               ok && b in recorded && after.state == recorded[b]
    ensures Moved(recorded, before, after, t, create, ok, path, None)
  {
  }

  lemma MovedLong(recorded: map<int, Value>, before: View, mid: View, after: View, t: int, a: int, b: int, ok: bool,
                  path: seq<Patch>, chain: seq<Patch>, long: Option<Patch>)
    requires PrevOf(before.stamps, before.time) == Some(a) && PrevOf(before.stamps, t) == Some(b)
    requires FewestOperations(before.patches, path, a, b) && WorthMerging(path)
    requires before.stamps != [] && Rising(before.stamps)
    requires Saved(recorded, before, mid, a, b, chain, long)
    requires after == mid.(state := after.state, time := if ok then t else mid.time)
    requires long.None? ==> !ok && after == mid
    requires long.Some? ==> (ok <==> ExecRun(before.state, long.value.ops).Some?)
    requires long.Some? && ok ==> Some(after.state) == ExecRun(before.state, long.value.ops)
    ensures Moved(recorded, before, after, t, true, ok, path, Some(chain))
  {
    assert Operations(chain) == Operations(path);
    if Meaningful(recorded, before) && Pushable(ChainOps(chain)) {
      PrevIs(before.stamps, before.time);
      LandedLong(recorded, before, after, t, a, b, ok, chain, long);
    }
  }

  lemma LandedLong(recorded: map<int, Value>, before: View, after: View, t: int, a: int, b: int, ok: bool,
                   chain: seq<Patch>, long: Option<Patch>)
    requires PrevOf(before.stamps, before.time) == Some(a) && PrevOf(before.stamps, t) == Some(b)
    requires before.stamps != [] && after.stamps == before.stamps && after.time == if ok then t else before.time
    requires long.None? ==> !ok && after == before
    requires long.Some? ==>
               && after.patches == before.patches[(a, b) := long.value]
               && (ok <==> ExecRun(before.state, long.value.ops).Some?)
               && (ok ==> Some(after.state) == ExecRun(before.state, long.value.ops))
    requires Meaningful(recorded, before) && MergedOr(recorded, a, b, chain, long)
    ensures Landed(recorded, before, after, t, ok, Some(chain))
  {
    if long.Some? && LossFree(ChainOps(chain)) {
      assert Carries(recorded, long.value);
    }
  }

  lemma SavedShape(stamps: seq<int>, tree: PathTree.Tree, patches: Patches, p: Patch)
    requires Joined(stamps, patches) && AllInTree(tree, patches) && InTree(tree, p)
    requires AllPriced(patches) && Priced(p)
    ensures AllInTree(tree, patches[(p.from, p.to) := p]) && Joined(stamps, patches[(p.from, p.to) := p])
    ensures AllPriced(patches[(p.from, p.to) := p])
  {
    var after := patches[(p.from, p.to) := p];
    forall i | 0 < i < |stamps| ensures JoinedAt(stamps, after, i) {
      assert JoinedAt(stamps, patches, i);
    }
  }

  lemma Reachable(stamps: seq<int>, patches: Patches, a: int, b: int)
    requires Joined(stamps, patches) && a in stamps && b in stamps
    requires forall k :: k in patches ==> k == (patches[k].from, patches[k].to)
    ensures Reaches(patches, a, b)
  {
    var i :| 0 <= i < |stamps| && stamps[i] == a;
    var j :| 0 <= j < |stamps| && stamps[j] == b;
    JoinedReaches(stamps, patches, i, j);
  }

  lemma RunNext(from: Value, path: seq<Patch>, i: nat, mid: Value)
    requires i < |path| && AllDeep(path[i].ops) && RunPatches(Some(from), OpsOf(path)).Some?
    requires RunPatches(Some(from), OpsOf(path[..i])) == Some(Some(mid))
    ensures ExecRun(mid, path[i].ops).Some?
    ensures RunPatches(Some(from), OpsOf(path[..i + 1])) == Some(ExecRun(mid, path[i].ops))
  {
    assert Init(OpsOf(path[..i + 1])) == OpsOf(path[..i]) && Last(OpsOf(path[..i + 1])) == path[i].ops;
    assert OpsOf(path)[..i + 1] == OpsOf(path[..i + 1]);
    RunUpTo(Some(from), OpsOf(path), i + 1);
    RunIsExec(mid, path[i].ops);
  }

  lemma {:induction false} ExecStops(v: Value, ops: seq<Op>, n: nat)
    requires n <= |ops| && ExecRun(v, ops[..n]).None?
    ensures ExecRun(v, ops).None?
  {
    if n == |ops| {
      assert ops[..n] == ops;
    } else {
      assert Init(ops)[..n] == ops[..n];
      ExecStops(v, Init(ops), n);
    }
  }

  lemma {:induction false} RunUpTo(cur: Option<Value>, patches: seq<seq<Op>>, n: nat)
    requires n <= |patches| && RunPatches(cur, patches).Some?
    ensures RunPatches(cur, patches[..n]).Some?
  {
    if n == |patches| {
      assert patches[..n] == patches;
    } else {
      assert Init(patches)[..n] == patches[..n];
      RunUpTo(cur, Init(patches), n);
    }
  }

  // ----- all segments

  datatype Outcome = Stayed | NoSegment | Failed | Jumped

  class ReplayInterface {
    const segments: seq<Segment>
    const startTime: int
    var current: Segment
    var time: int

    /** Every segment is in order, and no two share a graph. */
    ghost predicate AllSound()
      reads set s | s in segments, set s | s in segments :: s.graph
    {
      && (forall s, o {:trigger s.graph, o.graph} :: s in segments && o in segments && s != o ==> s.graph != o.graph)
      && (forall s {:trigger s.Sound()} :: s in segments ==> s.Sound() && startTime <= s.start)
    }

    /** Every segment means what was recorded as long as all chains merged in it were good. */
    ghost predicate AllKept()
      reads set s | s in segments, set s | s in segments :: s.graph
    {
      forall s {:trigger Kept(s.recorded, s.Now())} :: s in segments ==> Kept(s.recorded, s.Now())
    }

    /** The replay is in order and its clock is the current segment's. */
    ghost predicate Sound()
      reads this, set s | s in segments, set s | s in segments :: s.graph
    {
      current in segments && time == current.time && AllSound()
    }

    /** The segment s covers time t. */
    static predicate Covers(s: Segment, t: int) {
      Timeline.Spans(s.start, s.end, t)
    }

    constructor (segments: seq<Segment>, startTime: int, current: Segment)
      ensures this.segments == segments && this.startTime == startTime
      ensures this.current == current && this.time == current.time
    {
      this.segments, this.startTime, this.current, this.time := segments, startTime, current, current.time;
    }

    /** `find_segment`. */
    method FindSegment(t: int) returns (r: Option<Segment>)
      ensures r.Some? ==> r.value in segments && Covers(r.value, t)
      ensures r.None? ==> forall s :: s in segments ==> !Covers(s, t)
    {
      for i := 0 to |segments|
        invariant forall j :: 0 <= j < i ==> !Covers(segments[j], t)
      {
        if Covers(segments[i], t) {
          return Some(segments[i]);
        }
      }
      return None;
    }

    /** What happens in one segment does not touch the others. */
    twostate lemma OthersKept(s: Segment)
      requires old(AllSound()) && s in segments
      requires forall o :: o in segments && o != s ==> unchanged(o) && unchanged(o.graph)
      ensures s.Sound() ==> AllSound()
    {
    }

    /** The move within a segment leaves the other segments as they are. */
    method Move(s: Segment, t: int, create: bool, dijkstra: Dijkstra)
      returns (ok: bool, ghost path: seq<Patch>, ghost merged: Option<seq<Patch>>)
      requires AllSound() && s in segments && Solves(dijkstra) && Covers(s, t)
      modifies s, s.graph
      ensures AllSound() && Moved(s.recorded, old(s.Now()), s.Now(), t, create, ok, path, merged)
      ensures old(Kept(s.recorded, s.Now())) ==> Kept(s.recorded, s.Now())
      ensures Stepped(old(s.Now()), s.Now(), ok, t, create)
      ensures forall o :: o in segments && o != s ==> o.Now() == old(o.Now())
    {
      ok, path, merged := s.MoveTo(t, create, dijkstra);
      MovedKept(s.recorded, old(s.Now()), s.Now(), t, create, ok, path, merged);
      OthersKept(s);
    }

    /** The segment for time t, and the move within it; every other segment stays as it is. */
    method MoveSegments(t: int, create: bool, dijkstra: Dijkstra)
      returns (found: Option<Segment>, ok: bool, ghost path: seq<Patch>, ghost merged: Option<seq<Patch>>)
      requires AllSound() && Solves(dijkstra)
      modifies set s | s in segments, set s | s in segments :: s.graph
      ensures AllSound()
      ensures found.None? <==> forall s :: s in segments ==> !Covers(s, t)
      ensures found.None? ==> !ok && merged.None?
      ensures found.Some? ==> found.value in segments && Covers(found.value, t)
      ensures found.Some? ==>
                var s := found.value;
                Moved(s.recorded, old(s.Now()), s.Now(), t, create, ok, path, merged)
      ensures forall s :: s in segments && found != Some(s) ==> s.Now() == old(s.Now())
      ensures found.Some? ==> var s := found.value; Stepped(old(s.Now()), s.Now(), ok, t, create)
      ensures old(AllKept()) ==> AllKept()
    {
      ok, path, merged := false, [], None;
      found := FindSegment(t);
      if found.Some? {
        ok, path, merged := Move(found.value, t, create, dijkstra);
      }
    }

    /** `jump_to`, on a replay in order, whatever was merged before.  It stays if it is at the
        target, does nothing if no segment covers the target, and otherwise makes the move within
        that segment; every other segment stays as it is. */
    method JumpTo(t: int, create: bool, dijkstra: Dijkstra)
      returns (r: Outcome, ghost path: seq<Patch>, ghost merged: Option<seq<Patch>>)
      requires Sound() && Solves(dijkstra)
      modifies this, set s | s in segments, set s | s in segments :: s.graph
      ensures Sound()
      ensures r.Stayed? <==> old(time) == t
      ensures r.NoSegment? <==> old(time) != t && forall s :: s in segments ==> !Covers(s, t)
      ensures r.Stayed? || r.NoSegment? ==> merged.None? && forall s :: s in segments ==> s.Now() == old(s.Now())
      ensures r.Failed? || r.Jumped? ==> Covers(current, t)
      ensures r.Failed? || r.Jumped? ==>
                var s := current;
                && Moved(s.recorded, old(s.Now()), s.Now(), t, create, r.Jumped?, path, merged)
                && Stepped(old(s.Now()), s.Now(), r.Jumped?, t, create)
      ensures forall s :: s in segments && s != current ==> s.Now() == old(s.Now())
      ensures old(AllKept()) ==> AllKept()
    {
      path, merged := [], None;
      if time == t {
        return Stayed, path, merged;
      }
      if t < startTime {
        forall s | s in segments ensures !Covers(s, t) && !Covers(s, startTime) {
          assert s.Sound();
        }
        if time != startTime {
          r, path, merged := Enter(startTime, true, dijkstra);
        }
        r := NoSegment;
      } else {
        r, path, merged := Enter(t, create, dijkstra);
      }
    }

    /** Making a segment the current one changes no segment. */
    method Switch(s: Segment)
      requires s in segments
      modifies this
      ensures current == s && time == s.time && AllSound() == old(AllSound()) && AllKept() == old(AllKept())
      ensures forall o :: o in segments ==> o.Now() == old(o.Now())
    {
      current, time := s, s.time;
    }

    /** `jump_to` past its early returns. */
    method Enter(t: int, create: bool, dijkstra: Dijkstra)
      returns (r: Outcome, ghost path: seq<Patch>, ghost merged: Option<seq<Patch>>)
      requires Sound() && Solves(dijkstra)
      modifies this, set s | s in segments, set s | s in segments :: s.graph
      ensures Sound() && !r.Stayed?
      ensures r.NoSegment? <==> forall s :: s in segments ==> !Covers(s, t)
      ensures r.NoSegment? ==> merged.None? && current == old(current)
      ensures r.NoSegment? ==> forall s :: s in segments ==> s.Now() == old(s.Now())
      ensures !r.NoSegment? ==> Covers(current, t)
      ensures !r.NoSegment? ==>
                var s := current;
                && Moved(s.recorded, old(s.Now()), s.Now(), t, create, r.Jumped?, path, merged)
                && Stepped(old(s.Now()), s.Now(), r.Jumped?, t, create)
      ensures forall s :: s in segments && s != current ==> s.Now() == old(s.Now())
      ensures old(AllKept()) ==> AllKept()
    {
      var found, ok;
      found, ok, path, merged := MoveSegments(t, create, dijkstra);
      r := NoSegment;
      if found.Some? {
        Switch(found.value);
        r := if ok then Jumped else Failed;
      }
    }

    /** Any sequence of calls.  Each segment's time is the last target reached in it, and its state
        is the one recorded at the greatest recorded time not after that, as long as every chain
        merged in it was good.  Without merging no chain is ever added, so what held before holds
        unconditionally. */
    method JumpAll(calls: seq<(int, bool)>, dijkstra: Dijkstra) returns (ghost steps: seq<Step>)
      requires Sound() && AllKept() && Solves(dijkstra)
      modifies this, set s | s in segments, set s | s in segments :: s.graph
      ensures Sound() && AllKept()
      ensures Targets(calls, steps) && AllReached(segments, old(Views()), Views(), steps)
      ensures AllHold(segments, Views()) && (NoMerging(calls) ==> SameSaved(old(Views()), Views()))
      decreases |calls|
    {
      if calls == [] {
        KeptHold();
        return [];
      }
      ghost var first := Views();
      steps := JumpAll(Init(calls), dijkstra);
      ghost var was := Views();
      ghost var step := JumpNext(Last(calls).0, Last(calls).1, dijkstra);
      ReachedNext(segments, first, was, Views(), steps, step, Last(calls).1);
      TargetsNext(calls, steps, step);
      KeptHold();
      steps := steps + [step];
    }

    lemma KeptHold()
      requires AllKept()
      ensures AllHold(segments, Views())
    {
      forall i | 0 <= i < |segments| ensures AllGood(Views()[i].saved) ==>
          HoldsAt(segments[i].recorded, Views()[i], Views()[i].time) {
        assert Kept(segments[i].recorded, segments[i].Now());
      }
    }

    /** What every segment holds now. */
    ghost function Views(): (r: seq<View>)
      reads set s | s in segments, set s | s in segments :: s.graph
      ensures |r| == |segments| && forall i :: 0 <= i < |segments| ==> r[i] == segments[i].Now()
    {
      ViewsUpTo(|segments|)
    }

    ghost function ViewsUpTo(n: nat): (r: seq<View>)
      requires n <= |segments|
      reads set s | s in segments, set s | s in segments :: s.graph
      ensures |r| == n && forall i :: 0 <= i < n ==> r[i] == segments[i].Now()
    {
      if n == 0 then [] else ViewsUpTo(n - 1) + [segments[n - 1].Now()]
    }

    /** One more call. */
    method JumpNext(t: int, create: bool, dijkstra: Dijkstra) returns (ghost step: Step)
      requires Sound() && AllKept() && Solves(dijkstra)
      modifies this, set s | s in segments, set s | s in segments :: s.graph
      ensures Sound() && AllKept() && step.target == t
      ensures forall i :: 0 <= i < |segments| ==>
                Stepped(old(Views())[i], Views()[i], step.outcome.Jumped? && step.segment == segments[i], t, create)
    {
      ghost var path, merged;
      var r;
      r, path, merged := JumpTo(t, create, dijkstra);
      step := Step(r, t, current);
      forall i | 0 <= i < |segments|
        ensures Stepped(old(Views())[i], Views()[i], r.Jumped? && current == segments[i], t, create)
      {
        ghost var s := segments[i];
        assert s in segments;
      }
    }
  }

  /** One call of `jump_to`, and the segment that is current after it. */
  datatype Step = Step(outcome: Outcome, target: int, segment: Segment)

  /** The last target reached in segment s, or the time before. */
  ghost function LastReached(time: int, steps: seq<Step>, s: Segment): int {
    if steps == [] then time
    else if Last(steps).outcome.Jumped? && Last(steps).segment == s then Last(steps).target
    else LastReached(time, Init(steps), s)
  }

  /** What a call does to a segment, seen from outside. */
  ghost predicate Stepped(before: View, after: View, landed: bool, t: int, create: bool) {
    && after.stamps == before.stamps && after.time == (if landed then t else before.time)
    && before.saved <= after.saved && (!create ==> after.saved == before.saved)
  }

  ghost predicate AllReached(segments: seq<Segment>, first: seq<View>, now: seq<View>, steps: seq<Step>) {
    && |first| == |now| == |segments|
    && forall i :: 0 <= i < |segments| ==>
         && now[i].time == LastReached(first[i].time, steps, segments[i])
         && now[i].stamps == first[i].stamps && first[i].saved <= now[i].saved
  }

  /** Each segment in which every merged chain was good holds the state recorded at the greatest
      recorded time not after its own. */
  ghost predicate AllHold(segments: seq<Segment>, now: seq<View>) {
    |now| == |segments| && forall i :: 0 <= i < |segments| ==>
      (AllGood(now[i].saved) ==> HoldsAt(segments[i].recorded, now[i], now[i].time))
  }

  ghost predicate Targets(calls: seq<(int, bool)>, steps: seq<Step>) {
    |steps| == |calls| && forall i :: 0 <= i < |calls| ==> steps[i].target == calls[i].0
  }

  predicate NoMerging(calls: seq<(int, bool)>) {
    forall i :: 0 <= i < |calls| ==> !calls[i].1
  }

  lemma TargetsNext(calls: seq<(int, bool)>, steps: seq<Step>, step: Step)
    requires calls != [] && Targets(Init(calls), steps) && step.target == Last(calls).0
    ensures Targets(calls, steps + [step])
    ensures NoMerging(calls) ==> NoMerging(Init(calls)) && !Last(calls).1
  {
  }

  ghost predicate SameSaved(first: seq<View>, now: seq<View>) {
    |first| == |now| && forall i :: 0 <= i < |first| ==> now[i].saved == first[i].saved
  }

  lemma ReachedNext(segments: seq<Segment>, first: seq<View>, was: seq<View>, now: seq<View>, steps: seq<Step>,
                    step: Step, create: bool)
    requires AllReached(segments, first, was, steps) && |now| == |was|
    requires forall i :: 0 <= i < |segments| ==>
               Stepped(was[i], now[i], step.outcome.Jumped? && step.segment == segments[i], step.target, create)
    ensures AllReached(segments, first, now, steps + [step])
    ensures !create && SameSaved(first, was) ==> SameSaved(first, now)
  {
    assert Init(steps + [step]) == steps;
  }
}
