/** The long-patch builder itself: the operation fold over all patches of a chain, the
    depth-first push of later changes into a value, and the breadth-first collapse. */
module OpTree {
  import opened Values
  import opened OpFold
  import opened LongPatch
  import opened Sorting

  // ----- slots by absolute path

  /** The slot of path p after the whole chain. */
  function FoldAt(ops: seq<Op>, p: Path): Option<Slot> {
    if ops == [] then None
    else if Last(ops).path == p then Some(FoldStep(FoldAt(Init(ops), p), Last(ops)))
    else FoldAt(Init(ops), p)
  }

  /** The operations at or below p, seen from p. */
  function Rel(ops: seq<Op>, p: Path): seq<Op>
    decreases |p|
  {
    if p == [] then ops else Rel(Sub(ops, p[0]), p[1..])
  }

  lemma {:induction false} FoldAtRoot(ops: seq<Op>)
    ensures FoldAt(ops, []) == FoldDirect(ops)
  {
    if ops != [] {
      FoldAtRoot(Init(ops));
    }
  }

  lemma {:induction false} FoldAtSub(ops: seq<Op>, k: Key, p: Path)
    ensures FoldAt(Sub(ops, k), p) == FoldAt(ops, [k] + p)
  {
    if ops != [] {
      FoldAtSub(Init(ops), k, p);
      var l := Last(ops);
      assert ([k] + p)[1..] == p;
      if l.path != [] && l.path[0] == k {
        assert Init(Sub(ops, k)) == Sub(Init(ops), k);
        assert l.path == [k] + l.path[1..];
      }
    }
  }

  lemma {:induction false} FoldAtRel(ops: seq<Op>, p: Path)
    ensures FoldAt(ops, p) == FoldDirect(Rel(ops, p))
    decreases |p|
  {
    if p == [] {
      FoldAtRoot(ops);
    } else {
      assert p == [p[0]] + p[1..];
      FoldAtSub(ops, p[0], p[1..]);
      FoldAtRel(Sub(ops, p[0]), p[1..]);
    }
  }

  lemma {:induction false} RelSnoc(ops: seq<Op>, p: Path, k: Key)
    ensures Rel(ops, p + [k]) == Sub(Rel(ops, p), k)
    decreases |p|
  {
    if p == [] {
      assert p + [k] == [k];
      assert [k][1..] == [];
    } else {
      assert (p + [k])[0] == p[0] && (p + [k])[1..] == p[1..] + [k];
      RelSnoc(Sub(ops, p[0]), p[1..], k);
    }
  }

  lemma {:induction false} RelIncreasing(ops: seq<Op>, p: Path)
    requires Increasing(ops)
    ensures Increasing(Rel(ops, p))
    decreases |p|
  {
    if p != [] {
      SubIncreasing(ops, p[0]);
      RelIncreasing(Sub(ops, p[0]), p[1..]);
    }
  }

  lemma {:induction false} RelMember(ops: seq<Op>, p: Path, op: Op)
    ensures op in Rel(ops, p) <==> op.(path := p + op.path) in ops
    decreases |p|
  {
    if p == [] {
      assert p + op.path == op.path;
    } else {
      RelMember(Sub(ops, p[0]), p[1..], op);
      SubMember(ops, p[0], op.(path := p[1..] + op.path));
      assert [p[0]] + (p[1..] + op.path) == p + op.path;
    }
  }

  lemma {:induction false} SlotValue(ops: seq<Op>)
    requires GoodValues(ops) && FoldDirect(ops).Some?
    ensures WellFormed(FoldDirect(ops).value.value)
  {
    assert Last(ops) in ops;
    if Last(ops).path != [] {
      assert forall op :: op in Init(ops) ==> op in ops;
      SlotValue(Init(ops));
    }
  }

  lemma RelValues(ops: seq<Op>, p: Path)
    requires GoodValues(ops)
    ensures GoodValues(Rel(ops, p))
  {
    forall op | op in Rel(ops, p) ensures WellFormed(op.value) {
      RelMember(ops, p, op);
    }
  }

  // ----- the chain of patches

  function StampFrom(n: nat, ops: seq<Op>): (r: seq<Op>)
    ensures |r| == |ops|
    ensures forall i :: 0 <= i < |ops| ==> r[i] == ops[i].(at := n + i)
  {
    seq(|ops|, i requires 0 <= i < |ops| => ops[i].(at := n + i))
  }

  /** All operations of the patches in order, each stamped with its position. */
  function Chain(patches: seq<seq<Op>>): seq<Op> {
    if patches == [] then []
    else Chain(Init(patches)) + StampFrom(|Chain(Init(patches))|, Last(patches))
  }

  lemma {:induction false} ChainTimes(patches: seq<seq<Op>>)
    ensures forall i :: 0 <= i < |Chain(patches)| ==> Chain(patches)[i].at == i
    ensures Increasing(Chain(patches))
  {
    if patches != [] {
      ChainTimes(Init(patches));
    }
  }

  /** Stamping does not change what a run does. */
  lemma {:induction false} StampRun(cur: Option<Value>, n: nat, ops: seq<Op>)
    ensures SlotRun(cur, StampFrom(n, ops)) == SlotRun(cur, ops)
  {
    if ops != [] {
      assert Init(StampFrom(n, ops)) == StampFrom(n, Init(ops));
      StampRun(cur, n, Init(ops));
      if SlotRun(cur, Init(ops)).Some? {
        StepAnyTime(Last(ops), n + |ops| - 1, SlotRun(cur, Init(ops)).value);
      }
    }
  }

  // ----- the subtree of touched paths

  type Adj = map<Path, seq<Path>>

  type Slots = map<Path, Option<Slot>>

  /** Node p is linked to its parent and to exactly its children. */
  ghost predicate Linked(adj: Adj, p: Path)
    requires p in adj
  {
    && (p != [] ==> Init(p) in adj && p in adj[Init(p)])
    && (forall q :: q in adj[p] ==> q in adj && q != [] && Init(q) == p)
    && Distinct(adj[p])
  }

  /** adj is the tree of its keys: prefix-closed, and every key lists exactly its children
      among the keys, once each. */
  ghost predicate IsTree(adj: Adj) {
    [] in adj && forall p {:trigger Linked(adj, p)} :: p in adj ==> Linked(adj, p)
  }

  /** q lies on the way from the root to one of the nodes. */
  ghost predicate OnPath(ps: seq<Path>, q: Path) {
    q == [] || exists p :: p in ps && q <= p
  }

  /** The subtree that connects the given nodes with the root and holds nothing else. */
  ghost predicate SubtreeOf(adj: Adj, ps: seq<Path>) {
    && IsTree(adj)
    && (forall p :: p in ps ==> p in adj)
    && (forall q {:trigger OnPath(ps, q)} :: q in adj ==> OnPath(ps, q))
  }

  ghost predicate Covers(adj: Adj, ops: seq<Op>) {
    IsTree(adj) && forall op :: op in ops ==> op.path in adj
  }

  /** What `build_op_tree` hands on: one entry per node of the subtree. */
  ghost predicate SlotsOf(slots: Slots, adj: Adj, ops: seq<Op>) {
    slots.Keys == adj.Keys && forall p :: p in slots ==> slots[p] == FoldAt(ops, p)
  }

  lemma {:induction false} TreePrefix(adj: Adj, p: Path, n: nat)
    requires IsTree(adj) && p in adj && n <= |p|
    ensures p[..n] in adj
    decreases |p|
  {
    if n < |p| {
      assert Linked(adj, p);
      assert Init(p)[..n] == p[..n];
      TreePrefix(adj, Init(p), n);
    } else {
      assert p[..n] == p;
    }
  }

  /** One operation into its slot keeps the slot table the fold of what was done. */
  lemma FoldOne(slots: Slots, adj: Adj, done: seq<Op>, op: Op)
    requires SlotsOf(slots, adj, done) && op.path in adj
    ensures SlotsOf(slots[op.path := Some(FoldStep(slots[op.path], op))], adj, done + [op])
  {
    assert Init(done + [op]) == done;
    var slots' := slots[op.path := Some(FoldStep(slots[op.path], op))];
    assert slots'.Keys == slots.Keys;
  }

  /** The inner loop of `build_op_tree_fast`: fold one patch, starting at time t. */
  method FoldPatch(ops: seq<Op>, t: nat, slots0: Slots, adj: Adj, ghost before: seq<Op>) returns (slots: Slots)
    requires SlotsOf(slots0, adj, before) && t == |before|
    requires forall j :: 0 <= j < |ops| ==> ops[j].path in adj
    ensures SlotsOf(slots, adj, before + StampFrom(t, ops))
  {
    slots := slots0;
    assert before + StampFrom(t, ops[..0]) == before;
    for j := 0 to |ops|
      invariant SlotsOf(slots, adj, before + StampFrom(t, ops[..j]))
    {
      var op := ops[j].(at := t + j);
      FoldOne(slots, adj, before + StampFrom(t, ops[..j]), op);
      slots := slots[op.path := Some(FoldStep(slots[op.path], op))];
      assert before + StampFrom(t, ops[..j]) + [op] == before + StampFrom(t, ops[..j + 1]);
    }
    assert ops[..|ops|] == ops;
  }

  /** `build_op_tree_fast`: fold every operation of every patch into the slot of its path. */
  method BuildOpTree(patches: seq<seq<Op>>, adj: Adj) returns (slots: Slots)
    requires Covers(adj, Chain(patches))
    ensures SlotsOf(slots, adj, Chain(patches))
  {
    slots := map p | p in adj :: None;
    var t := 0;
    for i := 0 to |patches|
      invariant t == |Chain(patches[..i])|
      invariant SlotsOf(slots, adj, Chain(patches[..i]))
    {
      assert Init(patches[..i + 1]) == patches[..i];
      forall j | 0 <= j < |patches[i]| ensures patches[i][j].path in adj {
        ChainHolds(patches, i, j);
      }
      slots := FoldPatch(patches[i], t, slots, adj, Chain(patches[..i]));
      t := t + |patches[i]|;
    }
    assert patches[..|patches|] == patches;
  }

  lemma {:induction false} ChainHolds(patches: seq<seq<Op>>, i: nat, j: nat)
    requires i < |patches| && j < |patches[i]|
    ensures exists op :: op in Chain(patches) && op.path == patches[i][j].path && op.value == patches[i][j].value
  {
    var c := Chain(Init(patches));
    if i == |patches| - 1 {
      assert Chain(patches)[|c| + j] == patches[i][j].(at := |c| + j);
    } else {
      ChainHolds(Init(patches), i, j);
      var op :| op in c && op.path == patches[i][j].path && op.value == patches[i][j].value;
      assert op in Chain(patches);
    }
  }
}
