/** `create_long_patch`: from a chain of patches to one, with its exact guarantee. */
module LongPatchBuilder {
  import opened Values
  import opened OpFold
  import opened LongPatch
  import opened OpTree
  import opened Collapse
  import opened Cancellation

  /** Applying the patches of a chain one after the other. */
  function RunPatches(cur: Option<Value>, patches: seq<seq<Op>>): Option<Option<Value>> {
    if patches == [] then Some(cur)
    else match RunPatches(cur, Init(patches))
      case None => None
      case Some(x) => SlotRun(x, Last(patches))
  }

  lemma {:induction false} ChainRun(cur: Option<Value>, patches: seq<seq<Op>>)
    ensures SlotRun(cur, Chain(patches)) == RunPatches(cur, patches)
  {
    if patches != [] {
      ChainRun(cur, Init(patches));
      var c := Chain(Init(patches));
      RunAppend(cur, c, StampFrom(|c|, Last(patches)));
      if SlotRun(cur, c).Some? {
        StampRun(SlotRun(cur, c).value, |c|, Last(patches));
      }
    }
  }

  /** Strictly increasing times taken from 0..n-1 are at most n many. */
  lemma {:induction false} TimesBound(patch: seq<Op>, i: nat)
    requires Increasing(patch) && i < |patch|
    ensures patch[i].at >= i
  {
    if i > 0 {
      TimesBound(patch, i - 1);
    }
  }

  lemma TimeInChain(patches: seq<seq<Op>>, e: Op)
    requires InCollapse(Chain(patches), e)
    ensures e.at < |Chain(patches)|
  {
    CollapseTime(Chain(patches), e);
    ChainTimes(patches);
  }

  /** A collapse has no more operations than the chain. */
  lemma CollapseShorter(patches: seq<seq<Op>>, patch: seq<Op>)
    requires IsCollapse(Chain(patches), patch)
    ensures |patch| <= |Chain(patches)|
  {
    if patch != [] {
      TimesBound(patch, |patch| - 1);
      assert InCollapse(Chain(patches), Last(patch));
      TimeInChain(patches, Last(patch));
    }
  }

  lemma CollapseDeep(ops: seq<Op>, patch: seq<Op>)
    requires AllDeep(ops) && IsCollapse(ops, patch)
    ensures AllDeep(patch)
  {
    FoldNone(ops);
    forall i | 0 <= i < |patch| ensures patch[i].path != [] {
      assert InCollapse(ops, patch[i]);
    }
  }

  /** Two operations of a collapse are the same or lie on paths of which none is above the
      other. */
  lemma {:induction false} CollapseFlat(ops: seq<Op>, e: Op, f: Op)
    requires InCollapse(ops, e) && InCollapse(ops, f) && e.path <= f.path
    ensures e == f
    decreases |e.path|
  {
    if FoldDirect(ops).None? {
      assert e.path[0] == f.path[0];
      CollapseFlat(Sub(ops, e.path[0]), Tail(e), Tail(f));
      assert e.path == [e.path[0]] + e.path[1..] && f.path == [f.path[0]] + f.path[1..];
    }
  }

  lemma CollapseIsFlat(ops: seq<Op>, patch: seq<Op>)
    requires IsCollapse(ops, patch)
    ensures Antichain(patch)
  {
    forall i, j | 0 <= i < |patch| && 0 <= j < |patch| && i != j ensures !(patch[i].path <= patch[j].path) {
      if patch[i].path <= patch[j].path {
        assert patch[i] in patch && patch[j] in patch;
        CollapseFlat(ops, patch[i], patch[j]);
      }
    }
  }

  /** A chain of recorded patches that can be run from a state. */
  ghost predicate Recorded(start: Value, patches: seq<seq<Op>>) {
    && AllDeep(Chain(patches)) && GoodValues(Chain(patches)) && WellFormed(start)
    && RunPatches(Some(start), patches).Some?
  }

  /** What merging promises for a chain that can be pushed and run.  It fails if and only if every
      topmost addressed position is empty before and after the chain, and then the chain changes
      nothing.  The patch applies without error, is no longer than the chain, and reaches the
      chain's end state exactly when the chain is loss-free, in particular whenever it satisfies
      (E) and (C).  It can be merged again: its values are well-formed and no operation of it
      lies below another. */
  ghost predicate Merges(start: Value, patches: seq<seq<Op>>, r: Option<seq<Op>>)
    requires RunPatches(Some(start), patches).Some?
  {
    var ops, end, patch := Chain(patches), RunPatches(Some(start), patches), if r.Some? then r.value else [];
    && (r.None? <==> Cancels(Some(start), ops, end.value))
    && (r.None? ==> end == Some(Some(start)))
    && |patch| <= |ops| && Antichain(patch) && GoodValues(patch)
    && ExecRun(start, patch).Some?
    && (SlotRun(Some(start), patch) == end <==> LossFree(ops))
    && (ExecRun(start, patch) == end.value <==> LossFree(ops))
    && (CondE(ops) && CondC(ops) ==> LossFree(ops))
  }

  /** `create_long_patch`, after the shortest path and its subtree are known: on any chain, the
      patch addresses only paths the chain addresses; on one that can be pushed, which every
      chain that satisfies (E) and can be run is, it is the collapse and what merging promises. */
  method CreateLongPatch(patches: seq<seq<Op>>, adj: Adj, ghost start: Value) returns (r: Option<seq<Op>>)
    requires Covers(adj, Chain(patches))
    ensures r.Some? ==> r.value != [] && forall e :: e in r.value ==> Touched(Chain(patches), e.path)
    ensures r.Some? && AllDeep(Chain(patches)) ==> AllDeep(r.value)
    ensures Pushable(Chain(patches)) ==> IsCollapse(Chain(patches), if r.Some? then r.value else [])
    ensures Pushable(Chain(patches)) && Recorded(start, patches) ==> Merges(start, patches, r)
    ensures CondE(Chain(patches)) && Recorded(start, patches) ==> Pushable(Chain(patches))
    ensures forall u :: MisfitTop(Chain(patches), u) ==> r.None?
  {
    ghost var ops := Chain(patches);
    ChainTimes(patches);
    var slots := BuildOpTree(patches, adj);
    r := CollapseOpTree(slots, adj, ops);
    if r.Some? && AllDeep(ops) {
      TouchedDeep(ops, r.value);
    }
    if Recorded(start, patches) {
      ChainRun(Some(start), patches);
      if CondE(ops) {
        FoldablePushable(Some(start), ops);
      }
      if Pushable(ops) {
        MergesExactly(start, patches, r);
      }
    }
  }

  lemma TouchedDeep(ops: seq<Op>, patch: seq<Op>)
    requires AllDeep(ops) && forall e :: e in patch ==> Touched(ops, e.path)
    ensures AllDeep(patch)
  {
    forall i | 0 <= i < |patch| ensures patch[i].path != [] {
      assert patch[i] in patch;
    }
  }

  lemma MergesExactly(start: Value, patches: seq<seq<Op>>, r: Option<seq<Op>>)
    requires Recorded(start, patches)
    requires r.Some? ==> IsCollapse(Chain(patches), r.value) && r.value != [] && GoodValues(r.value)
    requires r.None? ==> IsCollapse(Chain(patches), [])
    ensures Merges(start, patches, r)
  {
    var ops, patch := Chain(patches), if r.Some? then r.value else [];
    ChainTimes(patches);
    ChainRun(Some(start), patches);
    CollapseExact(Some(start), ops, patch);
    CollapseShorter(patches, patch);
    CollapseDeep(ops, patch);
    CollapseIsFlat(ops, patch);
    EmptyExactly(Some(start), ops);
    if r.None? {
      EmptyUnchanged(Some(start), ops);
    } else {
      assert r.value[0] in r.value;
    }
    RunIsExec(start, patch);
    RunIsExec(start, ops);
    if CondE(ops) && CondC(ops) {
      MergeableLossFree(Some(start), ops);
    }
  }
}
