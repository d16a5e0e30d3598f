/** When nothing of a chain survives merging: exactly when the chain leaves no trace. */
module Cancellation {
  import opened Values
  import opened OpFold
  import opened LongPatch
  import opened OpTree
  import opened Collapse

  /** p is addressed and nothing above it is. */
  ghost predicate Topmost(ops: seq<Op>, p: Path) {
    Touched(ops, p) && forall n :: 0 <= n < |p| ==> !Touched(ops, p[..n])
  }

  /** Every topmost addressed position is empty before the chain and after it. */
  ghost predicate Cancels(cur: Option<Value>, ops: seq<Op>, end: Option<Value>) {
    forall p :: Topmost(ops, p) ==> GetAt(cur, p).None? && GetAt(end, p).None?
  }

  lemma TouchedFold(ops: seq<Op>, p: Path)
    ensures Touched(ops, p) <==> FoldAt(ops, p).Some?
  {
    FoldAtRel(ops, p);
    FoldNone(Rel(ops, p));
    if Touched(ops, p) {
      var op :| op in ops && op.path == p;
      var rel := op.(path := []);
      assert p + [] == p;
      RelMember(ops, p, rel);
      assert rel in Rel(ops, p);
    }
    if FoldAt(ops, p).Some? {
      var a := CreatedBy(Rel(ops, p));
      RelMember(ops, p, a);
      assert p + a.path == p;
    }
  }

  lemma TopmostFold(ops: seq<Op>, p: Path)
    ensures Topmost(ops, p) <==> Open(ops, p) && FoldAt(ops, p).Some?
  {
    TouchedFold(ops, p);
    forall n | 0 <= n < |p| ensures Touched(ops, p[..n]) <==> FoldAt(ops, p[..n]).Some? {
      TouchedFold(ops, p[..n]);
    }
  }

  /** What the slot at a topmost position says about the state before and after. */
  lemma TopmostSlot(cur: Option<Value>, ops: seq<Op>, p: Path, s: Slot)
    requires Increasing(ops) && SlotRun(cur, ops).Some? && Open(ops, p) && FoldAt(ops, p) == Some(s)
    ensures s.op.None? <==> GetAt(cur, p).None? && GetAt(SlotRun(cur, ops).value, p).None?
  {
    var rel := Rel(ops, p);
    OpenRun(cur, ops, p);
    FoldAtRel(ops, p);
    RelIncreasing(ops, p);
    FoldRun(GetAt(cur, p), rel);
    DeepRunKeeps(Start(s), After(s.changed, rel));
  }

  /** Nothing survives if and only if every topmost addressed position is empty before and
      after. */
  lemma EmptyExactly(cur: Option<Value>, ops: seq<Op>)
    requires Increasing(ops) && SlotRun(cur, ops).Some?
    ensures IsCollapse(ops, []) <==> Cancels(cur, ops, SlotRun(cur, ops).value)
  {
    var end := SlotRun(cur, ops).value;
    if IsCollapse(ops, []) {
      forall p | Topmost(ops, p) ensures GetAt(cur, p).None? && GetAt(end, p).None? {
        TopmostFold(ops, p);
        var s := FoldAt(ops, p).value;
        if s.op.Some? {
          var e := Op(s.created, s.op.value, p, DfsNode(s.value, s.changed, Rel(ops, p)));
          InCollapseAt(ops, e);
        }
        TopmostSlot(cur, ops, p, s);
      }
    }
    if Cancels(cur, ops, end) {
      forall e ensures !InCollapse(ops, e) {
        InCollapseAt(ops, e);
        if InCollapse(ops, e) {
          TopmostFold(ops, e.path);
          TopmostSlot(cur, ops, e.path, FoldAt(ops, e.path).value);
        }
      }
    }
  }

  /** A chain of which nothing survives changes nothing. */
  lemma {:induction false} EmptyUnchanged(cur: Option<Value>, ops: seq<Op>)
    requires Increasing(ops) && SlotRun(cur, ops).Some? && IsCollapse(ops, [])
    ensures SlotRun(cur, ops) == Some(cur)
    decreases Height(ops)
  {
    FoldNone(ops);
    if FoldDirect(ops).Some? {
      FoldAtRoot(ops);
      var s := FoldDirect(ops).value;
      if s.op.Some? {
        assert InCollapse(ops, Op(s.created, s.op.value, [], DfsNode(s.value, s.changed, ops)));
      }
      FoldRun(cur, ops);
    } else if ops != [] {
      DeepRunKeeps(cur, ops);
      var v := cur.value;
      Split(v, ops);
      var r := SlotRun(cur, ops).value.value;
      forall k ensures Lookup(r, k) == Lookup(v, k) {
        SubHeight(ops, k);
        SubIncreasing(ops, k);
        SubCollapse(ops, [], k);
        EmptyUnchanged(Lookup(v, k), Sub(ops, k));
      }
      NodeExt(r, v);
    }
  }
}
