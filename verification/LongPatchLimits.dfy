/** Both conditions on a chain are needed: two families of valid chains, each breaking one
    condition, on which the merged patch applies without error and reaches a wrong state. */
module LongPatchLimits {
  import opened Values
  import opened OpFold
  import opened LongPatch
  import opened OpTree
  import opened Collapse
  import opened LongPatchBuilder

  function Below(op: Op, k: Key): seq<Op> {
    if op.path != [] && op.path[0] == k then [Tail(op)] else []
  }

  lemma SubPush(s: seq<Op>, op: Op, k: Key)
    ensures Sub(s + [op], k) == Sub(s, k) + Below(op, k)
  {
    assert Init(s + [op]) == s;
  }

  lemma FoldPush(s: seq<Op>, op: Op)
    ensures FoldDirect(s + [op]) == if op.path == [] then Some(FoldStep(FoldDirect(s), op)) else FoldDirect(s)
  {
    assert Init(s + [op]) == s;
  }

  lemma RunPush(cur: Option<Value>, s: seq<Op>, op: Op, mid: Option<Value>)
    requires SlotRun(cur, s) == Some(mid)
    ensures SlotRun(cur, s + [op]) == SlotStep(op, mid)
  {
    assert Init(s + [op]) == s;
  }

  lemma RunOne(cur: Option<Value>, op: Op)
    ensures SlotRun(cur, [op]) == SlotStep(op, cur)
  {
    RunPush(cur, [], op, cur);
    assert [] + [op] == [op];
  }

  lemma SubTwo(a: Op, b: Op, k: Key)
    ensures Sub([a, b], k) == Below(a, k) + Below(b, k)
  {
    SubPush([], a, k);
    SubPush([a], b, k);
    assert [] + [a] == [a] && [a] + [b] == [a, b];
  }

  lemma SubThree(a: Op, b: Op, c: Op, k: Key)
    ensures Sub([a, b, c], k) == Below(a, k) + Below(b, k) + Below(c, k)
  {
    SubTwo(a, b, k);
    SubPush([a, b], c, k);
    assert [a, b] + [c] == [a, b, c];
  }

  lemma FoldTwo(a: Op, b: Op)
    ensures FoldDirect([a, b]) ==
            var s := if a.path == [] then Some(FoldStep(None, a)) else None;
            if b.path == [] then Some(FoldStep(s, b)) else s
  {
    FoldPush([], a);
    FoldPush([a], b);
    assert [] + [a] == [a] && [a] + [b] == [a, b];
  }

  // ----- (C): a nested change below an untouched field of a new entry

  /** An entry is added to a dict, then a patch reaches at least two levels inside it. */
  function NestedChain(k: Key, v: Value, op: Op): seq<Op> {
    [Op(0, Add, [k], v), op.(at := 1)]
  }

  lemma NestedPush(v: Value, op: Op)
    requires |op.path| >= 2
    ensures DfsNode(v, 0, [Op(0, Add, [], v), op]) == v
    ensures FoldDirect([Op(0, Add, [], v), op]) == Some(Slot(Some(Add), v, 0, 0))
  {
    var a := Op(0, Add, [], v);
    FoldTwo(a, op);
    if v.Node? {
      var r := DfsNode(v, 0, [a, op]);
      forall c ensures Lookup(r, c) == Lookup(v, c) {
        DfsLookup(v, 0, [a, op], c);
        SubTwo(a, op, c);
        FoldNone(Sub([a, op], c));
      }
      DfsLookup(v, 0, [a, op], IntKey(0));
      NodeExt(r, v);
    }
  }

  lemma NestedCollapse(k: Key, v: Value, op: Op)
    requires |op.path| >= 3 && op.path[0] == k
    ensures IsCollapse(NestedChain(k, v, op), [Op(0, Add, [k], v)])
  {
    var ops := NestedChain(k, v, op);
    var a, b := ops[0], ops[1];
    assert Tail(a) == Op(0, Add, [], v);
    NestedPush(v, Tail(b));
    FoldTwo(a, b);
    assert a == Cons(k, Tail(a));
    forall e ensures e in [a] <==> InCollapse(ops, e) {
      if e.path != [] {
        SubTwo(a, b, e.path[0]);
        assert e == Cons(e.path[0], Tail(e));
        if e.path[0] == k {
          assert Sub(ops, k) == [Tail(a), Tail(b)];
          assert InCollapse(ops, e) <==> InCollapse([Tail(a), Tail(b)], Tail(e));
          assert InCollapse([Tail(a), Tail(b)], Tail(e)) <==> Tail(e) == Tail(a);
        } else {
          EmptyCollapse(Tail(e));
        }
      }
    }
  }

  lemma NestedFoldable(k: Key, v: Value, op: Op)
    requires |op.path| >= 3 && op.path[0] == k
    ensures Foldable(NestedChain(k, v, op)) && !CondC(NestedChain(k, v, op))
  {
    var ops := NestedChain(k, v, op);
    forall a, b, c ensures !Sandwich(ops, a, b, c) {
      assert a in ops && c in ops && a.path == c.path ==> a == c;
    }
    assert ops[1].path[..1] == [k];
    assert |ops[1].path[..2]| == 2;
    assert Gap(ops, ops[0], ops[1], 2);
  }

  /** Every chain that adds a dict entry and then changes something at least two levels
      inside it satisfies (E) but not (C), and its merged patch drops the change: the merged
      state holds v, the chain's state the changed w. */
  lemma NestedChangeLost(d: Value, k: Key, v: Value, op: Op, w: Value)
    requires d.Node? && d.kind.Dict? && k !in d.kids
    requires |op.path| >= 3 && op.path[0] == k
    requires SlotStep(Tail(op), Some(v)) == Some(Some(w))
    ensures Foldable(NestedChain(k, v, op)) && !CondC(NestedChain(k, v, op))
    ensures IsCollapse(NestedChain(k, v, op), [Op(0, Add, [k], v)])
    ensures SlotRun(Some(d), [Op(0, Add, [k], v)]) == Some(Some(Node(Dict, d.kids[k := v])))
    ensures SlotRun(Some(d), NestedChain(k, v, op)) == Some(Some(Node(Dict, d.kids[k := w])))
  {
    var ops := NestedChain(k, v, op);
    NestedFoldable(k, v, op);
    NestedCollapse(k, v, op);
    NestedRuns(d, k, v, op, w);
  }

  lemma NestedRuns(d: Value, k: Key, v: Value, op: Op, w: Value)
    requires d.Node? && d.kind.Dict? && k !in d.kids
    requires |op.path| >= 3 && op.path[0] == k
    requires SlotStep(Tail(op), Some(v)) == Some(Some(w))
    ensures SlotRun(Some(d), [Op(0, Add, [k], v)]) == Some(Some(Node(Dict, d.kids[k := v])))
    ensures SlotRun(Some(d), NestedChain(k, v, op)) == Some(Some(Node(Dict, d.kids[k := w])))
  {
    var mid, end := Node(Dict, d.kids[k := v]), Node(Dict, d.kids[k := w]);
    AddIn(d, Op(0, Add, [k], v), k, mid);
    NestedStep(mid, k, v, op, w);
    assert mid.kids[k := w] == end.kids;
    RunPair(Some(d), Op(0, Add, [k], v), op.(at := 1), Some(mid), Some(end));
  }

  lemma RunPair(cur: Option<Value>, a: Op, b: Op, mid: Option<Value>, end: Option<Value>)
    requires SlotStep(a, cur) == Some(mid) && SlotStep(b, mid) == Some(end)
    ensures SlotRun(cur, [a]) == Some(mid) && SlotRun(cur, [a, b]) == Some(end)
  {
    RunOne(cur, a);
    RunPush(cur, [a], b, mid);
    assert [a] + [b] == [a, b];
  }

  lemma AddIn(d: Value, op: Op, k: Key, d': Value)
    requires d.Node? && d.kind.Dict? && k !in d.kids && op.path == [k] && op.kind.Add?
    requires d' == Node(Dict, d.kids[k := op.value])
    ensures SlotStep(op, Some(d)) == Some(Some(d'))
  {
    SetIn(d, op, k);
    assert Assign(d.kids, k, Some(op.value)) == d'.kids;
  }

  lemma NestedStep(mid: Value, k: Key, v: Value, op: Op, w: Value)
    requires mid.Node? && mid.kind.Dict? && k in mid.kids && mid.kids[k] == v
    requires |op.path| >= 3 && op.path[0] == k
    requires SlotStep(Tail(op), Some(v)) == Some(Some(w))
    ensures SlotStep(op.(at := 1), Some(mid)) == Some(Some(Node(Dict, mid.kids[k := w])))
  {
    StepAnyTime(Tail(op), 1, Some(v));
    assert Tail(op.(at := 1)) == Tail(op).(at := 1);
    assert Assign(mid.kids, k, Some(w)) == mid.kids[k := w];
  }

  const X := StrKey("x")
  const Y := StrKey("y")

  function Unit(health: int): Value {
    Node(Obj("Unit"), map[X := Node(Obj("Stats"), map[Y := Leaf(IntP(health))])])
  }

  /** A concrete loss: unit 7 is added with health 1, then its nested health becomes 2.  The
      merged patch leaves it at 1. */
  lemma HealthLost()
    ensures var op := Op(0, Replace, [IntKey(7), X, Y], Leaf(IntP(2)));
            var empty := Node(Dict, map[]);
            && IsCollapse(NestedChain(IntKey(7), Unit(1), op), [Op(0, Add, [IntKey(7)], Unit(1))])
            && SlotRun(Some(empty), [Op(0, Add, [IntKey(7)], Unit(1))]) ==
               Some(Some(Node(Dict, map[IntKey(7) := Unit(1)])))
            && SlotRun(Some(empty), NestedChain(IntKey(7), Unit(1), op)) ==
               Some(Some(Node(Dict, map[IntKey(7) := Unit(2)])))
    ensures Unit(1) != Unit(2)
  {
    var op := Op(0, Replace, [IntKey(7), X, Y], Leaf(IntP(2)));
    var b, c := Tail(op), Tail(Tail(op));
    assert b.path == [X, Y] && c.path == [Y] && Tail(c).path == [];
    var stats := Unit(1).kids[X];
    assert Assign(stats.kids, Y, Some(Leaf(IntP(2)))) == Unit(2).kids[X].kids;
    assert SlotStep(c, Some(stats)) == Some(Some(Unit(2).kids[X]));
    assert Assign(Unit(1).kids, X, Some(Unit(2).kids[X])) == Unit(2).kids;
    assert SlotStep(b, Some(Unit(1))) == Some(Some(Unit(2)));
    NestedChangeLost(Node(Dict, map[]), IntKey(7), Unit(1), op, Unit(2));
    assert Unit(1).kids[X].kids[Y] != Unit(2).kids[X].kids[Y];
  }

  // ----- (E): an entry added and removed again around a replacement of its container

  function SandwichChain(p: Key, q: Key, v: Value, w: Value): seq<Op> {
    [Op(0, Add, [p, q], v), Op(1, Replace, [p], w), Op(2, Remove, [p, q], NONE)]
  }

  lemma SandwichSub(p: Key, q: Key, v: Value, w: Value)
    ensures Sub(SandwichChain(p, q, v, w), p) ==
            [Op(0, Add, [q], v), Op(1, Replace, [], w), Op(2, Remove, [q], NONE)]
    ensures forall k :: k != p ==> Sub(SandwichChain(p, q, v, w), k) == []
    ensures FoldDirect(SandwichChain(p, q, v, w)).None?
  {
    var ops := SandwichChain(p, q, v, w);
    SubThree(ops[0], ops[1], ops[2], p);
    assert ops[0].path[1..] == [q] && ops[1].path[1..] == [];
    forall k | k != p ensures Sub(ops, k) == [] {
      SubThree(ops[0], ops[1], ops[2], k);
    }
    FoldNone(ops);
  }

  lemma SandwichPush(q: Key, v: Value, w: Value)
    ensures var ops := [Op(0, Add, [q], v), Op(1, Replace, [], w), Op(2, Remove, [q], NONE)];
            && FoldDirect(ops) == Some(Slot(Some(Replace), w, 1, 1))
            && DfsNode(w, 1, ops) == w
  {
    var a, b, c := Op(0, Add, [q], v), Op(1, Replace, [], w), Op(2, Remove, [q], NONE);
    var ops := [a, b, c];
    FoldTwo(a, b);
    FoldPush([a, b], c);
    assert [a, b] + [c] == ops;
    if w.Node? {
      var r := DfsNode(w, 1, ops);
      forall k ensures Lookup(r, k) == Lookup(w, k) {
        DfsLookup(w, 1, ops, k);
        SubThree(a, b, c, k);
        if k == q {
          assert Sub(ops, q) == [Tail(a), Tail(c)];
          FoldTwo(Tail(a), Tail(c));
        }
      }
      DfsLookup(w, 1, ops, q);
      NodeExt(r, w);
    }
  }

  /** Every chain that adds an entry, replaces its container by one that already holds the
      key, and removes the key again breaks (E): the folded Add and Remove cancel, so the
      merged patch keeps the entry the chain removed. */
  lemma SandwichKeepsRemoved(d: Value, p: Key, q: Key, v: Value, w: Value)
    requires d.Node? && d.kind.Dict? && p in d.kids
    requires d.kids[p].Node? && d.kids[p].kind.Dict? && q !in d.kids[p].kids
    requires w.Node? && w.kind.Dict? && q in w.kids
    ensures Increasing(SandwichChain(p, q, v, w)) && !CondE(SandwichChain(p, q, v, w))
    ensures IsCollapse(SandwichChain(p, q, v, w), [Op(1, Replace, [p], w)])
    ensures SlotRun(Some(d), [Op(1, Replace, [p], w)]) == Some(Some(Node(Dict, d.kids[p := w])))
    ensures SlotRun(Some(d), SandwichChain(p, q, v, w)) ==
            Some(Some(Node(Dict, d.kids[p := Node(Dict, w.kids - {q})])))
    ensures w != Node(Dict, w.kids - {q}) && !LossFree(SandwichChain(p, q, v, w))
  {
    var ops := SandwichChain(p, q, v, w);
    assert Sandwich(ops, ops[0], ops[1], ops[2]);
    SandwichLoses(p, q, v, w);
    SandwichCollapse(p, q, v, w);
    SandwichRuns(d, p, q, v, w);
    assert q !in Node(Dict, w.kids - {q}).kids;
  }

  /** The cancelled entry is there to begin with: the container was replaced by one that has it. */
  lemma SandwichLoses(p: Key, q: Key, v: Value, w: Value)
    requires w.Node? && q in w.kids
    ensures !LossFree(SandwichChain(p, q, v, w))
  {
    var ops := SandwichChain(p, q, v, w);
    SandwichSub(p, q, v, w);
    SandwichPush(q, v, w);
    var sub := Sub(ops, p);
    SubHeight(ops, p);
    SubThree(sub[0], sub[1], sub[2], q);
    assert Sub(sub, q) == [Tail(sub[0]), Tail(sub[2])];
    FoldTwo(Tail(sub[0]), Tail(sub[2]));
    SubHeight(sub, q);
    assert !NeutralSlot(Lookup(w, q), 1, Sub(sub, q));
    assert !NeutralNode(w, 1, sub);
    assert !LossFree(sub);
  }

  lemma SandwichCollapse(p: Key, q: Key, v: Value, w: Value)
    ensures IsCollapse(SandwichChain(p, q, v, w), [Op(1, Replace, [p], w)])
  {
    var ops, out := SandwichChain(p, q, v, w), Op(1, Replace, [p], w);
    SandwichSub(p, q, v, w);
    SandwichPush(q, v, w);
    assert Tail(out) == Op(1, Replace, [], w) && out == Cons(p, Tail(out));
    forall e ensures e in [out] <==> InCollapse(ops, e) {
      if e.path != [] {
        assert e == Cons(e.path[0], Tail(e));
        if e.path[0] == p {
          assert InCollapse(ops, e) <==> InCollapse(Sub(ops, p), Tail(e));
          assert InCollapse(Sub(ops, p), Tail(e)) <==> Tail(e) == Tail(out);
        } else {
          EmptyCollapse(Tail(e));
        }
      }
    }
  }

  lemma SandwichRuns(d: Value, p: Key, q: Key, v: Value, w: Value)
    requires d.Node? && d.kind.Dict? && p in d.kids
    requires d.kids[p].Node? && d.kids[p].kind.Dict? && q !in d.kids[p].kids
    requires w.Node? && w.kind.Dict? && q in w.kids
    ensures SlotRun(Some(d), [Op(1, Replace, [p], w)]) == Some(Some(Node(Dict, d.kids[p := w])))
    ensures SlotRun(Some(d), SandwichChain(p, q, v, w)) ==
            Some(Some(Node(Dict, d.kids[p := Node(Dict, w.kids - {q})])))
  {
    var a, b, c := Op(0, Add, [p, q], v), Op(1, Replace, [p], w), Op(2, Remove, [p, q], NONE);
    var m1 := Node(Dict, Assign(d.kids[p].kids, q, Some(v)));
    var d1, d2, d3 := Node(Dict, d.kids[p := m1]), Node(Dict, d.kids[p := w]),
        Node(Dict, d.kids[p := Node(Dict, w.kids - {q})]);
    Overwrite(d.kids, p, m1, w);
    Overwrite(d.kids, p, w, Node(Dict, w.kids - {q}));
    assert SlotStep(a, Some(d)) == Some(Some(d1)) by {
      SetBelow(d, a, p, q);
    }
    assert SlotStep(b, Some(d1)) == Some(Some(d2)) by {
      ReplaceIn(d1, b, p, d2);
    }
    assert SlotStep(b, Some(d)) == Some(Some(d2)) by {
      ReplaceIn(d, b, p, d2);
    }
    assert SlotStep(c, Some(d2)) == Some(Some(d3)) by {
      RemoveBelow(d2, c, p, q, w);
    }
    RunTriple(Some(d), a, b, c, Some(d1), Some(d2), Some(d3));
    RunOne(Some(d), b);
  }

  lemma Overwrite(kids: map<Key, Value>, p: Key, x: Value, y: Value)
    ensures kids[p := x][p := y] == kids[p := y]
  {
  }

  lemma RunTriple(cur: Option<Value>, a: Op, b: Op, c: Op, x: Option<Value>, y: Option<Value>, z: Option<Value>)
    requires SlotStep(a, cur) == Some(x) && SlotStep(b, x) == Some(y) && SlotStep(c, y) == Some(z)
    ensures SlotRun(cur, [a, b, c]) == Some(z)
  {
    RunPair(cur, a, b, x, y);
    RunPush(cur, [a, b], c, y);
    assert [a, b] + [c] == [a, b, c];
  }

  lemma ReplaceIn(d: Value, op: Op, p: Key, d': Value)
    requires d.Node? && d.kind.Dict? && p in d.kids && op.path == [p] && op.kind.Replace?
    requires d' == Node(Dict, d.kids[p := op.value])
    ensures SlotStep(op, Some(d)) == Some(Some(d'))
  {
    SetIn(d, op, p);
    assert Assign(d.kids, p, Some(op.value)) == d'.kids;
  }

  lemma RemoveBelow(d: Value, op: Op, p: Key, q: Key, w: Value)
    requires d.Node? && d.kind.Dict? && op.path == [p, q] && op.kind.Remove? && p in d.kids && d.kids[p] == w
    requires w.Node? && w.kind.Dict? && q in w.kids
    ensures SlotStep(op, Some(d)) == Some(Some(Node(Dict, d.kids[p := Node(Dict, w.kids - {q})])))
  {
    SetBelow(d, op, p, q);
    assert Assign(w.kids, q, None) == w.kids - {q};
  }

  /** One operation on a dict inside a dict. */
  lemma SetBelow(d: Value, op: Op, p: Key, q: Key)
    requires d.Node? && d.kind.Dict? && op.path == [p, q] && p in d.kids
    requires d.kids[p].Node? && d.kids[p].kind.Dict?
    requires op.kind.Add? <==> q !in d.kids[p].kids
    ensures SlotStep(op, Some(d)) ==
            var x := if op.kind.Remove? then None else Some(op.value);
            Some(Some(Node(Dict, d.kids[p := Node(Dict, Assign(d.kids[p].kids, q, x))])))
  {
    assert Tail(op).path == [q];
    SetIn(d.kids[p], Tail(op), q);
    var x := if op.kind.Remove? then None else Some(op.value);
    var m := Node(Dict, Assign(d.kids[p].kids, q, x));
    assert Assign(d.kids, p, Some(m)) == d.kids[p := m];
  }

  /** One direct operation on a dict. */
  lemma SetIn(d: Value, op: Op, k: Key)
    requires d.Node? && d.kind.Dict? && op.path == [k]
    requires op.kind.Add? <==> k !in d.kids
    ensures SlotStep(op, Some(d)) ==
            Some(Some(Node(Dict, Assign(d.kids, k, if op.kind.Remove? then None else Some(op.value)))))
  {
    assert Tail(op).path == [];
  }

  // ----- what the code makes of both

  /** A collapse is determined by its chain. */
  lemma {:induction false} CollapseUnique(ops: seq<Op>, a: seq<Op>, b: seq<Op>)
    requires IsCollapse(ops, a) && IsCollapse(ops, b)
    ensures a == b
  {
    SameIncreasing(a, b);
  }

  lemma {:induction false} SameIncreasing(a: seq<Op>, b: seq<Op>)
    requires Increasing(a) && Increasing(b) && forall e :: e in a <==> e in b
    ensures a == b
  {
    assert a != [] ==> a[0] in b;
    assert b != [] ==> b[0] in a;
    if a != [] {
      var x, y := Last(a), Last(b);
      assert x in a && y in b && x in b && y in a;
      assert x == y;
      forall e ensures e in Init(a) <==> e in Init(b) {
        assert e in a <==> e in Init(a) || e == x;
        assert e in b <==> e in Init(b) || e == y;
        assert x !in Init(a) && y !in Init(b);
      }
      SameIncreasing(Init(a), Init(b));
      assert a == Init(a) + [x] && b == Init(b) + [y];
    }
  }

  /** Children without an operation put nothing out. */
  lemma NoOuts(cs: seq<Child>, ops: seq<Op>, v: Value)
    requires forall c :: c in cs ==> c.slot.op.None?
    ensures Outs(cs, ops, v) == []
  {
    if Outs(cs, ops, v) != [] {
      OutsMember(cs, ops, v, Outs(cs, ops, v)[0]);
    }
  }

  /** Where no child puts anything out, everything fits. */
  lemma QuietFits(ops: seq<Op>, s: Slot)
    requires forall k :: Folded(ops, k).Some? ==> Folded(ops, k).value.op.None?
    ensures Fits(ops, s)
  {
    forall cs | IsPruned(cs, ops, s.changed) ensures Fit(s.value, cs, ops) {
      NoOuts(cs, ops, s.value);
    }
    forall k ensures FitsBelow(s.changed, Sub(ops, k)) {
      assert Folded(ops, k).Some? ==> Start(Folded(ops, k).value).None?;
    }
  }

  lemma PushableBelow(ops: seq<Op>, p: Key, s: Slot)
    requires FoldDirect(ops).None? && forall k :: k != p ==> Sub(ops, k) == []
    requires FoldDirect(Sub(ops, p)) == Some(s) && Fits(Sub(ops, p), s)
    ensures Pushable(ops)
  {
    forall k ensures Pushable(Sub(ops, k)) {
    }
  }

  lemma SandwichPushable(p: Key, q: Key, v: Value, w: Value)
    ensures Pushable(SandwichChain(p, q, v, w))
  {
    var ops := SandwichChain(p, q, v, w);
    SandwichSub(p, q, v, w);
    SandwichPush(q, v, w);
    var sub := Sub(ops, p);
    forall k ensures Folded(sub, k).Some? ==> Folded(sub, k).value.op.None? {
      SubThree(sub[0], sub[1], sub[2], k);
      if k == q {
        assert Sub(sub, q) == [Tail(sub[0]), Tail(sub[2])];
        FoldTwo(Tail(sub[0]), Tail(sub[2]));
      }
    }
    QuietFits(sub, Slot(Some(Replace), w, 1, 1));
    PushableBelow(ops, p, Slot(Some(Replace), w, 1, 1));
  }

  /** `create_long_patch` on such a chain: one Replace by w, which brings back the entry q that the
      chain, run from the same state, removes. */
  method SandwichMerged(d: Value, p: Key, q: Key, v: Value, w: Value, adj: Adj) returns (r: Option<seq<Op>>)
    requires d.Node? && d.kind.Dict? && p in d.kids && Covers(adj, SandwichChain(p, q, v, w))
    requires d.kids[p].Node? && d.kids[p].kind.Dict? && q !in d.kids[p].kids
    requires w.Node? && w.kind.Dict? && q in w.kids
    ensures r == Some([Op(1, Replace, [p], w)])
    ensures SlotRun(Some(d), r.value) == Some(Some(Node(Dict, d.kids[p := w])))
    ensures SlotRun(Some(d), SandwichChain(p, q, v, w)) ==
            Some(Some(Node(Dict, d.kids[p := Node(Dict, w.kids - {q})])))
  {
    SandwichKeepsRemoved(d, p, q, v, w);
    var a, b, c := [Op(0, Add, [p, q], v)], [Op(0, Replace, [p], w)], [Op(0, Remove, [p, q], NONE)];
    ChainOfThree(a[0], b[0], c[0]);
    SandwichPushable(p, q, v, w);
    r := CreateLongPatch([a, b, c], adj, NONE);
    SandwichCollapse(p, q, v, w);
    CollapseUnique(SandwichChain(p, q, v, w), if r.Some? then r.value else [], [Op(1, Replace, [p], w)]);
  }

  lemma ChainOfTwo(a: Op, b: Op)
    ensures Chain([[a], [b]]) == [a.(at := 0), b.(at := 1)]
  {
    assert Init([[a], [b]]) == [[a]] && Init([[a]]) == [];
    assert Chain([[a]]) == [a.(at := 0)];
  }

  lemma ChainOfThree(a: Op, b: Op, c: Op)
    ensures Chain([[a], [b], [c]]) == [a.(at := 0), b.(at := 1), c.(at := 2)]
  {
    ChainOfTwo(a, b);
    assert Init([[a], [b], [c]]) == [[a], [b]];
  }

  lemma NestedPushable(k: Key, v: Value, op: Op)
    requires |op.path| >= 3 && op.path[0] == k
    ensures Pushable(NestedChain(k, v, op))
  {
    var ops := NestedChain(k, v, op);
    var a, b := ops[0], ops[1];
    FoldTwo(a, b);
    forall c ensures Sub(ops, c) == if c == k then [Tail(a), Tail(b)] else [] {
      SubTwo(a, b, c);
    }
    var sub := [Tail(a), Tail(b)];
    NestedPush(v, Tail(b));
    forall c ensures Folded(sub, c).None? {
      SubTwo(sub[0], sub[1], c);
      FoldNone(Sub(sub, c));
    }
    QuietFits(sub, Slot(Some(Add), v, 0, 0));
    PushableBelow(ops, k, Slot(Some(Add), v, 0, 0));
  }

  /** `create_long_patch` on a chain that adds an entry and then changes something inside it:
      the Add alone, without the change. */
  method NestedMerged(k: Key, v: Value, op: Op, adj: Adj) returns (r: Option<seq<Op>>)
    requires |op.path| >= 3 && op.path[0] == k && Covers(adj, NestedChain(k, v, op))
    ensures r == Some([Op(0, Add, [k], v)])
  {
    var a, b := [Op(0, Add, [k], v)], [op];
    ChainOfTwo(a[0], b[0]);
    NestedPushable(k, v, op);
    r := CreateLongPatch([a, b], adj, NONE);
    NestedCollapse(k, v, op);
    CollapseUnique(NestedChain(k, v, op), if r.Some? then r.value else [], [Op(0, Add, [k], v)]);
  }

  // ----- a removal that finds nothing

  /** An entry is removed, its container replaced by one without the key, and the entry added and
      removed again: folded, a single removal from a dict that does not have it. */
  function MissingChain(p: Key, q: Key, v: Value, w: Value): seq<Op> {
    [Op(0, Remove, [p, q], NONE), Op(1, Replace, [p], w), Op(2, Add, [p, q], v), Op(3, Remove, [p, q], NONE)]
  }

  lemma SubFour(a: Op, b: Op, c: Op, e: Op, k: Key)
    ensures Sub([a, b, c, e], k) == Below(a, k) + Below(b, k) + Below(c, k) + Below(e, k)
  {
    SubThree(a, b, c, k);
    SubPush([a, b, c], e, k);
    assert [a, b, c] + [e] == [a, b, c, e];
  }

  lemma MissingSub(p: Key, q: Key, v: Value, w: Value)
    ensures FoldDirect(MissingChain(p, q, v, w)).None?
    ensures Sub(MissingChain(p, q, v, w), p) ==
            [Op(0, Remove, [q], NONE), Op(1, Replace, [], w), Op(2, Add, [q], v), Op(3, Remove, [q], NONE)]
  {
    var ops := MissingChain(p, q, v, w);
    SubFour(ops[0], ops[1], ops[2], ops[3], p);
    assert ops[0].path[1..] == [q] && ops[1].path[1..] == [];
    FoldNone(ops);
  }

  lemma MissingSlots(q: Key, v: Value, w: Value)
    ensures var sub := [Op(0, Remove, [q], NONE), Op(1, Replace, [], w), Op(2, Add, [q], v), Op(3, Remove, [q], NONE)];
            FoldDirect(sub) == Some(Slot(Some(Replace), w, 1, 1)) &&
            Folded(sub, q) == Some(Slot(Some(Remove), NONE, 3, 3))
  {
    var a, b, c, e := Op(0, Remove, [q], NONE), Op(1, Replace, [], w), Op(2, Add, [q], v), Op(3, Remove, [q], NONE);
    var sub := [a, b, c, e];
    FoldTwo(a, b);
    FoldPush([a, b], c);
    FoldPush([a, b, c], e);
    assert [a, b] + [c] == [a, b, c] && [a, b, c] + [e] == sub;
    SubFour(a, b, c, e, q);
    assert Sub(sub, q) == [Tail(a), Tail(c), Tail(e)];
    FoldTwo(Tail(a), Tail(c));
    FoldPush([Tail(a), Tail(c)], Tail(e));
    assert [Tail(a), Tail(c)] + [Tail(e)] == [Tail(a), Tail(c), Tail(e)];
  }

  lemma MissingMisfits(p: Key, q: Key, v: Value, w: Value)
    requires w.Node? && w.kind.Dict? && q !in w.kids
    ensures MisfitTop(MissingChain(p, q, v, w), [p])
  {
    var ops := MissingChain(p, q, v, w);
    MissingSub(p, q, v, w);
    MissingSlots(q, v, w);
    var sub := Sub(ops, p);
    FoldAtRoot(ops);
    FoldAtSub(ops, p, []);
    FoldAtRoot(sub);
    assert [p] + [] == [p] && [p][..0] == [];
    FoldAtRel(ops, [p]);
    assert Rel(ops, [p]) == sub;
    assert MisfitAt(w, 1, sub, q);
  }

  lemma MissingRuns(d: Value, p: Key, q: Key, v: Value, w: Value)
    requires d.Node? && d.kind.Dict? && p in d.kids
    requires d.kids[p].Node? && d.kids[p].kind.Dict? && q in d.kids[p].kids
    requires w.Node? && w.kind.Dict? && q !in w.kids
    ensures SlotRun(Some(d), MissingChain(p, q, v, w)) == Some(Some(Node(Dict, d.kids[p := w])))
  {
    var ops, d2 := MissingChain(p, q, v, w), Node(Dict, d.kids[p := w]);
    RemoveReplace(d, p, q, w, ops[0], ops[1]);
    AddRemove(d2, p, q, w, ops[2], ops[3]);
    RunAppend(Some(d), [ops[0], ops[1]], [ops[2], ops[3]]);
    assert [ops[0], ops[1]] + [ops[2], ops[3]] == ops;
  }

  lemma RemoveReplace(d: Value, p: Key, q: Key, w: Value, a: Op, b: Op)
    requires d.Node? && d.kind.Dict? && p in d.kids
    requires d.kids[p].Node? && d.kids[p].kind.Dict? && q in d.kids[p].kids
    requires a.path == [p, q] && a.kind.Remove? && b.path == [p] && b.kind.Replace? && b.value == w
    ensures SlotRun(Some(d), [a, b]) == Some(Some(Node(Dict, d.kids[p := w])))
  {
    var m := Node(Dict, d.kids[p].kids - {q});
    var d1, d2 := Node(Dict, d.kids[p := m]), Node(Dict, d.kids[p := w]);
    Overwrite(d.kids, p, m, w);
    RemoveBelow(d, a, p, q, d.kids[p]);
    ReplaceIn(d1, b, p, d2);
    RunPair(Some(d), a, b, Some(d1), Some(d2));
  }

  lemma AddRemove(d: Value, p: Key, q: Key, w: Value, a: Op, b: Op)
    requires d.Node? && d.kind.Dict? && p in d.kids && d.kids[p] == w
    requires w.Node? && w.kind.Dict? && q !in w.kids
    requires a.path == b.path == [p, q] && a.kind.Add? && b.kind.Remove?
    ensures SlotRun(Some(d), [a, b]) == Some(Some(d))
  {
    var m := Node(Dict, w.kids[q := a.value]);
    var d1 := Node(Dict, d.kids[p := m]);
    SetBelow(d, a, p, q);
    assert Assign(w.kids, q, Some(a.value)) == m.kids;
    RemoveBelow(d1, b, p, q, m);
    assert m.kids - {q} == w.kids && Node(Dict, m.kids - {q}) == w;
    Overwrite(d.kids, p, m, w);
    assert d.kids[p := w] == d.kids;
    RunPair(Some(d), a, b, Some(d1), Some(d));
  }

  /** `create_long_patch` raises on such a chain, although it can be run and changes the state:
      the entry q is gone at its end. */
  method MissingRaises(d: Value, p: Key, q: Key, v: Value, w: Value, adj: Adj) returns (r: Option<seq<Op>>)
    requires d.Node? && d.kind.Dict? && p in d.kids && Covers(adj, MissingChain(p, q, v, w))
    requires d.kids[p].Node? && d.kids[p].kind.Dict? && q in d.kids[p].kids
    requires w.Node? && w.kind.Dict? && q !in w.kids
    ensures r.None?
    ensures SlotRun(Some(d), MissingChain(p, q, v, w)) == Some(Some(Node(Dict, d.kids[p := w])))
    ensures Node(Dict, d.kids[p := w]) != d
  {
    var a, b, c := Op(0, Remove, [p, q], NONE), Op(0, Replace, [p], w), Op(0, Add, [p, q], v);
    var e := a;
    ChainOfFour(a, b, c, e);
    MissingMisfits(p, q, v, w);
    MissingRuns(d, p, q, v, w);
    r := CreateLongPatch([[a], [b], [c], [e]], adj, NONE);
    assert d.kids[p := w][p] != d.kids[p];
  }

  lemma ChainOfFour(a: Op, b: Op, c: Op, e: Op)
    ensures Chain([[a], [b], [c], [e]]) == [a.(at := 0), b.(at := 1), c.(at := 2), e.(at := 3)]
  {
    ChainOfThree(a, b, c);
    assert Init([[a], [b], [c], [e]]) == [[a], [b], [c]];
  }
}
