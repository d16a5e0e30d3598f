/** The recursive structural diff of two states and its forward and backward patches. */
module Diff {
  import opened Values

  /** `BidirectionalReplayPatch`: forward operations are appended, their inverses put in
      front of the backward ones. */
  class BidirectionalReplayPatch {
    var forward: seq<Op>
    var backward: seq<Op>

    constructor ()
      ensures forward == [] && backward == []
    {
      forward, backward := [], [];
    }

    method Add(path: Path, newValue: Value)
      modifies this
      ensures forward == old(forward) + [Op(0, OpKind.Add, path, newValue)]
      ensures backward == [Op(0, OpKind.Remove, path, NONE)] + old(backward)
    {
      forward := forward + [Op(0, OpKind.Add, path, newValue)];
      backward := [Op(0, OpKind.Remove, path, NONE)] + backward;
    }

    method Replace(path: Path, oldValue: Value, newValue: Value)
      modifies this
      ensures forward == old(forward) + [Op(0, OpKind.Replace, path, newValue)]
      ensures backward == [Op(0, OpKind.Replace, path, oldValue)] + old(backward)
    {
      forward := forward + [Op(0, OpKind.Replace, path, newValue)];
      backward := [Op(0, OpKind.Replace, path, oldValue)] + backward;
    }

    method Remove(path: Path, oldValue: Value)
      modifies this
      ensures forward == old(forward) + [Op(0, OpKind.Remove, path, NONE)]
      ensures backward == [Op(0, OpKind.Add, path, oldValue)] + old(backward)
    {
      forward := forward + [Op(0, OpKind.Remove, path, NONE)];
      backward := [Op(0, OpKind.Add, path, oldValue)] + backward;
    }
  }

  /** `type(a) == type(b)`. */
  predicate SameType(a: Value, b: Value) {
    match (a, b)
    case (Leaf(p), Leaf(q)) =>
      (p.NoneP? && q.NoneP?) || (p.BoolP? && q.BoolP?) || (p.IntP? && q.IntP?)
      || (p.RealP? && q.RealP?) || (p.StrP? && q.StrP?)
    case (Node(k, _), Node(l, _)) => k == l
    case _ => false
  }

  /** Every object carries exactly the attributes of its class. */
  ghost predicate Typed(schema: string -> set<Key>, v: Value) {
    v.Node? ==>
      && (v.kind.Obj? ==> v.kids.Keys == schema(v.kind.cls))
      && (forall k :: k in v.kids ==> Typed(schema, v.kids[k]))
  }

  // ----- patches placed under a path

  function Under(path: Path, ops: seq<Op>): (r: seq<Op>)
    ensures |r| == |ops|
    ensures forall i {:trigger r[i]} :: 0 <= i < |ops| ==> r[i] == ops[i].(path := path + ops[i].path)
  {
    seq(|ops|, i requires 0 <= i < |ops| => ops[i].(path := path + ops[i].path))
  }

  lemma UnderAppend(path: Path, a: seq<Op>, b: seq<Op>)
    ensures Under(path, a + b) == Under(path, a) + Under(path, b)
  {
  }

  lemma UnderUnder(p: Path, q: Path, ops: seq<Op>)
    ensures Under(p, Under(q, ops)) == Under(p + q, ops)
  {
    forall i | 0 <= i < |ops| ensures p + (q + ops[i].path) == p + q + ops[i].path {}
  }

  lemma UnderRoot(ops: seq<Op>)
    ensures Under([], ops) == ops
  {
    forall i | 0 <= i < |ops| ensures [] + ops[i].path == ops[i].path {}
  }

  predicate ReplaceOnly(ops: seq<Op>) {
    forall i :: 0 <= i < |ops| && ops[i].path == [] ==> ops[i].kind.Replace?
  }

  /** Changing what a key holds, by operations below the key. */
  lemma {:induction false} Lift(v: Value, k: Key, ops: seq<Op>)
    requires v.Node? && k in v.kids && ReplaceOnly(ops) && (v.kind.Obj? ==> k.StrKey?)
    requires SlotRun(Some(v.kids[k]), ops).Some?
    ensures SlotRun(Some(v.kids[k]), ops).value.Some?
    ensures SlotRun(Some(v), Under([k], ops)) ==
            Some(Some(Node(v.kind, v.kids[k := SlotRun(Some(v.kids[k]), ops).value.value])))
  {
    if ops == [] {
      assert v.kids[k := v.kids[k]] == v.kids;
    } else {
      assert Init(Under([k], ops)) == Under([k], Init(ops));
      Lift(v, k, Init(ops));
      var x := SlotRun(Some(v.kids[k]), Init(ops)).value.value;
      var w := Node(v.kind, v.kids[k := x]);
      var op, l := Last(Under([k], ops)), Last(ops);
      assert Tail(op) == l;
      StepShape(op, w);
      assert Lookup(w, k) == Some(x);
      var y := SlotStep(l, Some(x)).value;
      if l.path != [] {
        StepIsExec(l, x);
      }
      assert Assign(w.kids, k, y) == v.kids[k := y.value];
    }
  }

  // ----- the two patches seen together

  /** The same paths in reverse order. */
  ghost predicate Mirror(f: seq<Op>, g: seq<Op>) {
    |f| == |g| && forall i :: 0 <= i < |f| ==> g[i].path == f[|f| - 1 - i].path
  }

  /** The paths are pairwise non-nested, the two patches mirror each other. */
  ghost predicate Paired(f: seq<Op>, g: seq<Op>) {
    Antichain(f) && Mirror(f, g) && GoodValues(f) && GoodValues(g)
  }

  /** f leads from a to b and g back. */
  ghost predicate BothWays(a: Value, b: Value, f: seq<Op>, g: seq<Op>) {
    SlotRun(Some(a), f) == Some(Some(b)) && SlotRun(Some(b), g) == Some(Some(a))
  }

  /** All operations are below the keys done so far. */
  ghost predicate Within(ops: seq<Op>, keys: set<Key>) {
    forall i :: 0 <= i < |ops| ==> ops[i].path != [] && ops[i].path[0] in keys
  }

  lemma FreshBlock(f: seq<Op>, g: seq<Op>, keys: set<Key>, k: Key, h: seq<Op>, hb: seq<Op>)
    requires Tidy(f, g, keys) && k !in keys
    requires Paired(h, hb)
    ensures Tidy(f + Under([k], h), Under([k], hb) + g, keys + {k})
  {
    var u := Under([k], h);
    var all := f + u;
    forall i, j | 0 <= i < |all| && 0 <= j < |all| && i != j ensures !(all[i].path <= all[j].path) {
      if i >= |f| && j >= |f| {
        var p, q := h[i - |f|].path, h[j - |f|].path;
        assert !(p <= q);
        assert ([k] + q)[1..] == q && ([k] + p)[1..] == p;
      }
    }
  }

  lemma Compose(a: Value, x: Value, y: Value, f: seq<Op>, g: seq<Op>, h: seq<Op>, hb: seq<Op>)
    requires BothWays(a, x, f, g) && BothWays(x, y, h, hb)
    ensures BothWays(a, y, f + h, hb + g)
  {
    RunAppend(Some(a), f, h);
    RunAppend(Some(y), hb, g);
  }

  lemma ComposeTidy(f: seq<Op>, g: seq<Op>, keys: set<Key>, h: seq<Op>, hb: seq<Op>, more: set<Key>)
    requires Tidy(f, g, keys) && Tidy(h, hb, more) && keys !! more
    ensures Tidy(f + h, hb + g, keys + more)
  {
  }

  lemma LiftBoth(cur: Value, k: Key, x: Value, h: seq<Op>, hb: seq<Op>)
    requires cur.Node? && k in cur.kids && (cur.kind.Obj? ==> k.StrKey?)
    requires BothWays(cur.kids[k], x, h, hb) && ReplaceOnly(h) && ReplaceOnly(hb)
    ensures BothWays(cur, Node(cur.kind, cur.kids[k := x]), Under([k], h), Under([k], hb))
  {
    var next := Node(cur.kind, cur.kids[k := x]);
    Lift(cur, k, h);
    Lift(next, k, hb);
    assert next.kids[k := cur.kids[k]] == cur.kids;
  }

  lemma ExtendBlock(a: Value, cur: Value, f: seq<Op>, g: seq<Op>, k: Key, x: Value, h: seq<Op>, hb: seq<Op>)
    requires BothWays(a, cur, f, g)
    requires cur.Node? && k in cur.kids && (cur.kind.Obj? ==> k.StrKey?)
    requires BothWays(cur.kids[k], x, h, hb) && ReplaceOnly(h) && ReplaceOnly(hb)
    ensures BothWays(a, Node(cur.kind, cur.kids[k := x]), f + Under([k], h), Under([k], hb) + g)
  {
    var next := Node(cur.kind, cur.kids[k := x]);
    LiftBoth(cur, k, x, h, hb);
    Compose(a, cur, next, f, g, Under([k], h), Under([k], hb));
  }

  lemma FreshOne(f: seq<Op>, g: seq<Op>, keys: set<Key>, op: Op, inv: Op)
    requires Tidy(f, g, keys)
    requires |op.path| == 1 && inv.path == op.path && op.path[0] !in keys
    requires WellFormed(op.value) && WellFormed(inv.value)
    ensures Tidy(f + [op], [inv] + g, keys + {op.path[0]})
  {
    var k := op.path[0];
    FreshBlock(f, g, keys, k, [Tail(op)], [Tail(inv)]);
    assert op == Cons(k, Tail(op)) && inv == Cons(k, Tail(inv));
    assert Under([k], [Tail(op)]) == [op] && Under([k], [Tail(inv)]) == [inv];
  }

  lemma ExtendOne(a: Value, cur: Value, f: seq<Op>, g: seq<Op>, next: Value, op: Op, inv: Op)
    requires BothWays(a, cur, f, g)
    requires SlotStep(op, Some(cur)) == Some(Some(next)) && SlotStep(inv, Some(next)) == Some(Some(cur))
    ensures BothWays(a, next, f + [op], [inv] + g)
  {
    assert Init(f + [op]) == f;
    RunAppend(Some(next), [inv], g);
    assert Init([inv]) == [];
    assert SlotRun(Some(next), [inv]) == SlotStep(inv, Some(next));
  }

  /** Adding an entry to a dict or at the end of a list, and taking it back. */
  lemma AddStep(cur: Value, k: Key, x: Value)
    requires cur.Node? && k !in cur.kids && !cur.kind.Obj?
    requires cur.kind.List? ==> k == IntKey(|cur.kids.Keys|)
    ensures var next := Node(cur.kind, cur.kids[k := x]);
            && SlotStep(Op(0, Add, [k], x), Some(cur)) == Some(Some(next))
            && SlotStep(Op(0, Remove, [k], NONE), Some(next)) == Some(Some(cur))
  {
    var next := Node(cur.kind, cur.kids[k := x]);
    assert Tail(Op(0, Add, [k], x)).path == [];
    assert Assign(cur.kids, k, Some(x)) == next.kids;
    assert next.kids.Keys == cur.kids.Keys + {k};
    RemoveStep(next, k, cur);
  }

  lemma RemoveStep(next: Value, k: Key, cur: Value)
    requires next.Node? && k in next.kids && !next.kind.Obj? && cur == Node(next.kind, next.kids - {k})
    requires next.kind.List? ==> k == IntKey(|next.kids.Keys| - 1)
    ensures SlotStep(Op(0, Remove, [k], NONE), Some(next)) == Some(Some(cur))
  {
    assert Tail(Op(0, Remove, [k], NONE)).path == [];
    assert Assign(next.kids, k, None) == cur.kids;
  }

  // ----- what the two states differ in

  /** On the way to the path both slots hold containers of one kind. */
  predicate Parallel(x: Option<Value>, y: Option<Value>, p: Path)
    decreases |p|
  {
    p != [] ==>
      && x.Some? && y.Some? && x.value.Node? && y.value.Node? && x.value.kind == y.value.kind
      && Parallel(HeldUnder(x, p[0]), HeldUnder(y, p[0]), p[1..])
  }

  /** The operation that makes y of x at one position: an Add where x holds nothing, a Remove
      where y holds nothing, a Replace where the two differ in type or are unequal primitives,
      and none anywhere else. */
  predicate Differs(kind: OpKind, value: Value, x: Option<Value>, y: Option<Value>) {
    match kind
    case Add => x == None && y == Some(value)
    case Remove => x.Some? && y == None && value == NONE
    case Replace =>
      && x.Some? && y == Some(value)
      && (!SameType(x.value, value) || (x.value.Leaf? && x.value != value))
  }

  /** The operation is a difference between x and y, as seen at its path. */
  predicate IsChange(op: Op, x: Option<Value>, y: Option<Value>) {
    && op.at == 0 && Parallel(x, y, op.path)
    && Differs(op.kind, op.value, GetAt(x, op.path), GetAt(y, op.path))
  }

  /** The patch holds the differences between x and y, all of them and nothing else. */
  ghost predicate Exact(x: Option<Value>, y: Option<Value>, f: seq<Op>) {
    forall op :: op in f <==> IsChange(op, x, y)
  }

  /** The same for what lies under the keys in `done`. */
  ghost predicate ExactOn(a: Value, b: Value, done: set<Key>, f: seq<Op>) {
    forall op :: op in f <==> op.path != [] && op.path[0] in done && IsChange(op, Some(a), Some(b))
  }

  /** Both patches, each in its own direction. */
  ghost predicate Noted(a: Value, b: Value, done: set<Key>, f: seq<Op>, g: seq<Op>) {
    ExactOn(a, b, done, f) && ExactOn(b, a, done, g)
  }

  /** Equal values have no differences. */
  lemma {:induction false} NoChange(op: Op, x: Option<Value>)
    ensures !IsChange(op, x, x)
    decreases |op.path|
  {
    if op.path != [] {
      NoChange(Tail(op), HeldUnder(x, op.path[0]));
    }
  }

  /** A difference below a key is one of what the two hold under it. */
  lemma ChangeBelow(op: Op, a: Value, b: Value)
    requires op.path != [] && a.Node? && b.Node? && a.kind == b.kind
    ensures IsChange(op, Some(a), Some(b)) <==> IsChange(Tail(op), Lookup(a, op.path[0]), Lookup(b, op.path[0]))
  {
  }

  lemma InUnder(k: Key, h: seq<Op>, op: Op)
    ensures op in Under([k], h) <==> op.path != [] && op.path[0] == k && Tail(op) in h
  {
    var u := Under([k], h);
    forall i | 0 <= i < |h| ensures u[i].path[0] == k && Tail(u[i]) == h[i] {
      assert ([k] + h[i].path)[1..] == h[i].path;
    }
    if op in u {
      var i :| 0 <= i < |u| && u[i] == op;
      assert h[i] in h;
    }
    if op.path != [] && op.path[0] == k && Tail(op) in h {
      var i :| 0 <= i < |h| && h[i] == Tail(op);
      assert [k] + op.path[1..] == op.path;
      assert u[i] == op;
    }
  }

  /** One key more. */
  lemma ExactBlock(a: Value, b: Value, done: set<Key>, k: Key, f: seq<Op>, h: seq<Op>, front: bool)
    requires a.Node? && b.Node? && a.kind == b.kind && ExactOn(a, b, done, f) && k !in done
    requires Exact(Lookup(a, k), Lookup(b, k), h)
    ensures ExactOn(a, b, done + {k}, if front then Under([k], h) + f else f + Under([k], h))
  {
    var all := if front then Under([k], h) + f else f + Under([k], h);
    forall op
      ensures op in all <==> op.path != [] && op.path[0] in done + {k} && IsChange(op, Some(a), Some(b))
    {
      assert op in all <==> op in f || op in Under([k], h);
      InUnder(k, h, op);
      if op.path != [] {
        ChangeBelow(op, a, b);
      }
    }
  }

  lemma NotedBlock(a: Value, b: Value, done: set<Key>, k: Key, f: seq<Op>, g: seq<Op>, h: seq<Op>, hb: seq<Op>)
    requires a.Node? && b.Node? && a.kind == b.kind && Noted(a, b, done, f, g) && k !in done
    requires Exact(Lookup(a, k), Lookup(b, k), h) && Exact(Lookup(b, k), Lookup(a, k), hb)
    ensures Noted(a, b, done + {k}, f + Under([k], h), Under([k], hb) + g)
  {
    ExactBlock(a, b, done, k, f, h, false);
    ExactBlock(b, a, done, k, g, hb, true);
  }

  /** Two values that differ in type, or unequal primitives, are one difference. */
  lemma RootChange(a: Value, b: Value)
    requires !SameType(a, b) || (a.Leaf? && a != b)
    ensures Exact(Some(a), Some(b), [Op(0, OpKind.Replace, [], b)])
    ensures Exact(Some(b), Some(a), [Op(0, OpKind.Replace, [], a)])
  {
    forall op ensures op in [Op(0, OpKind.Replace, [], b)] <==> IsChange(op, Some(a), Some(b)) {
    }
    forall op ensures op in [Op(0, OpKind.Replace, [], a)] <==> IsChange(op, Some(b), Some(a)) {
    }
  }

  /** What only one side holds is one difference. */
  lemma OneChange(kind: OpKind, value: Value, x: Option<Value>, y: Option<Value>)
    requires Differs(kind, value, x, y) && (x == None || y == None)
    ensures Exact(x, y, [Op(0, kind, [], value)])
  {
    forall op ensures op in [Op(0, kind, [], value)] <==> IsChange(op, x, y) {
    }
  }

  lemma NotedOne(a: Value, b: Value, done: set<Key>, k: Key, f: seq<Op>, g: seq<Op>, op: Op, inv: Op)
    requires a.Node? && b.Node? && a.kind == b.kind && Noted(a, b, done, f, g) && k !in done
    requires op.at == inv.at == 0 && op.path == inv.path == [k]
    requires Differs(op.kind, op.value, Lookup(a, k), Lookup(b, k))
    requires Differs(inv.kind, inv.value, Lookup(b, k), Lookup(a, k))
    requires Lookup(a, k) == None || Lookup(b, k) == None
    ensures Noted(a, b, done + {k}, f + [op], [inv] + g)
  {
    OneChange(op.kind, op.value, Lookup(a, k), Lookup(b, k));
    OneChange(inv.kind, inv.value, Lookup(b, k), Lookup(a, k));
    NotedBlock(a, b, done, k, f, g, [Tail(op)], [Tail(inv)]);
    assert Under([k], [Tail(op)]) == [op] && Under([k], [Tail(inv)]) == [inv];
  }

  lemma NotedSkip(a: Value, b: Value, done: set<Key>, k: Key, f: seq<Op>, g: seq<Op>)
    requires a.Node? && b.Node? && a.kind == b.kind && Noted(a, b, done, f, g) && Lookup(a, k) == Lookup(b, k)
    ensures Noted(a, b, done + {k}, f, g)
  {
    forall op: Op | op.path != [] && op.path[0] == k
      ensures !IsChange(op, Some(a), Some(b)) && !IsChange(op, Some(b), Some(a))
    {
      NoChange(Tail(op), Lookup(a, k));
      ChangeBelow(op, a, b);
      ChangeBelow(op, b, a);
    }
  }

  /** Once all keys are done there is nothing else to record. */
  lemma NotedAll(a: Value, b: Value, done: set<Key>, f: seq<Op>, g: seq<Op>)
    requires a.Node? && b.Node? && a.kind == b.kind && Noted(a, b, done, f, g)
    requires forall k :: k !in done ==> Lookup(a, k) == Lookup(b, k)
    ensures Exact(Some(a), Some(b), f) && Exact(Some(b), Some(a), g)
  {
    forall op ensures op in f <==> IsChange(op, Some(a), Some(b)) {
      if op.path != [] && op.path[0] !in done {
        ChangeBelow(op, a, b);
        NoChange(Tail(op), Lookup(a, op.path[0]));
      }
    }
    forall op ensures op in g <==> IsChange(op, Some(b), Some(a)) {
      if op.path != [] && op.path[0] !in done {
        ChangeBelow(op, b, a);
        NoChange(Tail(op), Lookup(b, op.path[0]));
      }
    }
  }

  // ----- a state on the way from a to b

  /** The keys in `done` hold what they hold in b, the others what they hold in a. */
  ghost function Mix(a: Value, b: Value, done: set<Key>): (r: Value)
    requires a.Node? && b.Node?
    ensures r.Node? && r.kind == a.kind
    ensures forall k :: Lookup(r, k) == if k in done then Lookup(b, k) else Lookup(a, k)
  {
    var kids := map k | k in a.kids.Keys + b.kids.Keys && (if k in done then k in b.kids else k in a.kids)
      :: if k in done then b.kids[k] else a.kids[k];
    Node(a.kind, kids)
  }

  /** What both patches look like after the keys in `done`. */
  ghost predicate Halfway(a: Value, b: Value, done: set<Key>, f: seq<Op>, g: seq<Op>)
    requires a.Node? && b.Node?
  {
    BothWays(a, Mix(a, b, done), f, g) && Tidy(f, g, done)
  }

  ghost predicate Tidy(f: seq<Op>, g: seq<Op>, done: set<Key>) {
    Paired(f, g) && Within(f, done)
  }

  lemma Begin(a: Value, b: Value)
    requires a.Node? && b.Node?
    ensures Halfway(a, b, {}, [], [])
  {
    NodeExt(Mix(a, b, {}), a);
  }

  lemma Finish(a: Value, b: Value, done: set<Key>, f: seq<Op>, g: seq<Op>)
    requires a.Node? && b.Node? && a.kind == b.kind && Halfway(a, b, done, f, g)
    requires forall k :: k !in done ==> Lookup(a, k) == Lookup(b, k)
    ensures BothWays(a, b, f, g) && AllDeep(f) && AllDeep(g)
  {
    NodeExt(Mix(a, b, done), b);
    TidyDeep(f, g, done);
  }

  lemma MixSet(a: Value, b: Value, done: set<Key>, k: Key)
    requires a.Node? && b.Node? && k in b.kids && k !in done
    ensures Mix(a, b, done + {k}) == Node(a.kind, Mix(a, b, done).kids[k := b.kids[k]])
  {
    NodeExt(Mix(a, b, done + {k}), Node(a.kind, Mix(a, b, done).kids[k := b.kids[k]]));
  }

  lemma MixDrop(a: Value, b: Value, done: set<Key>, k: Key)
    requires a.Node? && b.Node? && k in a.kids && k !in b.kids && k !in done
    ensures k !in Mix(a, b, done + {k}).kids
    ensures Mix(a, b, done) == Node(a.kind, Mix(a, b, done + {k}).kids[k := a.kids[k]])
  {
    var cur, next := Mix(a, b, done), Mix(a, b, done + {k});
    assert Lookup(cur, k) == Some(a.kids[k]) && Lookup(next, k) == None;
    NodeExt(cur, Node(a.kind, next.kids[k := a.kids[k]]));
  }

  lemma SkipKey(a: Value, b: Value, done: set<Key>, k: Key, f: seq<Op>, g: seq<Op>)
    requires a.Node? && b.Node? && Halfway(a, b, done, f, g) && Lookup(a, k) == Lookup(b, k)
    ensures Halfway(a, b, done + {k}, f, g)
  {
    NodeExt(Mix(a, b, done + {k}), Mix(a, b, done));
  }

  lemma ChangeKey(a: Value, b: Value, done: set<Key>, k: Key, f: seq<Op>, g: seq<Op>, h: seq<Op>, hb: seq<Op>)
    requires a.Node? && b.Node? && Halfway(a, b, done, f, g) && k !in done
    requires k in a.kids && k in b.kids && (a.kind.Obj? ==> k.StrKey?)
    requires BothWays(a.kids[k], b.kids[k], h, hb) && Paired(h, hb) && ReplaceOnly(h) && ReplaceOnly(hb)
    ensures Halfway(a, b, done + {k}, f + Under([k], h), Under([k], hb) + g)
  {
    var cur := Mix(a, b, done);
    assert Lookup(cur, k) == Some(a.kids[k]);
    FreshBlock(f, g, done, k, h, hb);
    ExtendBlock(a, cur, f, g, k, b.kids[k], h, hb);
    MixSet(a, b, done, k);
  }

  lemma AddKey(a: Value, b: Value, done: set<Key>, k: Key, f: seq<Op>, g: seq<Op>)
    requires a.Node? && b.Node? && BothWays(a, Mix(a, b, done), f, g) && k !in done
    requires k !in a.kids && k in b.kids && !a.kind.Obj?
    requires a.kind.List? ==> k == IntKey(|Mix(a, b, done).kids.Keys|)
    ensures BothWays(a, Mix(a, b, done + {k}), f + [Op(0, Add, [k], b.kids[k])], [Op(0, Remove, [k], NONE)] + g)
  {
    var cur := Mix(a, b, done);
    assert Lookup(cur, k) == None;
    AddStep(cur, k, b.kids[k]);
    MixSet(a, b, done, k);
    ExtendOne(a, cur, f, g, Mix(a, b, done + {k}), Op(0, Add, [k], b.kids[k]), Op(0, Remove, [k], NONE));
  }

  lemma RemoveKey(a: Value, b: Value, done: set<Key>, k: Key, f: seq<Op>, g: seq<Op>)
    requires a.Node? && b.Node? && BothWays(a, Mix(a, b, done), f, g) && k !in done
    requires k in a.kids && k !in b.kids && !a.kind.Obj?
    requires a.kind.List? ==> k == IntKey(|Mix(a, b, done).kids.Keys| - 1)
    ensures BothWays(a, Mix(a, b, done + {k}), f + [Op(0, Remove, [k], NONE)], [Op(0, Add, [k], a.kids[k])] + g)
  {
    var cur, next := Mix(a, b, done), Mix(a, b, done + {k});
    MixDrop(a, b, done, k);
    StepBack(cur, next, k, a.kids[k]);
    ExtendOne(a, cur, f, g, next, Op(0, Remove, [k], NONE), Op(0, Add, [k], a.kids[k]));
  }

  lemma StepBack(cur: Value, next: Value, k: Key, x: Value)
    requires next.Node? && k !in next.kids && !next.kind.Obj?
    requires cur == Node(next.kind, next.kids[k := x])
    requires cur.kind.List? ==> k == IntKey(|cur.kids.Keys| - 1)
    ensures SlotStep(Op(0, Remove, [k], NONE), Some(cur)) == Some(Some(next))
    ensures SlotStep(Op(0, Add, [k], x), Some(next)) == Some(Some(cur))
  {
    assert cur.kids.Keys == next.kids.Keys + {k};
    AddStep(next, k, x);
  }

  /** Two values the diff may be asked to compare. */
  ghost predicate Comparable(schema: string -> set<Key>, a: Value, b: Value) {
    WellFormed(a) && WellFormed(b) && Typed(schema, a) && Typed(schema, b)
  }

  /** What a comparison under `path` adds to the patch. */
  ghost predicate Recorded(a: Value, b: Value, f: seq<Op>, g: seq<Op>) {
    && BothWays(a, b, f, g) && Paired(f, g) && ReplaceOnly(f) && ReplaceOnly(g)
    && Exact(Some(a), Some(b), f) && Exact(Some(b), Some(a), g)
    && (SameType(a, b) && (a.Node? || a == b) ==> AllDeep(f) && AllDeep(g))
    && (!(SameType(a, b) && (a.Node? || a == b)) ==> f == [Op(0, Replace, [], b)] && g == [Op(0, Replace, [], a)])
  }

  lemma WriteBlock(path: Path, k: Key, f: seq<Op>, g: seq<Op>, fw: seq<Op>, bw: seq<Op>, h: seq<Op>, hb: seq<Op>)
    ensures (fw + Under(path, f)) + Under(path + [k], h) == fw + Under(path, f + Under([k], h))
    ensures Under(path + [k], hb) + (Under(path, g) + bw) == Under(path, Under([k], hb) + g) + bw
  {
    UnderUnder(path, [k], h);
    UnderUnder(path, [k], hb);
    UnderAppend(path, f, Under([k], h));
    UnderAppend(path, Under([k], hb), g);
  }

  lemma WriteOne(path: Path, k: Key, f: seq<Op>, g: seq<Op>, fw: seq<Op>, bw: seq<Op>, op: Op, inv: Op)
    requires op.path == [k] && inv.path == [k]
    ensures (fw + Under(path, f)) + [op.(path := path + [k])] == fw + Under(path, f + [op])
    ensures [inv.(path := path + [k])] + (Under(path, g) + bw) == Under(path, [inv] + g) + bw
  {
    UnderAppend(path, f, [op]);
    UnderAppend(path, [inv], g);
    assert Under(path, [op]) == [op.(path := path + [k])];
    assert Under(path, [inv]) == [inv.(path := path + [k])];
  }

  /** The patch holds f and g under `path`, around what it held before. */
  ghost predicate Written(rp: BidirectionalReplayPatch, path: Path, f: seq<Op>, g: seq<Op>, fw: seq<Op>, bw: seq<Op>)
    reads rp
  {
    rp.forward == fw + Under(path, f) && rp.backward == Under(path, g) + bw
  }

  /** `make_replay_patch_any`. */
  method DiffAny(rp: BidirectionalReplayPatch, path: Path, a: Value, b: Value, ghost schema: string -> set<Key>)
    returns (ghost f: seq<Op>, ghost g: seq<Op>)
    requires Comparable(schema, a, b)
    modifies rp
    ensures Written(rp, path, f, g, old(rp.forward), old(rp.backward))
    ensures Recorded(a, b, f, g)
    decreases a, 3
  {
    if !SameType(a, b) || (a.Leaf? && a != b) {
      rp.Replace(path, a, b);
      f, g := [Op(0, OpKind.Replace, [], b)], [Op(0, OpKind.Replace, [], a)];
      assert path + [] == path;
      assert Init(f) == [] && Init(g) == [];
      RootChange(a, b);
    } else if a.Leaf? {
      f, g := [], [];
      forall op ensures !IsChange(op, Some(a), Some(a)) {
        NoChange(op, Some(a));
      }
    } else if a.kind.Obj? {
      f, g := DiffObject(rp, path, a, b, schema);
    } else if a.kind.List? {
      f, g := DiffList(rp, path, a, b, schema);
    } else {
      f, g := DiffDict(rp, path, a, b, schema);
    }
  }

  /** The recursive call for a key both sides have. */
  method ChangeAt(rp: BidirectionalReplayPatch, path: Path, a: Value, b: Value, k: Key,
                  ghost schema: string -> set<Key>,
                  ghost done: set<Key>, ghost f0: seq<Op>, ghost g0: seq<Op>, ghost fw: seq<Op>, ghost bw: seq<Op>)
    returns (ghost f: seq<Op>, ghost g: seq<Op>)
    requires Comparable(schema, a, b) && a.Node? && b.Node? && k in a.kids && k in b.kids && k !in done
    requires a.kind == b.kind && Noted(a, b, done, f0, g0)
    requires Halfway(a, b, done, f0, g0) && Written(rp, path, f0, g0, fw, bw)
    modifies rp
    ensures Halfway(a, b, done + {k}, f, g) && Written(rp, path, f, g, fw, bw)
    ensures Noted(a, b, done + {k}, f, g)
    decreases a, 0
  {
    ghost var h, hb := DiffAny(rp, path + [k], a.kids[k], b.kids[k], schema);
    WriteBlock(path, k, f0, g0, fw, bw, h, hb);
    ChangeKey(a, b, done, k, f0, g0, h, hb);
    NotedBlock(a, b, done, k, f0, g0, h, hb);
    f, g := f0 + Under([k], h), Under([k], hb) + g0;
  }

  method AddAt(rp: BidirectionalReplayPatch, path: Path, a: Value, b: Value, k: Key,
               ghost done: set<Key>, ghost f0: seq<Op>, ghost g0: seq<Op>, ghost fw: seq<Op>, ghost bw: seq<Op>)
    returns (ghost f: seq<Op>, ghost g: seq<Op>)
    requires a.Node? && b.Node? && !a.kind.Obj? && WellFormed(b) && k !in a.kids && k in b.kids && k !in done
    requires a.kind.List? ==> k == IntKey(|Mix(a, b, done).kids.Keys|)
    requires a.kind == b.kind && Noted(a, b, done, f0, g0)
    requires Halfway(a, b, done, f0, g0) && Written(rp, path, f0, g0, fw, bw)
    modifies rp
    ensures Halfway(a, b, done + {k}, f, g) && Written(rp, path, f, g, fw, bw)
    ensures Noted(a, b, done + {k}, f, g)
  {
    rp.Add(path + [k], b.kids[k]);
    WriteOne(path, k, f0, g0, fw, bw, Op(0, OpKind.Add, [k], b.kids[k]), Op(0, OpKind.Remove, [k], NONE));
    f, g := f0 + [Op(0, OpKind.Add, [k], b.kids[k])], [Op(0, OpKind.Remove, [k], NONE)] + g0;
    FreshOne(f0, g0, done, Op(0, OpKind.Add, [k], b.kids[k]), Op(0, OpKind.Remove, [k], NONE));
    AddKey(a, b, done, k, f0, g0);
    NotedOne(a, b, done, k, f0, g0, Op(0, OpKind.Add, [k], b.kids[k]), Op(0, OpKind.Remove, [k], NONE));
  }

  method RemoveAt(rp: BidirectionalReplayPatch, path: Path, a: Value, b: Value, k: Key,
                  ghost done: set<Key>, ghost f0: seq<Op>, ghost g0: seq<Op>, ghost fw: seq<Op>, ghost bw: seq<Op>)
    returns (ghost f: seq<Op>, ghost g: seq<Op>)
    requires a.Node? && b.Node? && !a.kind.Obj? && WellFormed(a) && k in a.kids && k !in b.kids && k !in done
    requires a.kind.List? ==> k == IntKey(|Mix(a, b, done).kids.Keys| - 1)
    requires a.kind == b.kind && Noted(a, b, done, f0, g0)
    requires Halfway(a, b, done, f0, g0) && Written(rp, path, f0, g0, fw, bw)
    modifies rp
    ensures Halfway(a, b, done + {k}, f, g) && Written(rp, path, f, g, fw, bw)
    ensures Noted(a, b, done + {k}, f, g)
  {
    rp.Remove(path + [k], a.kids[k]);
    WriteOne(path, k, f0, g0, fw, bw, Op(0, OpKind.Remove, [k], NONE), Op(0, OpKind.Add, [k], a.kids[k]));
    f, g := f0 + [Op(0, OpKind.Remove, [k], NONE)], [Op(0, OpKind.Add, [k], a.kids[k])] + g0;
    FreshOne(f0, g0, done, Op(0, OpKind.Remove, [k], NONE), Op(0, OpKind.Add, [k], a.kids[k]));
    RemoveKey(a, b, done, k, f0, g0);
    NotedOne(a, b, done, k, f0, g0, Op(0, OpKind.Remove, [k], NONE), Op(0, OpKind.Add, [k], a.kids[k]));
  }

  /** `make_replay_patch_gameobject`: every attribute, in any order. */
  method DiffObject(rp: BidirectionalReplayPatch, path: Path, a: Value, b: Value, ghost schema: string -> set<Key>)
    returns (ghost f: seq<Op>, ghost g: seq<Op>)
    requires Comparable(schema, a, b) && a.Node? && b.Node? && a.kind == b.kind && a.kind.Obj?
    modifies rp
    ensures Written(rp, path, f, g, old(rp.forward), old(rp.backward))
    ensures BothWays(a, b, f, g) && Paired(f, g) && AllDeep(f) && AllDeep(g)
    ensures Exact(Some(a), Some(b), f) && Exact(Some(b), Some(a), g)
    decreases a, 1
  {
    f, g := [], [];
    Begin(a, b);
    var todo := a.kids.Keys;
    ghost var done: set<Key> := {};
    while todo != {}
      invariant todo == a.kids.Keys - done
      invariant Noted(a, b, done, f, g)
      invariant Halfway(a, b, done, f, g) && Written(rp, path, f, g, old(rp.forward), old(rp.backward))
      decreases todo
    {
      var k :| k in todo;
      f, g := ChangeAt(rp, path, a, b, k, schema, done, f, g, old(rp.forward), old(rp.backward));
      done, todo := done + {k}, todo - {k};
    }
    Finish(a, b, done, f, g);
    NotedAll(a, b, done, f, g);
  }

  /** The first loop of `make_replay_patch_dict`: the other dict's keys, in any order. */
  method DictEntries(rp: BidirectionalReplayPatch, path: Path, a: Value, b: Value, ghost schema: string -> set<Key>)
    returns (removed: set<Key>, ghost f: seq<Op>, ghost g: seq<Op>)
    requires Comparable(schema, a, b) && a.Node? && b.Node? && a.kind == b.kind && a.kind.Dict?
    modifies rp
    ensures removed == a.kids.Keys - b.kids.Keys
    ensures Halfway(a, b, b.kids.Keys, f, g) && Written(rp, path, f, g, old(rp.forward), old(rp.backward))
    ensures Noted(a, b, b.kids.Keys, f, g)
    decreases a, 1
  {
    f, g := [], [];
    Begin(a, b);
    removed := a.kids.Keys;
    var todo := b.kids.Keys;
    ghost var done: set<Key> := {};
    while todo != {}
      invariant done <= b.kids.Keys && todo == b.kids.Keys - done && removed == a.kids.Keys - done
      invariant Noted(a, b, done, f, g)
      invariant Halfway(a, b, done, f, g) && Written(rp, path, f, g, old(rp.forward), old(rp.backward))
      decreases todo
    {
      var k :| k in todo;
      removed := removed - {k};
      if k !in a.kids {
        f, g := AddAt(rp, path, a, b, k, done, f, g, old(rp.forward), old(rp.backward));
      } else if a.kids[k] != b.kids[k] {
        f, g := ChangeAt(rp, path, a, b, k, schema, done, f, g, old(rp.forward), old(rp.backward));
      } else {
        SkipKey(a, b, done, k, f, g);
        NotedSkip(a, b, done, k, f, g);
      }
      done, todo := done + {k}, todo - {k};
    }
    assert done == b.kids.Keys;
  }

  lemma NothingLeft(keys: set<Key>, done: set<Key>)
    requires keys - done == {}
    ensures keys <= done
  {
    forall k | k in keys ensures k in done {
      assert k in done || k in keys - done;
    }
  }

  /** `make_replay_patch_dict`: the other dict's keys, then the removed keys in any order. */
  method DiffDict(rp: BidirectionalReplayPatch, path: Path, a: Value, b: Value, ghost schema: string -> set<Key>)
    returns (ghost f: seq<Op>, ghost g: seq<Op>)
    requires Comparable(schema, a, b) && a.Node? && b.Node? && a.kind == b.kind && a.kind.Dict?
    modifies rp
    ensures Written(rp, path, f, g, old(rp.forward), old(rp.backward))
    ensures BothWays(a, b, f, g) && Paired(f, g) && AllDeep(f) && AllDeep(g)
    ensures Exact(Some(a), Some(b), f) && Exact(Some(b), Some(a), g)
    decreases a, 2
  {
    var removed: set<Key>;
    removed, f, g := DictEntries(rp, path, a, b, schema);
    ghost var done := b.kids.Keys;
    while removed != {}
      invariant removed == a.kids.Keys - done && b.kids.Keys <= done
      invariant Noted(a, b, done, f, g)
      invariant Halfway(a, b, done, f, g) && Written(rp, path, f, g, old(rp.forward), old(rp.backward))
      decreases removed
    {
      var k :| k in removed;
      f, g := RemoveAt(rp, path, a, b, k, done, f, g, old(rp.forward), old(rp.backward));
      done, removed := done + {k}, removed - {k};
    }
    NothingLeft(a.kids.Keys, done);
    Finish(a, b, done, f, g);
    NotedAll(a, b, done, f, g);
  }

  /** The common indices of two lists. */
  method DiffCommon(rp: BidirectionalReplayPatch, path: Path, a: Value, b: Value, min: nat,
                    ghost schema: string -> set<Key>)
    returns (ghost f: seq<Op>, ghost g: seq<Op>)
    requires Comparable(schema, a, b) && a.Node? && b.Node? && a.kind == b.kind
    requires ListKeys(min) <= a.kids.Keys && ListKeys(min) <= b.kids.Keys
    modifies rp
    ensures Written(rp, path, f, g, old(rp.forward), old(rp.backward))
    ensures Halfway(a, b, ListKeys(min), f, g) && Noted(a, b, ListKeys(min), f, g)
    decreases a, 1
  {
    f, g := [], [];
    Begin(a, b);
    for i := 0 to min
      invariant Halfway(a, b, ListKeys(i), f, g) && Written(rp, path, f, g, old(rp.forward), old(rp.backward))
      invariant Noted(a, b, ListKeys(i), f, g)
    {
      var k := IntKey(i);
      ListKeysNext(i);
      assert k in ListKeys(min);
      if a.kids[k] != b.kids[k] {
        f, g := ChangeAt(rp, path, a, b, k, schema, ListKeys(i), f, g, old(rp.forward), old(rp.backward));
      } else {
        SkipKey(a, b, ListKeys(i), k, f, g);
        NotedSkip(a, b, ListKeys(i), k, f, g);
      }
    }
  }

  /** Appends of b's elements n..i-1, upwards, and the removals that undo them, downwards. */
  ghost function Appends(b: Value, n: nat, i: nat): seq<Op>
    requires b.Node? && n <= i && ListKeys(i) <= b.kids.Keys
  {
    seq(i - n, j requires 0 <= j < i - n => Op(0, OpKind.Add, [IntKey(n + j)], b.kids[IntKey(n + j)]))
  }

  ghost function Removals(n: nat, i: nat): seq<Op>
    requires n <= i
  {
    seq(i - n, j requires 0 <= j < i - n => Op(0, OpKind.Remove, [IntKey(i - 1 - j)], NONE))
  }

  lemma AppendsNext(b: Value, n: nat, i: nat)
    requires b.Node? && n < i && ListKeys(i) <= b.kids.Keys
    ensures Appends(b, n, i) == Appends(b, n, i - 1) + [Op(0, OpKind.Add, [IntKey(i - 1)], b.kids[IntKey(i - 1)])]
    ensures Removals(n, i) == [Op(0, OpKind.Remove, [IntKey(i - 1)], NONE)] + Removals(n, i - 1)
  {
  }

  /** A list of length n grown to length i with the elements of b. */
  ghost function Grown(v: Value, b: Value, n: nat, i: nat): (r: Value)
    requires v.Node? && b.Node? && v.kind.List? && n <= i && v.kids.Keys == ListKeys(n) && ListKeys(i) <= b.kids.Keys
    ensures r.Node? && r.kind.List? && r.kids.Keys == ListKeys(i)
    ensures forall k :: k in ListKeys(i) ==> r.kids[k] == if k in ListKeys(n) then v.kids[k] else b.kids[k]
  {
    Node(List, map k | k in ListKeys(i) :: if k in ListKeys(n) then v.kids[k] else b.kids[k])
  }

  lemma GrownNext(v: Value, b: Value, n: nat, i: nat)
    requires v.Node? && b.Node? && v.kind.List? && n < i && v.kids.Keys == ListKeys(n) && ListKeys(i) <= b.kids.Keys
    ensures var w, k := Grown(v, b, n, i - 1), IntKey(i - 1);
            Grown(v, b, n, i) == Node(List, w.kids[k := b.kids[k]]) && k !in w.kids
  {
    var w, k := Grown(v, b, n, i - 1), IntKey(i - 1);
    assert Grown(v, b, n, i).kids == w.kids[k := b.kids[k]];
  }

  lemma {:induction false} AppendsRun(v: Value, b: Value, n: nat, i: nat)
    requires v.Node? && b.Node? && v.kind.List? && n <= i && v.kids.Keys == ListKeys(n) && ListKeys(i) <= b.kids.Keys
    ensures BothWays(v, Grown(v, b, n, i), Appends(b, n, i), Removals(n, i))
    decreases i
  {
    if i == n {
      assert Grown(v, b, n, i).kids == v.kids;
    } else {
      AppendsRun(v, b, n, i - 1);
      AppendsNext(b, n, i);
      GrownNext(v, b, n, i);
      var w, k := Grown(v, b, n, i - 1), IntKey(i - 1);
      AddStep(w, k, b.kids[k]);
      ExtendOne(v, w, Appends(b, n, i - 1), Removals(n, i - 1), Grown(v, b, n, i),
                Op(0, OpKind.Add, [k], b.kids[k]), Op(0, OpKind.Remove, [k], NONE));
    }
  }

  lemma AppendsTidy(b: Value, n: nat, i: nat)
    requires b.Node? && n <= i && ListKeys(i) <= b.kids.Keys && WellFormed(b)
    ensures Tidy(Appends(b, n, i), Removals(n, i), ListKeys(i) - ListKeys(n))
    ensures Tidy(Removals(n, i), Appends(b, n, i), ListKeys(i) - ListKeys(n))
  {
    AppendsGood(b, n, i);
    AppendsMirror(b, n, i);
    IndexPaths(Appends(b, n, i), n, i);
    IndexPaths(Removals(n, i), n, i);
  }

  lemma AppendsGood(b: Value, n: nat, i: nat)
    requires b.Node? && n <= i && ListKeys(i) <= b.kids.Keys && WellFormed(b)
    ensures GoodValues(Appends(b, n, i)) && GoodValues(Removals(n, i))
  {
    forall j | 0 <= j < i - n ensures WellFormed(Appends(b, n, i)[j].value) {
      assert IntKey(n + j) in b.kids;
    }
  }

  lemma AppendsMirror(b: Value, n: nat, i: nat)
    requires b.Node? && n <= i && ListKeys(i) <= b.kids.Keys
    ensures Mirror(Appends(b, n, i), Removals(n, i)) && Mirror(Removals(n, i), Appends(b, n, i))
  {
  }

  /** Single-index paths, each index of n..i-1 at most once. */
  lemma IndexPaths(ops: seq<Op>, n: nat, i: nat)
    requires forall j :: 0 <= j < |ops| ==> |ops[j].path| == 1 && ops[j].path[0].IntKey? && n <= ops[j].path[0].i < i
    requires forall j, l :: 0 <= j < l < |ops| ==> ops[j].path[0] != ops[l].path[0]
    ensures Antichain(ops) && Within(ops, ListKeys(i) - ListKeys(n))
  {
    forall j, l | 0 <= j < |ops| && 0 <= l < |ops| && j != l ensures !(ops[j].path <= ops[l].path) {
      assert ops[j].path[0] != ops[l].path[0];
    }
  }

  /** The indices only the other list has, appended upwards. */
  method AppendTail(rp: BidirectionalReplayPatch, path: Path, b: Value, n: nat, m: nat,
                    ghost f0: seq<Op>, ghost g0: seq<Op>, ghost fw: seq<Op>, ghost bw: seq<Op>)
    returns (ghost f: seq<Op>, ghost g: seq<Op>)
    requires b.Node? && n <= m && b.kids.Keys == ListKeys(m)
    requires Written(rp, path, f0, g0, fw, bw)
    modifies rp
    ensures f == f0 + Appends(b, n, m) && g == Removals(n, m) + g0
    ensures Written(rp, path, f, g, fw, bw)
  {
    f, g := f0, g0;
    for i := n to m
      invariant f == f0 + Appends(b, n, i) && g == Removals(n, i) + g0
      invariant Written(rp, path, f, g, fw, bw)
    {
      var k := IntKey(i);
      rp.Add(path + [k], b.kids[k]);
      ghost var op, inv := Op(0, OpKind.Add, [k], b.kids[k]), Op(0, OpKind.Remove, [k], NONE);
      WriteOne(path, k, f, g, fw, bw, op, inv);
      AppendsNext(b, n, i + 1);
      f, g := f + [op], [inv] + g;
    }
  }

  /** The indices only the original list has, removed downwards: the appends undone. */
  method RemoveTail(rp: BidirectionalReplayPatch, path: Path, a: Value, n: nat, m: nat,
                    ghost f0: seq<Op>, ghost g0: seq<Op>, ghost fw: seq<Op>, ghost bw: seq<Op>)
    returns (ghost f: seq<Op>, ghost g: seq<Op>)
    requires a.Node? && m <= n && a.kids.Keys == ListKeys(n)
    requires Written(rp, path, f0, g0, fw, bw)
    modifies rp
    ensures f == f0 + Removals(m, n) && g == Appends(a, m, n) + g0
    ensures Written(rp, path, f, g, fw, bw)
  {
    f, g := f0, g0;
    for i := n downto m
      invariant f == f0 + Removals(i, n) && g == Appends(a, i, n) + g0
      invariant Written(rp, path, f, g, fw, bw)
    {
      var k := IntKey(i);
      rp.Remove(path + [k], a.kids[k]);
      ghost var op, inv := Op(0, OpKind.Remove, [k], NONE), Op(0, OpKind.Add, [k], a.kids[k]);
      WriteOne(path, k, f, g, fw, bw, op, inv);
      RemovalsNext(a, i, n);
      f, g := f + [op], [inv] + g;
    }
  }

  lemma RemovalsNext(a: Value, i: nat, n: nat)
    requires a.Node? && i < n && ListKeys(n) <= a.kids.Keys
    ensures Removals(i, n) == Removals(i + 1, n) + [Op(0, OpKind.Remove, [IntKey(i)], NONE)]
    ensures Appends(a, i, n) == [Op(0, OpKind.Add, [IntKey(i)], a.kids[IntKey(i)])] + Appends(a, i + 1, n)
  {
  }

  /** The common part of two lists, changed from a to b, grows to b. */
  lemma MixGrows(a: Value, b: Value, n: nat, m: nat)
    requires a.Node? && b.Node? && a.kind.List? && b.kind.List? && n <= m
    requires a.kids.Keys == ListKeys(n) && b.kids.Keys == ListKeys(m)
    ensures Mix(a, b, ListKeys(n)).kids.Keys == ListKeys(n)
    ensures Grown(Mix(a, b, ListKeys(n)), b, n, m) == b
  {
    var v := Mix(a, b, ListKeys(n));
    MixKeys(a, b, n, m);
    NodeExt(Grown(v, b, n, m), b);
  }

  lemma MixKeys(a: Value, b: Value, n: nat, m: nat)
    requires a.Node? && b.Node? && n <= m && a.kids.Keys == ListKeys(n) && b.kids.Keys == ListKeys(m)
    ensures Mix(a, b, ListKeys(n)).kids.Keys == ListKeys(n)
  {
    var v := Mix(a, b, ListKeys(n));
    forall k ensures k in v.kids <==> k in ListKeys(n) {
      assert Lookup(v, k) == if k in ListKeys(n) then Lookup(b, k) else Lookup(a, k);
    }
  }

  /** It is what b grows to with the rest of a. */
  lemma MixShrinks(a: Value, b: Value, n: nat, m: nat)
    requires a.Node? && b.Node? && a.kind.List? && b.kind.List? && m <= n
    requires a.kids.Keys == ListKeys(n) && b.kids.Keys == ListKeys(m)
    ensures Grown(b, a, m, n) == Mix(a, b, ListKeys(m))
  {
    NodeExt(Grown(b, a, m, n), Mix(a, b, ListKeys(m)));
  }

  lemma BothWaysBack(a: Value, b: Value, f: seq<Op>, g: seq<Op>)
    requires BothWays(a, b, f, g)
    ensures BothWays(b, a, g, f)
  {
  }

  /** `make_replay_patch_list`: the common indices, then appends upwards or removals
      downwards. */
  method DiffList(rp: BidirectionalReplayPatch, path: Path, a: Value, b: Value, ghost schema: string -> set<Key>)
    returns (ghost f: seq<Op>, ghost g: seq<Op>)
    requires Comparable(schema, a, b) && a.Node? && b.Node? && a.kind == b.kind && a.kind.List?
    modifies rp
    ensures Written(rp, path, f, g, old(rp.forward), old(rp.backward))
    ensures BothWays(a, b, f, g) && Paired(f, g) && AllDeep(f) && AllDeep(g)
    ensures Exact(Some(a), Some(b), f) && Exact(Some(b), Some(a), g)
    decreases a, 2
  {
    var n, m := |a.kids.Keys|, |b.kids.Keys|;
    ghost var f1: seq<Op>, g1: seq<Op>;
    if m > n {
      f1, g1 := DiffCommon(rp, path, a, b, n, schema);
      f, g := AppendTail(rp, path, b, n, m, f1, g1, old(rp.forward), old(rp.backward));
      GrowList(a, b, n, m, f1, g1);
      NotedTail(a, b, n, m, f1, g1);
      NotedAll(a, b, ListKeys(m), f, g);
    } else {
      f1, g1 := DiffCommon(rp, path, a, b, m, schema);
      f, g := RemoveTail(rp, path, a, n, m, f1, g1, old(rp.forward), old(rp.backward));
      ShrinkList(a, b, n, m, f1, g1);
      NotedTail(b, a, m, n, g1, f1);
      NotedAll(a, b, ListKeys(n), f, g);
    }
  }

  /** The elements only the longer list has are one difference each, in both directions and
      wherever they are put. */
  lemma {:induction false} NotedTail(a: Value, b: Value, n: nat, m: nat, f: seq<Op>, g: seq<Op>)
    requires a.Node? && b.Node? && a.kind == b.kind && n <= m
    requires a.kids.Keys == ListKeys(n) && b.kids.Keys == ListKeys(m) && Noted(a, b, ListKeys(n), f, g)
    ensures Noted(a, b, ListKeys(m), f + Appends(b, n, m), Removals(n, m) + g)
    ensures Noted(b, a, ListKeys(m), g + Removals(n, m), Appends(b, n, m) + f)
  {
    NotedUpTo(a, b, n, m, m, f, g);
    forall op ensures op in g + Removals(n, m) <==> op in Removals(n, m) + g {}
    forall op ensures op in f + Appends(b, n, m) <==> op in Appends(b, n, m) + f {}
  }

  lemma {:induction false} NotedUpTo(a: Value, b: Value, n: nat, i: nat, m: nat, f: seq<Op>, g: seq<Op>)
    requires a.Node? && b.Node? && a.kind == b.kind && n <= i <= m
    requires a.kids.Keys == ListKeys(n) && b.kids.Keys == ListKeys(m) && Noted(a, b, ListKeys(n), f, g)
    ensures Noted(a, b, ListKeys(i), f + Appends(b, n, i), Removals(n, i) + g)
    decreases i
  {
    if i == n {
      TailNone(b, n, f, g);
    } else {
      NotedUpTo(a, b, n, i - 1, m, f, g);
      NotedNext(a, b, n, i, m, f + Appends(b, n, i - 1), Removals(n, i - 1) + g);
      TailNext(b, n, i, f, g);
    }
  }

  lemma TailNone(b: Value, n: nat, f: seq<Op>, g: seq<Op>)
    requires b.Node? && ListKeys(n) <= b.kids.Keys
    ensures f + Appends(b, n, n) == f && Removals(n, n) + g == g
  {
  }

  lemma NotedNext(a: Value, b: Value, n: nat, i: nat, m: nat, f: seq<Op>, g: seq<Op>)
    requires a.Node? && b.Node? && a.kind == b.kind && n < i <= m
    requires a.kids.Keys == ListKeys(n) && b.kids.Keys == ListKeys(m) && Noted(a, b, ListKeys(i - 1), f, g)
    ensures IntKey(i - 1) in b.kids
    ensures Noted(a, b, ListKeys(i), f + [Op(0, OpKind.Add, [IntKey(i - 1)], b.kids[IntKey(i - 1)])],
                  [Op(0, OpKind.Remove, [IntKey(i - 1)], NONE)] + g)
  {
    var k := IntKey(i - 1);
    assert k in ListKeys(m) && k !in ListKeys(n) && k !in ListKeys(i - 1);
    ListKeysNext(i - 1);
    NotedOne(a, b, ListKeys(i - 1), k, f, g, Op(0, OpKind.Add, [k], b.kids[k]), Op(0, OpKind.Remove, [k], NONE));
  }

  lemma TailNext(b: Value, n: nat, i: nat, f: seq<Op>, g: seq<Op>)
    requires b.Node? && n < i && ListKeys(i) <= b.kids.Keys
    ensures f + Appends(b, n, i) ==
            f + Appends(b, n, i - 1) + [Op(0, OpKind.Add, [IntKey(i - 1)], b.kids[IntKey(i - 1)])]
    ensures Removals(n, i) + g == [Op(0, OpKind.Remove, [IntKey(i - 1)], NONE)] + (Removals(n, i - 1) + g)
  {
    AppendsNext(b, n, i);
  }

  lemma GrowList(a: Value, b: Value, n: nat, m: nat, f: seq<Op>, g: seq<Op>)
    requires a.Node? && b.Node? && a.kind.List? && b.kind.List? && WellFormed(b) && n <= m
    requires a.kids.Keys == ListKeys(n) && b.kids.Keys == ListKeys(m)
    requires Halfway(a, b, ListKeys(n), f, g)
    ensures BothWays(a, b, f + Appends(b, n, m), Removals(n, m) + g)
    ensures Paired(f + Appends(b, n, m), Removals(n, m) + g)
    ensures AllDeep(f + Appends(b, n, m)) && AllDeep(Removals(n, m) + g)
  {
    var v := Mix(a, b, ListKeys(n));
    MixGrows(a, b, n, m);
    AppendsRun(v, b, n, m);
    Compose(a, v, b, f, g, Appends(b, n, m), Removals(n, m));
    AppendsTidy(b, n, m);
    ComposeTidy(f, g, ListKeys(n), Appends(b, n, m), Removals(n, m), ListKeys(m) - ListKeys(n));
    TidyDeep(f + Appends(b, n, m), Removals(n, m) + g, ListKeys(n) + (ListKeys(m) - ListKeys(n)));
  }

  lemma ShrinkList(a: Value, b: Value, n: nat, m: nat, f: seq<Op>, g: seq<Op>)
    requires a.Node? && b.Node? && a.kind.List? && b.kind.List? && WellFormed(a) && m <= n
    requires a.kids.Keys == ListKeys(n) && b.kids.Keys == ListKeys(m)
    requires Halfway(a, b, ListKeys(m), f, g)
    ensures BothWays(a, b, f + Removals(m, n), Appends(a, m, n) + g)
    ensures Paired(f + Removals(m, n), Appends(a, m, n) + g)
    ensures AllDeep(f + Removals(m, n)) && AllDeep(Appends(a, m, n) + g)
  {
    var v := Mix(a, b, ListKeys(m));
    MixShrinks(a, b, n, m);
    AppendsRun(b, a, m, n);
    BothWaysBack(b, v, Appends(a, m, n), Removals(m, n));
    Compose(a, v, b, f, g, Removals(m, n), Appends(a, m, n));
    AppendsTidy(a, m, n);
    ComposeTidy(f, g, ListKeys(m), Removals(m, n), Appends(a, m, n), ListKeys(n) - ListKeys(m));
    TidyDeep(f + Removals(m, n), Appends(a, m, n) + g, ListKeys(m) + (ListKeys(n) - ListKeys(m)));
  }

  lemma TidyDeep(f: seq<Op>, g: seq<Op>, keys: set<Key>)
    requires Tidy(f, g, keys)
    ensures AllDeep(f) && AllDeep(g)
  {
    forall i | 0 <= i < |g| ensures g[i].path != [] {
      assert g[i].path == f[|f| - 1 - i].path;
    }
  }

  /** A patch of all differences is empty exactly for equal states. */
  lemma NothingToDo(a: Value, b: Value, f: seq<Op>)
    requires Exact(Some(a), Some(b), f) && (f == [] ==> a == b)
    ensures a == b <==> f == []
  {
    if a == b && f != [] {
      assert f[0] in f;
      NoChange(f[0], Some(a));
    }
  }

  /** `make_bireplay_patch`: for any two values, the forward patch turns the first into the
      second and the backward patch undoes it, with pairwise non-nested paths; unless the
      roots themselves differ in type or are unequal primitives, in which case the patch
      addresses the root and cannot be applied. */
  method MakeBiReplayPatch(a: Value, b: Value, ghost schema: string -> set<Key>) returns (rp: BidirectionalReplayPatch)
    requires Comparable(schema, a, b)
    ensures fresh(rp) && Paired(rp.forward, rp.backward)
    ensures BothWays(a, b, rp.forward, rp.backward)
    ensures Exact(Some(a), Some(b), rp.forward) && Exact(Some(b), Some(a), rp.backward)
    ensures a == b <==> rp.forward == []
    ensures a == b <==> rp.backward == []
    ensures SameType(a, b) && (a.Node? || a == b) ==>
              && AllDeep(rp.forward) && AllDeep(rp.backward)
              && ExecRun(a, rp.forward) == Some(b) && ExecRun(b, rp.backward) == Some(a)
    ensures !(SameType(a, b) && (a.Node? || a == b)) ==>
              ExecRun(a, rp.forward) == None && ExecRun(b, rp.backward) == None
  {
    rp := new BidirectionalReplayPatch();
    ghost var f, g := DiffAny(rp, [], a, b, schema);
    UnderRoot(f);
    UnderRoot(g);
    assert rp.forward == f && rp.backward == g;
    NothingToDo(a, b, f);
    NothingToDo(b, a, g);
    if SameType(a, b) && (a.Node? || a == b) {
      RunIsExec(a, f);
      RunIsExec(b, g);
    } else {
      assert Init(f) == [] && Init(g) == [];
    }
  }
}
