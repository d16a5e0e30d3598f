/** `dfs_apply_ops` and `collapse_op_tree`, proved against running the chain. */
module Collapse {
  import opened Values
  import opened OpFold
  import opened LongPatch
  import opened OpTree
  import opened Sorting

  // ----- the children `dfs_apply_ops` keeps

  datatype Child = Child(key: Key, slot: Slot)

  /** What a kept child's operation amounts to on the container it is pushed into. */
  function Effect(c: Child, v: Value): OpKind {
    if Start(c.slot).None? then Remove else if Lookup(v, c.key).Some? then Replace else Add
  }

  function OutOp(c: Child, ops: seq<Op>, v: Value): Op {
    Op(c.slot.created, Effect(c, v), [c.key], DfsNode(c.slot.value, c.slot.changed, Sub(ops, c.key)))
  }

  /** The operations the kept children amount to. */
  function Outs(cs: seq<Child>, ops: seq<Op>, v: Value): seq<Op> {
    if cs == [] then []
    else if Last(cs).slot.op.None? then Outs(Init(cs), ops, v)
    else Outs(Init(cs), ops, v) + [OutOp(Last(cs), ops, v)]
  }

  lemma {:induction false} OutsMember(cs: seq<Child>, ops: seq<Op>, v: Value, e: Op)
    ensures e in Outs(cs, ops, v) <==> exists c :: c in cs && c.slot.op.Some? && e == OutOp(c, ops, v)
  {
    if cs != [] {
      OutsMember(Init(cs), ops, v, e);
      assert cs == Init(cs) + [Last(cs)];
      if e in Outs(cs, ops, v) {
        if e in Outs(Init(cs), ops, v) {
          var c :| c in Init(cs) && c.slot.op.Some? && e == OutOp(c, ops, v);
          assert c in cs;
        } else {
          assert Last(cs) in cs;
        }
      }
    }
  }

  lemma {:induction false} OutsPrefix(cs: seq<Child>, ops: seq<Op>, v: Value, n: nat)
    requires n <= |cs|
    ensures Outs(cs[..n], ops, v) <= Outs(cs, ops, v)
  {
    if n == |cs| {
      assert cs[..n] == cs;
    } else {
      assert Init(cs)[..n] == cs[..n];
      OutsPrefix(Init(cs), ops, v, n);
    }
  }

  /** cs lists, by creation time, exactly the children changed after t. */
  ghost predicate IsPruned(cs: seq<Child>, ops: seq<Op>, t: nat) {
    && (forall i, j :: 0 <= i < j < |cs| ==> cs[i].slot.created < cs[j].slot.created)
    && (forall c :: c in cs <==> Folded(ops, c.key) == Some(c.slot) && c.slot.changed >= t)
  }

  lemma {:induction false} OutsIncreasing(cs: seq<Child>, ops: seq<Op>, v: Value)
    requires forall i, j :: 0 <= i < j < |cs| ==> cs[i].slot.created < cs[j].slot.created
    ensures Increasing(Outs(cs, ops, v))
  {
    if cs != [] {
      OutsIncreasing(Init(cs), ops, v);
      forall e | e in Outs(Init(cs), ops, v) ensures e.at < Last(cs).slot.created {
        OutsMember(Init(cs), ops, v, e);
      }
    }
  }

  lemma {:induction false} OutsHeads(cs: seq<Child>, ops: seq<Op>, v: Value)
    ensures Heads(Outs(cs, ops, v)) == Outs(cs, ops, v) && AllDeep(Outs(cs, ops, v))
  {
    if cs != [] {
      OutsHeads(Init(cs), ops, v);
      if Last(cs).slot.op.Some? {
        assert Init(Outs(cs, ops, v)) == Outs(Init(cs), ops, v);
      }
    }
  }

  /** The kept child with key k, if any. */
  function ChildFor(cs: seq<Child>, k: Key): (r: Option<Child>)
    ensures r.Some? ==> r.value in cs && r.value.key == k
    ensures r.None? ==> forall c :: c in cs ==> c.key != k
  {
    if cs == [] then None
    else
      assert cs == Init(cs) + [Last(cs)];
      if Last(cs).key == k then Some(Last(cs)) else ChildFor(Init(cs), k)
  }

  function OutFor(c: Option<Child>, ops: seq<Op>, v: Value): seq<Op> {
    if c.Some? && c.value.slot.op.Some? then [Tail(OutOp(c.value, ops, v))] else []
  }

  /** The kept operation below key k, if any. */
  lemma {:induction false} OutsSub(cs: seq<Child>, ops: seq<Op>, v: Value, k: Key)
    requires forall i, j :: 0 <= i < j < |cs| ==> cs[i].key != cs[j].key
    ensures Sub(Outs(cs, ops, v), k) == OutFor(ChildFor(cs, k), ops, v)
  {
    if cs != [] {
      var l := Last(cs);
      OutsSub(Init(cs), ops, v, k);
      if l.slot.op.Some? {
        SubSnoc(Outs(Init(cs), ops, v), OutOp(l, ops, v), k);
      }
      if l.key == k {
        assert ChildFor(Init(cs), k).None?;
      }
    }
  }

  lemma SubSnoc(s: seq<Op>, op: Op, k: Key)
    requires op.path != []
    ensures Sub(s + [op], k) == if op.path[0] == k then Sub(s, k) + [Tail(op)] else Sub(s, k)
  {
    assert Init(s + [op]) == s;
  }

  /** The kept child with key k is the one whose slot was changed since t. */
  lemma PrunedFor(cs: seq<Child>, ops: seq<Op>, t: nat, k: Key)
    requires IsPruned(cs, ops, t)
    ensures var s := Folded(ops, k);
            ChildFor(cs, k) == if s.Some? && s.value.changed >= t then Some(Child(k, s.value)) else None
  {
    var s, c := Folded(ops, k), ChildFor(cs, k);
    if s.Some? && s.value.changed >= t {
      assert Child(k, s.value) in cs;
    }
    if c.Some? {
      assert c.value == Child(k, c.value.slot) && c.value in cs;
    }
  }

  lemma PrunedKeys(ops: seq<Op>, cs: seq<Child>, t: nat)
    requires IsPruned(cs, ops, t)
    ensures forall i, j :: 0 <= i < j < |cs| ==> cs[i].key != cs[j].key
  {
    forall i, j | 0 <= i < j < |cs| ensures cs[i].key != cs[j].key {
      assert cs[i] in cs && cs[j] in cs;
    }
  }

  // ----- when the kept operations fit

  /** The kept operations can be carried out on v one after the other; and unless v is a dict,
      for which adding and replacing are the same, each was folded to what it amounts to. */
  ghost predicate Fit(v: Value, cs: seq<Child>, ops: seq<Op>) {
    && SlotRun(Some(v), Outs(cs, ops, v)).Some?
    && ((v.Node? && v.kind.Dict?) || forall c :: c in cs && c.slot.op.Some? ==> c.slot.op.value == Effect(c, v))
  }

  /** Every kept operation fits the value it is pushed into, at every depth. */
  ghost predicate Fits(ops: seq<Op>, s: Slot)
    decreases Height(ops), 0
  {
    && (forall cs :: IsPruned(cs, ops, s.changed) ==> Fit(s.value, cs, ops))
    && (ops == [] || forall k :: (SubHeight(ops, k); FitsBelow(s.changed, Sub(ops, k))))
  }

  ghost predicate FitsBelow(t: nat, sub: seq<Op>)
    decreases Height(sub), 1
  {
    match FoldDirect(sub)
    case None => true
    case Some(s) => s.changed >= t && Start(s).Some? ==> Fits(sub, s)
  }

  /** Every topmost slot of the chain fits what is pushed into it. */
  ghost predicate Pushable(ops: seq<Op>)
    decreases Height(ops)
  {
    match FoldDirect(ops)
    case Some(s) => s.op.Some? ==> Fits(ops, s)
    case None => ops == [] || forall k :: (SubHeight(ops, k); Pushable(Sub(ops, k)))
  }

  /** The operation kept below k: that of its slot, if the slot was changed since t. */
  lemma OutsAt(v: Value, t: nat, ops: seq<Op>, cs: seq<Child>, k: Key)
    requires IsPruned(cs, ops, t)
    ensures var s := Folded(ops, k);
            Sub(Outs(cs, ops, v), k) ==
            OutFor(if s.Some? && s.value.changed >= t then Some(Child(k, s.value)) else None, ops, v)
  {
    PrunedKeys(ops, cs, t);
    OutsSub(cs, ops, v, k);
    PrunedFor(cs, ops, t, k);
  }

  /** What the kept operation below k does to its slot: what the push does. */
  lemma OutsSlot(v: Value, t: nat, ops: seq<Op>, cs: seq<Child>, k: Key)
    requires v.Node? && IsPruned(cs, ops, t) && SlotRun(Lookup(v, k), Sub(Outs(cs, ops, v), k)).Some?
    ensures SlotRun(Lookup(v, k), Sub(Outs(cs, ops, v), k)) == Some(DfsSlot(Lookup(v, k), t, Sub(ops, k)))
  {
    OutsAt(v, t, ops, cs, k);
    var folded := Folded(ops, k);
    if folded.Some? && folded.value.changed >= t && folded.value.op.Some? {
      OneOut(Child(k, folded.value), ops, v, Lookup(v, k));
    }
  }

  /** A single kept operation on its slot. */
  lemma OneOut(c: Child, ops: seq<Op>, v: Value, cur: Option<Value>)
    requires SlotRun(cur, [Tail(OutOp(c, ops, v))]).Some?
    ensures SlotRun(cur, [Tail(OutOp(c, ops, v))]) ==
            Some(if Start(c.slot).None? then None else Some(DfsNode(c.slot.value, c.slot.changed, Sub(ops, c.key))))
  {
    var e := Tail(OutOp(c, ops, v));
    assert Init([e]) == [] && e.path == [];
  }

  /** Running kept operations that fit on a value is the push. */
  lemma OutsRun(v: Value, t: nat, ops: seq<Op>, cs: seq<Child>)
    requires IsPruned(cs, ops, t) && Fit(v, cs, ops)
    ensures SlotRun(Some(v), Outs(cs, ops, v)) == Some(Some(DfsNode(v, t, ops)))
  {
    var outs := Outs(cs, ops, v);
    OutsHeads(cs, ops, v);
    DeepRunKeeps(Some(v), outs);
    if v.Node? {
      Split(v, outs);
      var r := SlotRun(Some(v), outs).value.value;
      forall k ensures Lookup(r, k) == Lookup(DfsNode(v, t, ops), k) {
        OutsSlot(v, t, ops, cs, k);
        DfsLookup(v, t, ops, k);
      }
      DfsLookup(v, t, ops, IntKey(0));
      NodeExt(r, DfsNode(v, t, ops));
    }
  }

  /** A kept child is to be removed from a dict that does not have it. */
  ghost predicate Misfit(v: Value, t: nat, ops: seq<Op>) {
    v.Node? && v.kind.Dict? && exists k :: MisfitAt(v, t, ops, k)
  }

  ghost predicate MisfitAt(v: Value, t: nat, ops: seq<Op>, k: Key) {
    var s := Folded(ops, k);
    s.Some? && s.value.changed >= t && s.value.op == Some(Remove) && Lookup(v, k).None?
  }

  /** On a dict the kept operations fit if and only if each removal finds its entry. */
  lemma DictFit(v: Value, t: nat, ops: seq<Op>, cs: seq<Child>)
    requires v.Node? && v.kind.Dict? && IsPruned(cs, ops, t)
    ensures Fit(v, cs, ops) <==> !Misfit(v, t, ops)
  {
    var outs := Outs(cs, ops, v);
    OutsHeads(cs, ops, v);
    Split(v, outs);
    forall k ensures SlotRun(Lookup(v, k), Sub(outs, k)).Some? <==> !MisfitAt(v, t, ops, k) {
      DictSlot(v, t, ops, cs, k);
    }
    forall i | 0 <= i < |outs| ensures |outs[i].path| == 1 {
      OutsMember(cs, ops, v, outs[i]);
    }
    LooseKeys(v.kind, v.kids.Keys, outs);
    assert SlotsRun(v, outs) <==> !Misfit(v, t, ops);
  }

  lemma DictSlot(v: Value, t: nat, ops: seq<Op>, cs: seq<Child>, k: Key)
    requires v.Node? && IsPruned(cs, ops, t)
    ensures SlotRun(Lookup(v, k), Sub(Outs(cs, ops, v), k)).Some? <==> !MisfitAt(v, t, ops, k)
  {
    OutsAt(v, t, ops, cs, k);
    var folded := Folded(ops, k);
    if folded.Some? && folded.value.changed >= t && folded.value.op.Some? {
      OneFits(Child(k, folded.value), ops, v);
    }
  }

  /** What a single operation amounts to fits its slot, unless it removes what is not there. */
  lemma OneFits(c: Child, ops: seq<Op>, v: Value)
    requires c.slot.op.Some?
    ensures SlotRun(Lookup(v, c.key), [Tail(OutOp(c, ops, v))]).Some? <==>
            !(c.slot.op == Some(Remove) && Lookup(v, c.key).None?)
  {
    var e, cur := Tail(OutOp(c, ops, v)), Lookup(v, c.key);
    assert Init([e]) == [] && Last([e]) == e && e.path == [] && e.kind == Effect(c, v);
    assert SlotRun(cur, []) == Some(cur);
    assert SlotRun(cur, [e]) == SlotStep(e, cur) == SlotApply(Effect(c, v), e.value, cur);
    match c.slot.op.value
    case Add => assert Start(c.slot).Some?;
    case Replace => assert Start(c.slot).Some?;
    case Remove => assert Effect(c, v) == Remove;
  }

  // ----- (E) makes them fit

  /** A slot whose chain below it can be run from its value. */
  ghost predicate Runs(ops: seq<Op>, s: Slot) {
    && Foldable(ops) && FoldDirect(ops) == Some(s)
    && AllDeep(After(s.changed, ops))
    && SlotRun(Some(s.value), After(s.changed, ops)).Some?
  }

  /** Only the kept children have direct operations since the slot's last change. */
  lemma KeptFold(ops: seq<Op>, s: Slot, cs: seq<Child>, k: Key)
    requires Runs(ops, s) && IsPruned(cs, ops, s.changed)
    ensures Folded(After(s.changed, ops), k).Some? <==> exists c :: c in cs && c.key == k
    ensures Folded(After(s.changed, ops), k).Some? ==>
              && Folded(After(s.changed, ops), k) == Folded(ops, k)
              && Child(k, Folded(ops, k).value) in cs
  {
    var t, sub := s.changed, Sub(ops, k);
    SubAfter(t, ops, k);
    SubIncreasing(ops, k);
    AfterIncreasing(t, sub);
    FoldNone(sub);
    FoldNone(After(t, sub));
    if FoldDirect(sub).Some? {
      var sk := FoldDirect(sub).value;
      AllLater(ops, s, k, sk);
      if sk.changed > t {
        FoldAfter(t, sub);
        assert Child(k, sk) in cs;
      } else {
        var c := ChangedBy(sub);
        forall i | 0 <= i < |After(t, sub)| ensures After(t, sub)[i].path != [] {
          AfterMember(t, sub, After(t, sub)[i]);
        }
      }
    } else {
      forall i | 0 <= i < |After(t, sub)| ensures After(t, sub)[i].path != [] {
        AfterMember(t, sub, After(t, sub)[i]);
      }
    }
  }

  /** A kept operation is what it was folded to. */
  lemma KeptStep(ops: seq<Op>, s: Slot, k: Key, sk: Slot)
    requires Runs(ops, s) && s.value.Node? && FoldDirect(Sub(ops, k)) == Some(sk) && sk.changed >= s.changed
    ensures sk.op.None? ==> Lookup(s.value, k).None?
    ensures sk.op.Some? ==> sk.op.value == Effect(Child(k, sk), s.value)
    ensures sk.op.Some? ==>
              forall x :: SlotApply(sk.op.value, x, Lookup(s.value, k)) ==
                Some(if sk.op.value.Remove? then None else Some(x))
  {
    var cur, sub := Lookup(s.value, k), Sub(ops, k);
    Split(s.value, After(s.changed, ops));
    SubAfter(s.changed, ops, k);
    SubIncreasing(ops, k);
    AllLater(ops, s, k, sk);
    LaterRun(cur, s.changed, sub, sk, SlotRun(cur, After(s.changed, sub)).value);
  }

  /** The kept children are the ledger output of the operations since the last change. */
  lemma OutsLedger(ops: seq<Op>, s: Slot, cs: seq<Child>)
    requires Runs(ops, s) && s.value.Node? && IsPruned(cs, ops, s.changed)
    ensures IsLedgerOutput(Heads(After(s.changed, ops)), Outs(cs, ops, s.value))
  {
    var later, outs := After(s.changed, ops), Outs(cs, ops, s.value);
    OutsIncreasing(cs, ops, s.value);
    forall i | 0 <= i < |outs|
      ensures |outs[i].path| == 1
      ensures Folded(Heads(later), outs[i].path[0]).Some?
      ensures Folded(Heads(later), outs[i].path[0]).value.op == Some(outs[i].kind)
      ensures Folded(Heads(later), outs[i].path[0]).value.created == outs[i].at
    {
      OutsMember(cs, ops, s.value, outs[i]);
      var c :| c in cs && c.slot.op.Some? && outs[i] == OutOp(c, ops, s.value);
      KeptFold(ops, s, cs, c.key);
      KeptStep(ops, s, c.key, c.slot);
      HeadsFold(later, c.key);
    }
    forall k | Folded(Heads(later), k).Some? && Folded(Heads(later), k).value.op.Some?
      ensures exists i :: 0 <= i < |outs| && outs[i].path == [k]
    {
      HeadsFold(later, k);
      KeptFold(ops, s, cs, k);
      var c := Child(k, Folded(ops, k).value);
      OutsMember(cs, ops, s.value, OutOp(c, ops, s.value));
    }
  }

  lemma KeptSlot(ops: seq<Op>, s: Slot, cs: seq<Child>, k: Key)
    requires Runs(ops, s) && s.value.Node? && IsPruned(cs, ops, s.changed)
    ensures SlotRun(Lookup(s.value, k), Sub(Outs(cs, ops, s.value), k)).Some?
  {
    PrunedKeys(ops, cs, s.changed);
    OutsSub(cs, ops, s.value, k);
    PrunedFor(cs, ops, s.changed, k);
    var folded := Folded(ops, k);
    if folded.Some? && folded.value.changed >= s.changed && folded.value.op.Some? {
      KeptStep(ops, s, k, folded.value);
      OneFits(Child(k, folded.value), ops, s.value);
    }
  }

  lemma RunsFit(ops: seq<Op>, s: Slot, cs: seq<Child>)
    requires Runs(ops, s) && IsPruned(cs, ops, s.changed) && WellFormed(s.value)
    ensures Fit(s.value, cs, ops)
  {
    var v, outs := s.value, Outs(cs, ops, s.value);
    if v.Leaf? {
      LeafQuiet(ops, s, cs);
    } else {
      OutsHeads(cs, ops, v);
      OutsLedger(ops, s, cs);
      AfterIncreasing(s.changed, ops);
      LedgerOutputKeys(v, After(s.changed, ops), outs);
      forall k ensures SlotRun(Lookup(v, k), Sub(outs, k)).Some? {
        KeptSlot(ops, s, cs, k);
      }
      assert SlotsRun(v, outs);
      Split(v, outs);
      forall c | c in cs && c.slot.op.Some? ensures c.slot.op.value == Effect(c, v) {
        KeptStep(ops, s, c.key, c.slot);
      }
    }
  }

  lemma SubValues(ops: seq<Op>, k: Key)
    requires GoodValues(ops)
    ensures GoodValues(Sub(ops, k))
  {
    forall op | op in Sub(ops, k) ensures WellFormed(op.value) {
      SubMember(ops, k, op);
    }
  }

  /** Under (E) everything pushed into a slot whose chain can be run fits. */
  lemma {:induction false} RunsFits(ops: seq<Op>, s: Slot)
    requires Runs(ops, s) && GoodValues(ops)
    ensures Fits(ops, s)
    decreases Height(ops)
  {
    SlotValue(ops);
    forall cs | IsPruned(cs, ops, s.changed) ensures Fit(s.value, cs, ops) {
      RunsFit(ops, s, cs);
    }
    if ops != [] {
      forall k ensures FitsBelow(s.changed, Sub(ops, k)) {
        SubHeight(ops, k);
        var folded := FoldDirect(Sub(ops, k));
        if folded.Some? && folded.value.changed >= s.changed && Start(folded.value).Some? {
          var c := Child(k, folded.value);
          LeafKeeps(ops, s, c);
          ChildRuns(ops, s, c);
          SubValues(ops, k);
          RunsFits(Sub(ops, k), folded.value);
        }
      }
    }
  }

  /** Under (E) every chain that can be run can be pushed. */
  lemma {:induction false} FoldablePushable(cur: Option<Value>, ops: seq<Op>)
    requires Foldable(ops) && GoodValues(ops) && SlotRun(cur, ops).Some?
    ensures Pushable(ops)
    decreases Height(ops)
  {
    FoldRun(cur, ops);
    if FoldDirect(ops).Some? {
      var s := FoldDirect(ops).value;
      if s.op.Some? {
        RunsFits(ops, s);
      }
    } else if ops != [] {
      DeepRunKeeps(cur, ops);
      Split(cur.value, ops);
      forall k ensures Pushable(Sub(ops, k)) {
        SubFoldable(ops, k);
        SubValues(ops, k);
        SubHeight(ops, k);
        FoldablePushable(Lookup(cur.value, k), Sub(ops, k));
      }
    }
  }

  /** A leaf has no child changed since it was set. */
  lemma LeafQuiet(ops: seq<Op>, s: Slot, cs: seq<Child>)
    requires Runs(ops, s) && s.value.Leaf? && IsPruned(cs, ops, s.changed)
    ensures cs == [] && After(s.changed, ops) == []
  {
    var later := After(s.changed, ops);
    DeepRunKeeps(Some(s.value), later);
    if cs != [] {
      LeafKeeps(ops, s, cs[0]);
    }
  }

  lemma LeafKeeps(ops: seq<Op>, s: Slot, c: Child)
    requires Runs(ops, s) && Folded(ops, c.key) == Some(c.slot) && c.slot.changed >= s.changed
    ensures s.value.Node?
  {
    DeepRunKeeps(Some(s.value), After(s.changed, ops));
    AllLater(ops, s, c.key, c.slot);
    SubIncreasing(ops, c.key);
    var a := ChangedBy(Sub(ops, c.key));
    SubMember(ops, c.key, a);
    AfterMember(s.changed, ops, Cons(c.key, a));
  }

  /** A kept child that ends up full can in turn be pushed into. */
  lemma ChildRuns(ops: seq<Op>, s: Slot, c: Child)
    requires Runs(ops, s) && s.value.Node?
    requires Folded(ops, c.key) == Some(c.slot) && c.slot.changed >= s.changed && Start(c.slot).Some?
    ensures Runs(Sub(ops, c.key), c.slot)
    ensures Height(Sub(ops, c.key)) < Height(ops)
  {
    var t, k := s.changed, c.key;
    SubFoldable(ops, k);
    SubHeight(ops, k);
    SubAfter(t, ops, k);
    AllLater(ops, s, k, c.slot);
    Split(s.value, After(t, ops));
    var cur := Lookup(s.value, k);
    LaterRun(cur, t, Sub(ops, k), c.slot, SlotRun(cur, After(t, Sub(ops, k))).value);
  }

  // ----- dfs_apply_ops

  /** The inputs both walks share: a slot table of a chain over its subtree. */
  ghost predicate Ready(slots: Slots, adj: Adj, ops: seq<Op>) {
    Covers(adj, ops) && SlotsOf(slots, adj, ops) && Increasing(ops)
  }

  lemma ChildSlot(slots: Slots, adj: Adj, ops: seq<Op>, u: Path, k: Key)
    requires Ready(slots, adj, ops) && u in adj
    ensures u + [k] in adj ==> slots[u + [k]] == Folded(Rel(ops, u), k)
    ensures Folded(Rel(ops, u), k).Some? ==> u + [k] in adj
    ensures u + [k] in adj ==> u + [k] in adj[u]
  {
    RelSnoc(ops, u, k);
    FoldAtRel(ops, u + [k]);
    assert Init(u + [k]) == u;
    assert u + [k] in adj ==> Linked(adj, u + [k]);
    if Folded(Rel(ops, u), k).Some? {
      var a := CreatedBy(Rel(ops, u + [k]));
      RelMember(ops, u + [k], a);
      assert u + [k] + a.path == u + [k];
    }
  }

  lemma CreatedApart(ops: seq<Op>, c: Child, d: Child)
    requires Increasing(ops) && Folded(ops, c.key) == Some(c.slot) && Folded(ops, d.key) == Some(d.slot)
    requires c.slot.created == d.slot.created
    ensures c == d
  {
    FoldedTimes(ops, c.key);
    FoldedTimes(ops, d.key);
    var a :| a in ops && a.path == [c.key] && a.at == c.slot.created;
    var b :| b in ops && b.path == [d.key] && b.at == d.slot.created;
    if a != b {
      DistinctTimes(ops, a, b);
    }
    assert a.path[0] == b.path[0];
  }

  /** The children in vs with a slot not older than t. */
  function Keep(vs: seq<Path>, t: nat, slots: Slots): seq<Child>
    requires forall i :: 0 <= i < |vs| ==> vs[i] in slots && vs[i] != []
  {
    if vs == [] then []
    else if slots[Last(vs)].Some? && slots[Last(vs)].value.changed >= t
    then Keep(Init(vs), t, slots) + [Child(Last(Last(vs)), slots[Last(vs)].value)]
    else Keep(Init(vs), t, slots)
  }

  lemma {:induction false} KeepMember(vs: seq<Path>, t: nat, slots: Slots, u: Path, c: Child)
    requires forall i :: 0 <= i < |vs| ==> vs[i] in slots && vs[i] != [] && Init(vs[i]) == u
    ensures c in Keep(vs, t, slots) <==>
            u + [c.key] in vs && slots[u + [c.key]] == Some(c.slot) && c.slot.changed >= t
  {
    if vs != [] {
      KeepMember(Init(vs), t, slots, u, c);
      var v := Last(vs);
      assert vs == Init(vs) + [v];
      assert v == u + [Last(v)];
      assert (u + [c.key])[|u|] == c.key;
    }
  }

  lemma {:induction false} KeepDistinct(vs: seq<Path>, t: nat, slots: Slots, u: Path)
    requires forall i :: 0 <= i < |vs| ==> vs[i] in slots && vs[i] != [] && Init(vs[i]) == u
    requires Distinct(vs)
    ensures Distinct(Keep(vs, t, slots))
  {
    if vs != [] {
      KeepDistinct(Init(vs), t, slots, u);
      var v := Last(vs);
      assert v == u + [Last(v)];
      assert v !in Init(vs);
      forall c | c in Keep(Init(vs), t, slots) ensures c.key != Last(v) {
        KeepMember(Init(vs), t, slots, u, c);
      }
    }
  }

  /** Sorting the kept children by creation time prunes. */
  lemma KeepPrunes(u: Path, t: nat, adj: Adj, slots: Slots, ops: seq<Op>, sorted: seq<Child>)
    requires Ready(slots, adj, ops) && u in adj
    requires forall i :: 0 <= i < |adj[u]| ==> adj[u][i] in slots && adj[u][i] != [] && Init(adj[u][i]) == u
    requires SortedBy(sorted, (c: Child) => c.slot.created)
    requires multiset(sorted) == multiset(Keep(adj[u], t, slots))
    ensures IsPruned(sorted, Rel(ops, u), t)
  {
    var kept, rel := Keep(adj[u], t, slots), Rel(ops, u);
    RelIncreasing(ops, u);
    SameElements(sorted, kept);
    assert Linked(adj, u);
    KeepDistinct(adj[u], t, slots, u);
    DistinctPermutation(kept, sorted);
    forall c ensures c in sorted <==> Folded(rel, c.key) == Some(c.slot) && c.slot.changed >= t {
      KeepMember(adj[u], t, slots, u, c);
      ChildSlot(slots, adj, ops, u, c.key);
    }
    forall i, j | 0 <= i < j < |sorted| && sorted[i].slot.created == sorted[j].slot.created
      ensures sorted[i] == sorted[j]
    {
      assert sorted[i] in sorted && sorted[j] in sorted;
      CreatedApart(rel, sorted[i], sorted[j]);
    }
    SortedStrict(sorted, (c: Child) => c.slot.created);
  }

  method KeepChildren(children: seq<Path>, t: nat, slots: Slots) returns (kept: seq<Child>)
    requires forall i :: 0 <= i < |children| ==> children[i] in slots && children[i] != []
    ensures kept == Keep(children, t, slots)
  {
    kept := [];
    for i := 0 to |children|
      invariant kept == Keep(children[..i], t, slots)
    {
      var v := children[i];
      assert Init(children[..i + 1]) == children[..i];
      if slots[v].Some? && slots[v].value.changed >= t {
        kept := kept + [Child(Last(v), slots[v].value)];
      }
    }
    assert children[..|children|] == children;
  }

  lemma ChildPaths(slots: Slots, adj: Adj, ops: seq<Op>, u: Path)
    requires Ready(slots, adj, ops) && u in adj
    ensures forall i :: 0 <= i < |adj[u]| ==> adj[u][i] in slots && adj[u][i] != [] && Init(adj[u][i]) == u
  {
    assert Linked(adj, u);
  }

  /** The first half of `dfs_apply_ops`: keep the children changed since t, by creation time. */
  method Prune(u: Path, t: nat, adj: Adj, slots: Slots, ghost ops: seq<Op>) returns (cs: seq<Child>)
    requires Ready(slots, adj, ops) && u in adj
    ensures IsPruned(cs, Rel(ops, u), t)
  {
    ChildPaths(slots, adj, ops, u);
    var kept := KeepChildren(adj[u], t, slots);
    cs := SortBy(kept, (c: Child) => c.slot.created);
    KeepPrunes(u, t, adj, slots, ops, cs);
  }

  /** Applying the raw value and then replacing it by the pushed one is one step. */
  lemma RawStep(op: Op, raw: Value, cur: Value)
    requires |op.path| == 1 && SlotStep(op, Some(cur)).Some?
    ensures var k := op.path[0]; var r := ApplyAt(op.kind, raw, cur, k);
            && r.Some? && r.value.Node?
            && (op.kind.Remove? ==> SlotStep(op, Some(cur)) == Some(r))
            && (!op.kind.Remove? ==>
                  && k in r.value.kids && r.value.kids[k] == raw
                  && SlotStep(op, Some(cur)) == Some(Some(Node(r.value.kind, r.value.kids[k := op.value]))))
  {
    var k := op.path[0];
    StepShape(op, cur);
    assert Tail(op).path == [];
    assert SlotStep(Tail(op), Lookup(cur, k)) == SlotApply(op.kind, op.value, Lookup(cur, k));
    if op.kind.Remove? {
      assert Assign(cur.kids, k, None) == cur.kids - {k};
    } else {
      assert Assign(cur.kids, k, Some(op.value)) == cur.kids[k := op.value];
      assert ApplyAt(op.kind, raw, cur, k) == Some(Node(cur.kind, cur.kids[k := raw]));
      assert cur.kids[k := raw][k := op.value] == cur.kids[k := op.value];
    }
  }

  /** The step from i to i + 1 kept children. */
  lemma OutsStep(value: Value, cs: seq<Child>, ops: seq<Op>, i: nat, out: Value)
    requires i < |cs| && SlotRun(Some(value), Outs(cs, ops, value)).Some?
    requires SlotRun(Some(value), Outs(cs[..i], ops, value)) == Some(Some(out))
    ensures cs[i].slot.op.None? ==> SlotRun(Some(value), Outs(cs[..i + 1], ops, value)) == Some(Some(out))
    ensures cs[i].slot.op.Some? ==>
              && SlotStep(OutOp(cs[i], ops, value), Some(out)).Some?
              && SlotRun(Some(value), Outs(cs[..i + 1], ops, value)) == SlotStep(OutOp(cs[i], ops, value), Some(out))
              && out.Node? && value.Node? && out.kind == value.kind
  {
    OutsNext(cs, ops, value, i);
    RunsUpTo(value, cs, ops, i + 1);
    OutsHeads(cs[..i], ops, value);
    DeepRunKeeps(Some(value), Outs(cs[..i], ops, value));
    if cs[i].slot.op.Some? {
      RunSnoc(Some(value), Outs(cs[..i], ops, value), OutOp(cs[i], ops, value));
      assert SlotStep(OutOp(cs[i], ops, value), Some(out)).Some?;
      OutsHeads(cs[..i + 1], ops, value);
      DeepRunKeeps(Some(value), Outs(cs[..i + 1], ops, value));
    }
  }

  lemma OutsNext(cs: seq<Child>, ops: seq<Op>, v: Value, i: nat)
    requires i < |cs|
    ensures Outs(cs[..i + 1], ops, v) ==
            if cs[i].slot.op.None? then Outs(cs[..i], ops, v) else Outs(cs[..i], ops, v) + [OutOp(cs[i], ops, v)]
  {
    assert Init(cs[..i + 1]) == cs[..i] && Last(cs[..i + 1]) == cs[i];
  }

  lemma RunsUpTo(value: Value, cs: seq<Child>, ops: seq<Op>, i: nat)
    requires i <= |cs| && SlotRun(Some(value), Outs(cs, ops, value)).Some?
    ensures SlotRun(Some(value), Outs(cs[..i], ops, value)).Some?
  {
    OutsPrefix(cs, ops, value, i);
    var n := |Outs(cs[..i], ops, value)|;
    assert Outs(cs, ops, value)[..n] == Outs(cs[..i], ops, value);
    RunPrefix(Some(value), Outs(cs, ops, value), n);
  }

  /** The operation as it was folded does what it amounts to. */
  lemma FoldedApplies(cs: seq<Child>, ops: seq<Op>, v: Value, c: Child, raw: Value, out: Value)
    requires Fit(v, cs, ops) && c in cs && c.slot.op.Some?
    requires v.Node? && out.Node? && out.kind == v.kind
    ensures ApplyAt(c.slot.op.value, raw, out, c.key) == ApplyAt(Effect(c, v), raw, out, c.key)
    ensures c.slot.op.value.Remove? <==> Effect(c, v).Remove?
    ensures Placed(c.slot.op.value, out, c.key) == Placed(Effect(c, v), out, c.key)
  {
  }

  lemma NoChildren(slots: Slots, adj: Adj, ops: seq<Op>, u: Path, s: Slot)
    requires Ready(slots, adj, ops) && u in adj && adj[u] == [] && s.value.Node?
    ensures DfsNode(s.value, s.changed, Rel(ops, u)) == s.value && !Misfit(s.value, s.changed, Rel(ops, u))
  {
    var rel := Rel(ops, u);
    forall k ensures Folded(rel, k).None? {
      ChildSlot(slots, adj, ops, u, k);
    }
    var r := DfsNode(s.value, s.changed, rel);
    forall k ensures Lookup(r, k) == Lookup(s.value, k) {
      DfsLookup(s.value, s.changed, rel, k);
      ChildSlot(slots, adj, ops, u, k);
    }
    DfsLookup(s.value, s.changed, rel, IntKey(0));
    NodeExt(r, s.value);
  }

  /** Where `apply_operation` puts a value: a list grows at its end, whatever the position. */
  function Placed(kind: OpKind, container: Value, pos: Key): Key {
    if container.Node? && container.kind.List? && kind.Add? then IntKey(|container.kids.Keys|) else pos
  }

  lemma PlacedAt(kind: OpKind, value: Value, container: Value, pos: Key)
    requires !kind.Remove? && ApplyAt(kind, value, container, pos).Some?
    ensures var r, k := ApplyAt(kind, value, container, pos).value, Placed(kind, container, pos);
            r.Node? && k in r.kids && r.kids[k] == value
  {
  }

  /** A kept operation goes where its path says. */
  lemma PlacedFits(op: Op, cur: Value)
    requires |op.path| == 1 && SlotStep(op, Some(cur)).Some?
    ensures Placed(op.kind, cur, op.path[0]) == op.path[0]
  {
  }

  lemma ChildHeight(slots: Slots, adj: Adj, ops: seq<Op>, u: Path, k: Key)
    requires Ready(slots, adj, ops) && u in adj && slots[u].Some?
    ensures Rel(ops, u + [k]) == Sub(Rel(ops, u), k) && Height(Rel(ops, u + [k])) < Height(Rel(ops, u))
  {
    RelSnoc(ops, u, k);
    FoldAtRel(ops, u);
    SubHeight(Rel(ops, u), k);
  }

  /** `dfs_apply_ops`.  Applying a child's folded operation may raise, or hit another list
      element than meant.  Where every kept operation fits the value it is pushed into, it does
      neither: the returned value is the push. */
  method DfsApplyOps(u: Path, adj: Adj, value: Value, slots: Slots, ghost ops: seq<Op>) returns (out: Option<Value>)
    requires Ready(slots, adj, ops) && u in adj
    requires slots[u].Some? && value == slots[u].value.value
    ensures Fits(Rel(ops, u), slots[u].value) ==> out == Some(DfsNode(value, slots[u].value.changed, Rel(ops, u)))
    ensures Fits(Rel(ops, u), slots[u].value) && GoodValues(ops) ==> WellFormed(out.value)
    ensures Misfit(value, slots[u].value.changed, Rel(ops, u)) ==> out.None?
    decreases Height(Rel(ops, u)), 2
  {
    ghost var rel := Rel(ops, u);
    var s := slots[u].value;
    FoldAtRel(ops, u);
    if GoodValues(ops) {
      RelValues(ops, u);
      SlotValue(rel);
    }
    if adj[u] == [] || value == NONE {
      if adj[u] == [] && value.Node? {
        NoChildren(slots, adj, ops, u, s);
      }
      return Some(value);
    }
    var cs := Prune(u, s.changed, adj, slots, ops);
    if Fits(rel, s) {
      OutsRun(value, s.changed, rel, cs);
    }
    out := ApplyChildren(u, adj, value, slots, cs, s, ops);
    if out.Some? && value.Node? && value.kind.Dict? {
      NoMisfit(value, s.changed, rel, cs);
    }
  }

  /** The loop over the kept children. */
  method ApplyChildren(u: Path, adj: Adj, value: Value, slots: Slots, cs: seq<Child>, ghost s: Slot,
                       ghost ops: seq<Op>) returns (out: Option<Value>)
    requires Ready(slots, adj, ops) && u in adj && slots[u] == Some(s) && value == s.value
    requires IsPruned(cs, Rel(ops, u), s.changed)
    ensures Fits(Rel(ops, u), s) ==> out.Some? && SlotRun(Some(value), Outs(cs, Rel(ops, u), value)) == Some(out)
    ensures Fits(Rel(ops, u), s) && GoodValues(ops) && WellFormed(value) ==> WellFormed(out.value)
    ensures out.Some? && value.Node? && value.kind.Dict? ==>
              forall j :: 0 <= j < |cs| && cs[j].slot.op == Some(Remove) ==> Lookup(value, cs[j].key).Some?
    decreases Height(Rel(ops, u)), 1
  {
    ghost var rel, dict := Rel(ops, u), value.Node? && value.kind.Dict?;
    ghost var fits := Fits(rel, s);
    PrunedKeys(rel, cs, s.changed);
    var cur := value;
    for i := 0 to |cs|
      invariant fits ==> SlotRun(Some(value), Outs(cs[..i], rel, value)) == Some(Some(cur))
      invariant fits && GoodValues(ops) && WellFormed(value) ==> WellFormed(cur)
      invariant dict ==> DictLoop(value, cur, cs, i)
    {
      if fits {
        assert Fit(value, cs, rel);
        OutsStep(value, cs, rel, i, cur);
      }
      if cs[i].slot.op.Some? {
        var next := ApplyChild(u, adj, cur, slots, cs[i], cs, s, ops);
        if next.None? {
          return None;
        }
        if dict {
          DictNext(value, cur, next.value, cs, i);
        }
        cur := next.value;
      }
    }
    assert cs[..|cs|] == cs;
    return Some(cur);
  }

  /** One kept child: apply its folded operation and push into what it put there. */
  method ApplyChild(u: Path, adj: Adj, cur: Value, slots: Slots, c: Child, ghost cs: seq<Child>, ghost s: Slot,
                    ghost ops: seq<Op>) returns (r: Option<Value>)
    requires Ready(slots, adj, ops) && u in adj && slots[u] == Some(s) && c in cs && c.slot.op.Some?
    requires IsPruned(cs, Rel(ops, u), s.changed)
    ensures var rel := Rel(ops, u);
            Fits(rel, s) && Steps(OutOp(c, rel, s.value), cur, s.value) ==>
              && r.Some? && SlotStep(OutOp(c, rel, s.value), Some(cur)) == Some(r)
              && (GoodValues(ops) && WellFormed(cur) ==> WellFormed(r.value))
    ensures cur.Node? && cur.kind.Dict? ==>
              && (c.slot.op == Some(Remove) && c.key !in cur.kids ==> r.None?)
              && (r.Some? ==> DictBut(cur, r.value, c.key))
    decreases Height(Rel(ops, u)), 0
  {
    ghost var rel := Rel(ops, u);
    ghost var steps := Fits(rel, s) && Steps(OutOp(c, rel, s.value), cur, s.value);
    var next := ApplyAt(c.slot.op.value, c.slot.value, cur, c.key);
    if steps {
      FoldedApplies(cs, rel, s.value, c, c.slot.value, cur);
      RawStep(OutOp(c, rel, s.value), c.slot.value, cur);
    }
    if next.None? {
      return None;
    }
    if c.slot.op.value.Remove? {
      if steps && WellFormed(cur) {
        RemoveWellFormed(OutOp(c, rel, s.value), cur);
      }
      return next;
    }
    var at := Placed(c.slot.op.value, cur, c.key);
    PlacedAt(c.slot.op.value, c.slot.value, cur, c.key);
    KeptChild(slots, adj, ops, u, s, cs, c);
    var child := DfsApplyOps(u + [c.key], adj, next.value.kids[at], slots, ops);
    if child.None? {
      return None;
    }
    if steps {
      PlacedFits(OutOp(c, rel, s.value), cur);
      if GoodValues(ops) && WellFormed(cur) {
        StepWellFormed(OutOp(c, rel, s.value), Some(cur));
      }
    }
    r := Some(Node(next.value.kind, next.value.kids[at := child.value]));
  }

  /** Both are dicts with the same keys but for k. */
  ghost predicate DictBut(v: Value, w: Value, k: Key)
    requires v.Node?
  {
    w.Node? && w.kind.Dict? && forall j :: j != k ==> (j in w.kids <==> j in v.kids)
  }

  lemma DictNext(v: Value, cur: Value, next: Value, cs: seq<Child>, i: nat)
    requires i < |cs| && DictLoop(v, cur, cs, i) && DictBut(cur, next, cs[i].key)
    requires cs[i].slot.op == Some(Remove) ==> cs[i].key in cur.kids
    requires forall a, b :: 0 <= a < b < |cs| ==> cs[a].key != cs[b].key
    ensures DictLoop(v, next, cs, i + 1)
  {
  }

  /** The operation can be carried out on the container, which is of the kind of v. */
  ghost predicate Steps(op: Op, cur: Value, v: Value) {
    cur.Node? && v.Node? && cur.kind == v.kind && SlotStep(op, Some(cur)).Some?
  }

  /** The children from i on find their entries as they were, and those before found theirs. */
  ghost predicate DictLoop(v: Value, cur: Value, cs: seq<Child>, i: nat) {
    && cur.Node? && cur.kind.Dict?
    && (forall j :: i <= j < |cs| ==> (cs[j].key in cur.kids <==> Lookup(v, cs[j].key).Some?))
    && (forall j :: 0 <= j < i && j < |cs| && cs[j].slot.op == Some(Remove) ==> Lookup(v, cs[j].key).Some?)
  }

  lemma NoMisfit(v: Value, t: nat, ops: seq<Op>, cs: seq<Child>)
    requires IsPruned(cs, ops, t)
    requires forall j :: 0 <= j < |cs| && cs[j].slot.op == Some(Remove) ==> Lookup(v, cs[j].key).Some?
    ensures !Misfit(v, t, ops)
  {
    forall k ensures !MisfitAt(v, t, ops, k) {
      if Folded(ops, k).Some? && Folded(ops, k).value.changed >= t {
        assert Child(k, Folded(ops, k).value) in cs;
      }
    }
  }

  /** A kept child that ends up full is the next to be pushed into. */
  lemma KeptChild(slots: Slots, adj: Adj, ops: seq<Op>, u: Path, s: Slot, cs: seq<Child>, c: Child)
    requires Ready(slots, adj, ops) && u in adj && slots[u] == Some(s)
    requires IsPruned(cs, Rel(ops, u), s.changed) && c in cs && Start(c.slot).Some?
    ensures u + [c.key] in adj && slots[u + [c.key]] == Some(c.slot)
    ensures Rel(ops, u + [c.key]) == Sub(Rel(ops, u), c.key)
    ensures Height(Rel(ops, u + [c.key])) < Height(Rel(ops, u))
    ensures Fits(Rel(ops, u), s) ==> Fits(Rel(ops, u + [c.key]), c.slot)
  {
    ChildSlot(slots, adj, ops, u, c.key);
    ChildHeight(slots, adj, ops, u, c.key);
    if Fits(Rel(ops, u), s) {
      assert FitsBelow(s.changed, Sub(Rel(ops, u), c.key));
    }
  }

  lemma RemoveWellFormed(op: Op, cur: Value)
    requires |op.path| == 1 && op.kind.Remove? && WellFormed(cur) && SlotStep(op, Some(cur)).Some?
    ensures SlotStep(op, Some(cur)).value.Some? && WellFormed(SlotStep(op, Some(cur)).value.value)
  {
    var bare := op.(value := NONE);
    assert SlotStep(Tail(bare), Lookup(cur, op.path[0])) == SlotStep(Tail(op), Lookup(cur, op.path[0]));
    assert SlotStep(bare, Some(cur)) == SlotStep(op, Some(cur));
    StepWellFormed(bare, Some(cur));
    StepShape(op, cur);
  }

  // ----- collapse_op_tree

  /** No path strictly above u has a slot. */
  ghost predicate Open(ops: seq<Op>, u: Path) {
    forall n :: 0 <= n < |u| ==> FoldAt(ops, u[..n]).None?
  }

  lemma OpenSub(ops: seq<Op>, u: Path)
    requires u != [] && Open(ops, u)
    ensures FoldDirect(ops).None? && Open(Sub(ops, u[0]), u[1..])
  {
    FoldAtRoot(ops);
    assert u[..0] == [];
    forall n | 0 <= n < |u[1..]| ensures FoldAt(Sub(ops, u[0]), u[1..][..n]).None? {
      FoldAtSub(ops, u[0], u[1..][..n]);
      assert [u[0]] + u[1..][..n] == u[..n + 1];
    }
  }

  /** A chain of deep operations runs on each position alone. */
  lemma OpenStep(cur: Option<Value>, ops: seq<Op>, k: Key)
    requires SlotRun(cur, ops).Some? && AllDeep(ops)
    ensures SlotRun(HeldUnder(cur, k), Sub(ops, k)) == Some(HeldUnder(SlotRun(cur, ops).value, k))
  {
    if ops == [] {
      assert Sub(ops, k) == [];
    } else {
      DeepRunKeeps(cur, ops);
      Split(cur.value, ops);
    }
  }

  /** Below an open path the chain runs on that position alone. */
  lemma {:induction false} OpenRun(cur: Option<Value>, ops: seq<Op>, u: Path)
    requires SlotRun(cur, ops).Some? && Open(ops, u)
    ensures SlotRun(GetAt(cur, u), Rel(ops, u)) == Some(GetAt(SlotRun(cur, ops).value, u))
    decreases |u|
  {
    if u != [] {
      OpenSub(ops, u);
      FoldNone(ops);
      OpenStep(cur, ops, u[0]);
      OpenRun(HeldUnder(cur, u[0]), Sub(ops, u[0]), u[1..]);
    }
  }

  /** In a chain that can be pushed every topmost slot fits. */
  lemma {:induction false} PushableAt(ops: seq<Op>, u: Path, s: Slot)
    requires Pushable(ops) && Open(ops, u) && FoldAt(ops, u) == Some(s) && s.op.Some?
    ensures Fits(Rel(ops, u), s)
    decreases |u|
  {
    FoldAtRoot(ops);
    if u != [] {
      OpenSub(ops, u);
      FoldAtSub(ops, u[0], u[1..]);
      assert u == [u[0]] + u[1..];
      if ops != [] {
        SubHeight(ops, u[0]);
      }
      PushableAt(Sub(ops, u[0]), u[1..], s);
    }
  }

  /** Membership in the collapse, by absolute path. */
  lemma {:induction false} InCollapseAt(ops: seq<Op>, e: Op)
    ensures InCollapse(ops, e) <==>
            var s := FoldAt(ops, e.path);
            && Open(ops, e.path) && s.Some? && s.value.op == Some(e.kind) && e.at == s.value.created
            && e.value == DfsNode(s.value.value, s.value.changed, Rel(ops, e.path))
    decreases |e.path|
  {
    FoldAtRoot(ops);
    if e.path != [] {
      var k, p := e.path[0], e.path[1..];
      assert e.path == [k] + p;
      FoldAtSub(ops, k, p);
      InCollapseAt(Sub(ops, k), Tail(e));
      assert e.path[..0] == [];
      if FoldDirect(ops).None? {
        OpenUp(ops, k, p);
      }
      if Open(ops, e.path) {
        OpenSub(ops, e.path);
      }
    }
  }

  lemma OpenUp(ops: seq<Op>, k: Key, p: Path)
    requires FoldDirect(ops).None?
    ensures Open(Sub(ops, k), p) ==> Open(ops, [k] + p)
  {
    FoldAtRoot(ops);
    forall n | 0 < n < |p| + 1 ensures FoldAt(ops, ([k] + p)[..n]) == FoldAt(Sub(ops, k), p[..n - 1]) {
      FoldAtSub(ops, k, p[..n - 1]);
      assert ([k] + p)[..n] == [k] + p[..n - 1];
    }
    assert ([k] + p)[..0] == [];
  }

  lemma OpenChild(ops: seq<Op>, p: Path)
    requires p != [] && Open(ops, Init(p)) && FoldAt(ops, Init(p)).None?
    ensures Open(ops, p)
  {
    forall n | 0 <= n < |p| ensures FoldAt(ops, p[..n]).None? {
      if n < |p| - 1 {
        assert p[..n] == Init(p)[..n];
      }
    }
  }

  lemma OpenInit(ops: seq<Op>, p: Path)
    requires p != [] && Open(ops, p)
    ensures Open(ops, Init(p)) && FoldAt(ops, Init(p)).None?
  {
    assert p[..|p| - 1] == Init(p);
    forall n | 0 <= n < |Init(p)| ensures FoldAt(ops, Init(p)[..n]).None? {
      assert Init(p)[..n] == p[..n];
    }
  }

  /** A slot's path is the path of one of the operations, at the slot's creation time. */
  lemma CollapseTime(ops: seq<Op>, e: Op)
    requires InCollapse(ops, e)
    ensures exists op :: op in ops && op.path == e.path && op.at == e.at
  {
    InCollapseAt(ops, e);
    FoldAtRel(ops, e.path);
    var a := CreatedBy(Rel(ops, e.path));
    RelMember(ops, e.path, a);
    assert e.path + a.path == e.path;
  }

  lemma CollapseApart(ops: seq<Op>, d: Op, e: Op)
    requires Increasing(ops) && InCollapse(ops, d) && InCollapse(ops, e) && d.at == e.at
    ensures d == e
  {
    CollapseTime(ops, d);
    CollapseTime(ops, e);
    var a :| a in ops && a.path == d.path && a.at == d.at;
    var b :| b in ops && b.path == e.path && b.at == e.at;
    if a != b {
      DistinctTimes(ops, a, b);
    }
    InCollapseAt(ops, d);
    InCollapseAt(ops, e);
  }

  /** The state of the breadth-first walk: the nodes visited are open, and their children are
      visited or queued unless they carry a slot. */
  ghost predicate Walking(adj: Adj, ops: seq<Op>, seen: set<Path>, q: seq<Path>) {
    && seen <= adj.Keys
    && ([] in seen || [] in q)
    && (forall p :: p in q ==> p in adj && p !in seen && Open(ops, p))
    && (forall p :: p in seen || p in q ==> p == [] || Init(p) in seen)
    && (forall p :: p in adj && p != [] && Init(p) in seen && FoldAt(ops, Init(p)).None? ==> p in seen || p in q)
    && Distinct(q)
  }

  /** What was put out is the part of the collapse at the visited nodes. */
  ghost predicate Emitted(ops: seq<Op>, seen: set<Path>, out: seq<Op>) {
    && (forall e :: e in out <==> e.path in seen && InCollapse(ops, e)) && Distinct(out)
    && (GoodValues(ops) ==> GoodValues(out))
  }

  lemma WalkCovers(adj: Adj, ops: seq<Op>, seen: set<Path>, p: Path)
    requires IsTree(adj) && Walking(adj, ops, seen, []) && p in adj && Open(ops, p)
    ensures p in seen
    decreases |p|
  {
    if p != [] {
      assert Linked(adj, p);
      OpenInit(ops, p);
      WalkCovers(adj, ops, seen, Init(p));
    }
  }

  lemma WalkSkip(adj: Adj, ops: seq<Op>, seen: set<Path>, q: seq<Path>)
    requires IsTree(adj) && q != [] && Walking(adj, ops, seen, q)
    requires FoldAt(ops, q[0]).None?
    ensures Walking(adj, ops, seen + {q[0]}, q[1..] + adj[q[0]])
  {
    var u := q[0];
    var seen', q' := seen + {u}, q[1..] + adj[u];
    assert Linked(adj, u);
    assert forall p :: p in q <==> p == u || p in q[1..];
    assert forall p :: p in q' <==> p in q[1..] || p in adj[u];
    forall p | p in adj[u] ensures p in adj && p !in seen' && p !in q[1..] && Open(ops, p) && Init(p) in seen' {
      OpenChild(ops, p);
      assert |p| > |u|;
    }
    forall p | p in adj && p != [] && Init(p) in seen' && FoldAt(ops, Init(p)).None?
      ensures p in seen' || p in q'
    {
      assert Linked(adj, p);
    }
    DistinctAppend(q[1..], adj[u]);
  }

  lemma WalkStop(adj: Adj, ops: seq<Op>, seen: set<Path>, q: seq<Path>)
    requires IsTree(adj) && q != [] && Walking(adj, ops, seen, q) && FoldAt(ops, q[0]).Some?
    ensures Walking(adj, ops, seen + {q[0]}, q[1..])
  {
    var u, seen' := q[0], seen + {q[0]};
    assert u in q && u !in q[1..];
    assert forall p :: p in q <==> p == u || p in q[1..];
    forall p | p in adj && p != [] && Init(p) in seen' && FoldAt(ops, Init(p)).None?
      ensures p in seen' || p in q[1..]
    {
      assert Init(p) in seen;
    }
  }

  lemma EmitNone(ops: seq<Op>, seen: set<Path>, u: Path, out: seq<Op>)
    requires Emitted(ops, seen, out) && (FoldAt(ops, u).None? || FoldAt(ops, u).value.op.None?)
    ensures Emitted(ops, seen + {u}, out)
  {
    forall e ensures e in out <==> e.path in seen + {u} && InCollapse(ops, e) {
      InCollapseAt(ops, e);
    }
  }

  lemma EmitOne(ops: seq<Op>, seen: set<Path>, u: Path, out: seq<Op>, s: Slot, value: Value)
    requires Emitted(ops, seen, out) && u !in seen && Open(ops, u) && FoldAt(ops, u) == Some(s) && s.op.Some?
    requires value == DfsNode(s.value, s.changed, Rel(ops, u)) && (GoodValues(ops) ==> WellFormed(value))
    ensures Emitted(ops, seen + {u}, out + [Op(s.created, s.op.value, u, value)])
  {
    var out' := out + [Op(s.created, s.op.value, u, value)];
    forall e ensures e in out' <==> e.path in seen + {u} && InCollapse(ops, e) {
      InCollapseAt(ops, e);
    }
    assert Last(out') !in out;
  }

  /** `collapse_op_tree`.  Where it does not raise, every operation it returns addresses a path
      of the chain.  On a chain that can be pushed it returns the collapse of the chain in order
      of creation time, and raises exactly when nothing survives. */
  method CollapseOpTree(slots: Slots, adj: Adj, ghost ops: seq<Op>) returns (r: Option<seq<Op>>)
    requires Ready(slots, adj, ops)
    ensures r.Some? ==> r.value != [] && forall e :: e in r.value ==> Touched(ops, e.path)
    ensures Pushable(ops) && r.Some? ==> IsCollapse(ops, r.value) && (GoodValues(ops) ==> GoodValues(r.value))
    ensures Pushable(ops) && r.None? ==> IsCollapse(ops, [])
    ensures forall u :: MisfitTop(ops, u) ==> r.None?
  {
    var q: seq<Path> := [[]];
    var out: seq<Op> := [];
    ghost var seen: set<Path> := {};
    while q != []
      invariant Walking(adj, ops, seen, q) && (Pushable(ops) ==> Emitted(ops, seen, out))
      invariant forall e :: e in out ==> Touched(ops, e.path)
      invariant forall u :: u in seen ==> !MisfitTop(ops, u)
      decreases adj.Keys - seen
    {
      var u := q[0];
      assert u in q;
      if slots[u].None? {
        WalkSkip(adj, ops, seen, q);
        if Pushable(ops) {
          EmitNone(ops, seen, u, out);
        }
        q := q[1..] + adj[u];
      } else {
        WalkStop(adj, ops, seen, q);
        var raised;
        raised, out := Emit(u, slots, adj, out, ops, seen);
        if raised {
          return None;
        }
        q := q[1..];
      }
      seen := seen + {u};
    }
    forall u | MisfitTop(ops, u) ensures false {
      SlotTouched(ops, u);
      WalkCovers(adj, ops, seen, u);
    }
    var sorted := SortBy(out, (e: Op) => e.at);
    SameElements(out, sorted);
    if Pushable(ops) {
      CollapseDone(adj, ops, seen, out);
      CollapseSorted(ops, out, sorted);
    }
    if sorted == [] {
      r := None;
    } else {
      r := Some(sorted);
    }
  }

  /** The topmost slot at u is asked to remove an entry its dict does not have. */
  ghost predicate MisfitTop(ops: seq<Op>, u: Path) {
    && Open(ops, u) && FoldAt(ops, u).Some? && FoldAt(ops, u).value.op.Some?
    && Misfit(FoldAt(ops, u).value.value, FoldAt(ops, u).value.changed, Rel(ops, u))
  }

  /** The operation of a node with a slot, if the slot has one. */
  method Emit(u: Path, slots: Slots, adj: Adj, out: seq<Op>, ghost ops: seq<Op>, ghost seen: set<Path>)
    returns (raised: bool, out': seq<Op>)
    requires Ready(slots, adj, ops)
    requires u in adj && u !in seen && Open(ops, u) && slots[u].Some?
    requires (Pushable(ops) ==> Emitted(ops, seen, out)) && forall e :: e in out ==> Touched(ops, e.path)
    ensures forall e :: e in out' ==> Touched(ops, e.path)
    ensures Pushable(ops) ==> !raised && Emitted(ops, seen + {u}, out')
    ensures MisfitTop(ops, u) ==> raised
  {
    var s := slots[u].value;
    if s.op.None? {
      if Pushable(ops) {
        EmitNone(ops, seen, u, out);
      }
      return false, out;
    }
    if Pushable(ops) {
      PushableAt(ops, u, s);
    }
    var value := DfsApplyOps(u, adj, s.value, slots, ops);
    if value.None? {
      return true, out;
    }
    SlotTouched(ops, u);
    out' := out + [Op(s.created, s.op.value, u, value.value)];
    if Pushable(ops) {
      EmitOne(ops, seen, u, out, s, value.value);
    }
    return false, out';
  }

  /** A slot comes from an operation on its path. */
  lemma SlotTouched(ops: seq<Op>, u: Path)
    requires FoldAt(ops, u).Some?
    ensures Touched(ops, u)
  {
    FoldAtRel(ops, u);
    var a := CreatedBy(Rel(ops, u));
    RelMember(ops, u, a);
    assert u + a.path == u;
  }

  lemma CollapseDone(adj: Adj, ops: seq<Op>, seen: set<Path>, out: seq<Op>)
    requires Covers(adj, ops) && Walking(adj, ops, seen, []) && Emitted(ops, seen, out)
    ensures forall e :: e in out <==> InCollapse(ops, e)
  {
    forall e | InCollapse(ops, e) ensures e.path in seen {
      CollapseTime(ops, e);
      InCollapseAt(ops, e);
      WalkCovers(adj, ops, seen, e.path);
    }
  }

  lemma CollapseSorted(ops: seq<Op>, out: seq<Op>, sorted: seq<Op>)
    requires Increasing(ops) && Distinct(out)
    requires forall e :: e in out <==> InCollapse(ops, e)
    requires multiset(sorted) == multiset(out) && SortedBy(sorted, (e: Op) => e.at)
    ensures IsCollapse(ops, sorted)
  {
    SameElements(out, sorted);
    DistinctPermutation(out, sorted);
    forall i, j | 0 <= i < j < |sorted| && sorted[i].at == sorted[j].at ensures sorted[i] == sorted[j] {
      assert sorted[i] in out && sorted[j] in out;
      CollapseApart(ops, sorted[i], sorted[j]);
    }
    SortedStrict(sorted, (e: Op) => e.at);
  }
}
