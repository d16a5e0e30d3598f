/** Merging a chain of patches into one long patch preserves its meaning.

    The chain is a sequence of operations with increasing times.  Its collapse keeps, for
    every path that has a slot and no slot above it, one operation whose value has the
    later changes below it folded in (`DfsNode`), ordered by creation time.  The collapsed
    patch means the same as the chain whenever the chain meets two conditions on its times
    and paths (`CondE`, `CondC`); `LongPatchLimits` shows what happens
    without them. */
module LongPatch {
  import opened Values
  import opened OpFold

  predicate StrictPrefix(p: Path, q: Path) {
    |p| < |q| && q[..|p|] == p
  }

  /** b is an operation on an ancestor path between two operations on one path. */
  ghost predicate Sandwich(ops: seq<Op>, a: Op, b: Op, c: Op) {
    && a in ops && b in ops && c in ops
    && a.path == c.path && StrictPrefix(b.path, a.path)
    && a.at < b.at < c.at
  }

  /** (E) No operation on an ancestor path falls between two operations on one path. */
  ghost predicate CondE(ops: seq<Op>) {
    forall a, b, c :: !Sandwich(ops, a, b, c)
  }

  ghost predicate LastOnPath(ops: seq<Op>, a: Op) {
    a in ops && forall b :: b in ops && b.path == a.path ==> b.at <= a.at
  }

  /** Some operation addresses p itself. */
  ghost predicate Touched(ops: seq<Op>, p: Path) {
    exists op :: op in ops && op.path == p
  }

  ghost predicate TouchedAfter(ops: seq<Op>, p: Path, t: nat) {
    exists c :: c in ops && c.path == p && c.at > t
  }

  /** b changes a path after a, the last operation on an ancestor, but the path of length n
      between the two is not changed after a. */
  ghost predicate Gap(ops: seq<Op>, a: Op, b: Op, n: nat) {
    && LastOnPath(ops, a) && b in ops
    && StrictPrefix(a.path, b.path) && a.at < b.at
    && |a.path| < n < |b.path|
    && !TouchedAfter(ops, b.path[..n], a.at)
  }

  /** (C) If a path is changed after the last operation on an ancestor, every path strictly
      between the two is changed after that operation as well. */
  ghost predicate CondC(ops: seq<Op>) {
    forall a, b, n: nat :: !Gap(ops, a, b, n)
  }

  lemma ConsPrefix(k: Key, p: Path, q: Path)
    ensures StrictPrefix([k] + p, [k] + q) <==> StrictPrefix(p, q)
  {
    if |p| < |q| {
      assert ([k] + q)[..|p| + 1] == [k] + q[..|p|];
      assert ([k] + q)[..|p| + 1][1..] == q[..|p|];
      assert ([k] + p)[1..] == p;
    }
  }

  lemma SubCondE(ops: seq<Op>, k: Key)
    requires CondE(ops)
    ensures CondE(Sub(ops, k))
  {
    forall a, b, c ensures !Sandwich(Sub(ops, k), a, b, c) {
      SubMember(ops, k, a);
      SubMember(ops, k, b);
      SubMember(ops, k, c);
      ConsPrefix(k, b.path, a.path);
      assert !Sandwich(ops, Cons(k, a), Cons(k, b), Cons(k, c));
    }
  }

  lemma SubLast(ops: seq<Op>, k: Key, a: Op)
    requires LastOnPath(Sub(ops, k), a)
    ensures LastOnPath(ops, Cons(k, a))
  {
    SubMember(ops, k, a);
    forall b | b in ops && b.path == Cons(k, a).path ensures b.at <= a.at {
      assert b == Cons(k, Tail(b));
      SubMember(ops, k, Tail(b));
      assert Tail(b).path == a.path;
    }
  }

  lemma SubTouched(ops: seq<Op>, k: Key, p: Path, t: nat)
    ensures TouchedAfter(ops, [k] + p, t) <==> TouchedAfter(Sub(ops, k), p, t)
  {
    if TouchedAfter(ops, [k] + p, t) {
      var c :| c in ops && c.path == [k] + p && c.at > t;
      assert c == Cons(k, Tail(c));
      SubMember(ops, k, Tail(c));
      assert Tail(c).path == p;
    }
    if TouchedAfter(Sub(ops, k), p, t) {
      var c :| c in Sub(ops, k) && c.path == p && c.at > t;
      SubMember(ops, k, c);
      assert Cons(k, c).path == [k] + p;
    }
  }

  lemma SubCondC(ops: seq<Op>, k: Key)
    requires CondC(ops)
    ensures CondC(Sub(ops, k))
  {
    forall a, b, n: nat ensures !Gap(Sub(ops, k), a, b, n) {
      if Gap(Sub(ops, k), a, b, n) {
        SubLast(ops, k, a);
        SubMember(ops, k, b);
        ConsPrefix(k, a.path, b.path);
        assert Cons(k, b).path[..n + 1] == [k] + b.path[..n];
        SubTouched(ops, k, b.path[..n], a.at);
        assert Gap(ops, Cons(k, a), Cons(k, b), n + 1);
        assert false;
      }
    }
  }

  // ----- pushing later changes into a value

  function FirstKeys(ops: seq<Op>): set<Key> {
    set i | 0 <= i < |ops| && ops[i].path != [] :: ops[i].path[0]
  }

  /** One more than the longest path, 0 for no operations. */
  function Height(ops: seq<Op>): (h: nat)
    ensures forall i :: 0 <= i < |ops| ==> |ops[i].path| < h
    ensures ops == [] <==> h == 0
  {
    if ops == [] then 0
    else if Height(Init(ops)) > |Last(ops).path| then Height(Init(ops))
    else |Last(ops).path| + 1
  }

  lemma {:induction false} HeightBound(ops: seq<Op>, h: nat)
    requires forall i :: 0 <= i < |ops| ==> |ops[i].path| < h
    ensures Height(ops) <= h
  {
    if ops != [] {
      HeightBound(Init(ops), h);
    }
  }

  lemma SubHeight(ops: seq<Op>, k: Key)
    requires ops != []
    ensures Height(Sub(ops, k)) < Height(ops)
  {
    var h := Height(ops);
    forall i | 0 <= i < |Sub(ops, k)| ensures |Sub(ops, k)[i].path| < h - 1 {
      SubMember(ops, k, Sub(ops, k)[i]);
      var op := Cons(k, Sub(ops, k)[i]);
      var j :| 0 <= j < |ops| && ops[j] == op;
      assert |op.path| < h;
    }
    HeightBound(Sub(ops, k), h - 1);
  }

  /** `dfs_apply_ops` seen from one child: a child without a slot, or whose slot is older
      than its parent's, keeps its value; otherwise the slot's operation is applied and the
      recursion goes on below it. */
  function DfsSlot(cur: Option<Value>, t: nat, sub: seq<Op>): Option<Value>
    decreases Height(sub), 1
  {
    match FoldDirect(sub)
    case None => cur
    case Some(s) =>
      if s.changed < t then cur
      else match s.op
        case None => cur
        case Some(Remove) => None
        case Some(_) => Some(DfsNode(s.value, s.changed, sub))
  }

  /** `dfs_apply_ops`: the value of a slot last changed at t, with the later operations
      below it applied. */
  function DfsNode(value: Value, t: nat, ops: seq<Op>): Value
    decreases Height(ops), 0
  {
    if ops == [] || value.Leaf? then value
    else
      Node(value.kind,
           map c | c in value.kids.Keys + FirstKeys(ops) &&
                   (SubHeight(ops, c); DfsSlot(Lookup(value, c), t, Sub(ops, c)).Some?)
             :: (SubHeight(ops, c); DfsSlot(Lookup(value, c), t, Sub(ops, c)).value))
  }

  lemma {:induction false} SubEmpty(ops: seq<Op>, k: Key)
    requires k !in FirstKeys(ops)
    ensures Sub(ops, k) == []
  {
    if ops != [] {
      assert Last(ops).path != [] ==> Last(ops).path[0] in FirstKeys(ops);
      assert forall j :: j in FirstKeys(Init(ops)) ==> j in FirstKeys(ops);
      SubEmpty(Init(ops), k);
    }
  }

  lemma DfsLookup(value: Value, t: nat, ops: seq<Op>, c: Key)
    requires value.Node?
    ensures DfsNode(value, t, ops).Node? && DfsNode(value, t, ops).kind == value.kind
    ensures Lookup(DfsNode(value, t, ops), c) == DfsSlot(Lookup(value, c), t, Sub(ops, c))
  {
    if c !in FirstKeys(ops) {
      SubEmpty(ops, c);
    }
  }

  /** A chain whose slots can be folded: increasing times and (E). */
  ghost predicate Foldable(ops: seq<Op>) {
    Increasing(ops) && CondE(ops)
  }

  /** A chain that can be merged: increasing times and both conditions. */
  ghost predicate Mergeable(ops: seq<Op>) {
    Foldable(ops) && CondC(ops)
  }

  lemma SubFoldable(ops: seq<Op>, k: Key)
    requires Foldable(ops)
    ensures Foldable(Sub(ops, k))
  {
    SubIncreasing(ops, k);
    SubCondE(ops, k);
  }

  lemma SubMergeable(ops: seq<Op>, k: Key)
    requires Mergeable(ops)
    ensures Mergeable(Sub(ops, k))
  {
    SubFoldable(ops, k);
    SubCondC(ops, k);
  }

  /** (C) at work: a child with no direct change after the slot's last one has no change
      below it either. */
  lemma Quiet(ops: seq<Op>, s: Slot, k: Key)
    requires Mergeable(ops) && FoldDirect(ops) == Some(s)
    requires !TouchedAfter(Sub(ops, k), [], s.changed)
    ensures After(s.changed, Sub(ops, k)) == []
  {
    var a := ChangedBy(ops);
    assert LastOnPath(ops, a);
    SubTouched(ops, k, [], a.at);
    assert [k] + [] == [k];
    forall op | op in Sub(ops, k) ensures op.at <= s.changed {
      SubMember(ops, k, op);
      var b := Cons(k, op);
      assert b.path[..1] == [k];
      assert !Gap(ops, a, b, 1);
    }
    AfterNone(s.changed, Sub(ops, k));
  }

  /** (E) at work: a child changed after the slot's last change was changed only after it. */
  lemma AllLater(ops: seq<Op>, s: Slot, k: Key, sk: Slot)
    requires Foldable(ops) && FoldDirect(ops) == Some(s)
    requires FoldDirect(Sub(ops, k)) == Some(sk)
    ensures sk.changed != s.changed
    ensures sk.changed > s.changed ==> forall op :: op in Sub(ops, k) && op.path == [] ==> op.at > s.changed
    ensures sk.changed < s.changed ==> !TouchedAfter(Sub(ops, k), [], s.changed)
  {
    var b := ChangedBy(ops);
    SubIncreasing(ops, k);
    var c := ChangedBy(Sub(ops, k));
    SubMember(ops, k, c);
    DistinctTimes(ops, b, Cons(k, c));
    forall op | op in Sub(ops, k) && op.path == []
      ensures sk.changed > s.changed ==> op.at > s.changed
    {
      SubMember(ops, k, op);
      DistinctTimes(ops, b, Cons(k, op));
      assert !Sandwich(ops, Cons(k, op), b, Cons(k, c));
    }
  }

  lemma DistinctTimes(ops: seq<Op>, a: Op, b: Op)
    requires Increasing(ops) && a in ops && b in ops && a != b
    ensures a.at != b.at
  {
  }

  /** A slot changed only after t folds and runs as if the earlier operations below it had
      not been there. */
  lemma LaterRun(cur: Option<Value>, t: nat, sub: seq<Op>, sk: Slot, x: Option<Value>)
    requires Increasing(sub) && FoldDirect(sub) == Some(sk) && t < sk.changed
    requires forall op :: op in sub && op.path == [] ==> op.at > t
    requires SlotRun(cur, After(t, sub)) == Some(x)
    ensures FoldRight(cur, After(t, sub), sk)
    ensures AllDeep(After(sk.changed, sub))
    ensures SlotRun(Start(sk), After(sk.changed, sub)) == Some(x)
    ensures Start(sk).None? ==> x.None?
  {
    FoldAfter(t, sub);
    AfterIncreasing(t, sub);
    FoldRun(cur, After(t, sub));
    AfterAfter(t, sk.changed, sub);
  }

  // ----- what the push loses

  /** The skipped child (no slot, or one older than t) has no net change since t; a kept
      child that cancelled out is not there to begin with, and any other loses nothing further
      down. */
  ghost predicate NeutralSlot(cur: Option<Value>, t: nat, sub: seq<Op>)
    decreases Height(sub), 1
  {
    match FoldDirect(sub)
    case None => SlotRun(cur, After(t, sub)) == Some(cur)
    case Some(s) =>
      if s.changed < t then SlotRun(cur, After(t, sub)) == Some(cur)
      else (s.op.None? ==> cur.None?) && (Start(s).Some? ==> NeutralNode(s.value, s.changed, sub))
  }

  ghost predicate NeutralNode(value: Value, t: nat, ops: seq<Op>)
    decreases Height(ops), 0
  {
    ops == [] || value.Leaf? ||
    forall c :: (SubHeight(ops, c); NeutralSlot(Lookup(value, c), t, Sub(ops, c)))
  }

  lemma ChangedApart(ops: seq<Op>, s: Slot, k: Key, sk: Slot)
    requires Increasing(ops) && FoldDirect(ops) == Some(s) && FoldDirect(Sub(ops, k)) == Some(sk)
    ensures sk.changed != s.changed
  {
    var b := ChangedBy(ops);
    SubIncreasing(ops, k);
    var c := ChangedBy(Sub(ops, k));
    SubMember(ops, k, c);
    DistinctTimes(ops, b, Cons(k, c));
  }

  lemma {:induction false} DfsSlotExact(ops: seq<Op>, s: Slot, cur: Option<Value>, k: Key, x: Option<Value>)
    requires Increasing(ops) && FoldDirect(ops) == Some(s)
    requires SlotRun(cur, After(s.changed, Sub(ops, k))) == Some(x)
    ensures DfsSlot(cur, s.changed, Sub(ops, k)) == x <==> NeutralSlot(cur, s.changed, Sub(ops, k))
    decreases Height(ops), 0
  {
    var sub := Sub(ops, k);
    if FoldDirect(sub).Some? {
      var sk := FoldDirect(sub).value;
      ChangedApart(ops, s, k, sk);
      if sk.changed > s.changed {
        SubHeight(ops, k);
        SubIncreasing(ops, k);
        DfsKeptExact(s.changed, sub, cur, sk, x);
      }
    }
  }

  lemma {:induction false} DfsKeptExact(t: nat, sub: seq<Op>, cur: Option<Value>, sk: Slot, x: Option<Value>)
    requires Increasing(sub) && FoldDirect(sub) == Some(sk) && sk.changed > t
    requires SlotRun(cur, After(t, sub)) == Some(x)
    ensures DfsSlot(cur, t, sub) == x <==> NeutralSlot(cur, t, sub)
    decreases Height(sub), 2
  {
    FoldLater(t, sub);
    AfterIncreasing(t, sub);
    FoldRun(cur, After(t, sub));
    AfterAfter(t, sk.changed, sub);
    if Start(sk).Some? {
      DeepRunKeeps(Start(sk), After(sk.changed, sub));
      DfsExact(sub, sk, x.value);
    }
  }

  /** Pushing later changes into a slot's value gives what running them gives, exactly when
      the operations under skipped children have no net effect and no cancelled child is there
      to begin with. */
  lemma {:induction false} DfsExact(ops: seq<Op>, s: Slot, w: Value)
    requires Increasing(ops) && FoldDirect(ops) == Some(s)
    requires SlotRun(Some(s.value), After(s.changed, ops)) == Some(Some(w))
    ensures DfsNode(s.value, s.changed, ops) == w <==> NeutralNode(s.value, s.changed, ops)
    decreases Height(ops), 1
  {
    var v, later := s.value, After(s.changed, ops);
    LaterDeep(ops, s);
    DeepRunKeeps(Some(v), later);
    if v.Node? {
      Split(v, later);
      var r := DfsNode(v, s.changed, ops);
      forall c ensures Lookup(r, c) == Lookup(w, c) <==> NeutralSlot(Lookup(v, c), s.changed, Sub(ops, c)) {
        DfsLookup(v, s.changed, ops, c);
        SubAfter(s.changed, ops, c);
        DfsSlotExact(ops, s, Lookup(v, c), c, Lookup(w, c));
      }
      DfsLookup(v, s.changed, ops, IntKey(0));
      if NeutralNode(v, s.changed, ops) {
        NodeExt(r, w);
      }
    }
  }

  lemma LaterDeep(ops: seq<Op>, s: Slot)
    requires Increasing(ops) && FoldDirect(ops) == Some(s)
    ensures AllDeep(After(s.changed, ops))
  {
    var b := ChangedBy(ops);
    var later := After(s.changed, ops);
    forall i | 0 <= i < |later| ensures later[i].path != [] {
      AfterMember(s.changed, ops, later[i]);
    }
  }

  /** Under (E) and (C) nothing is lost. */
  lemma {:induction false} MergeableNeutral(ops: seq<Op>, s: Slot)
    requires Mergeable(ops) && FoldDirect(ops) == Some(s) && SlotRun(Some(s.value), After(s.changed, ops)).Some?
    ensures NeutralNode(s.value, s.changed, ops)
    decreases Height(ops), 1
  {
    if ops != [] && s.value.Node? {
      LaterDeep(ops, s);
      Split(s.value, After(s.changed, ops));
      forall c ensures NeutralSlot(Lookup(s.value, c), s.changed, Sub(ops, c)) {
        SubAfter(s.changed, ops, c);
        SubHeight(ops, c);
        MergeableChild(ops, s, Lookup(s.value, c), c);
      }
    }
  }

  lemma {:induction false} MergeableChild(ops: seq<Op>, s: Slot, cur: Option<Value>, c: Key)
    requires Mergeable(ops) && FoldDirect(ops) == Some(s) && SlotRun(cur, After(s.changed, Sub(ops, c))).Some?
    requires Height(Sub(ops, c)) < Height(ops)
    ensures NeutralSlot(cur, s.changed, Sub(ops, c))
    decreases Height(ops), 0
  {
    var sub := Sub(ops, c);
    FoldNone(sub);
    if FoldDirect(sub).None? {
      Quiet(ops, s, c);
    } else {
      var sc := FoldDirect(sub).value;
      AllLater(ops, s, c, sc);
      if sc.changed < s.changed {
        Quiet(ops, s, c);
      } else {
        SubMergeable(ops, c);
        LaterRun(cur, s.changed, sub, sc, SlotRun(cur, After(s.changed, sub)).value);
        if Start(sc).Some? {
          MergeableNeutral(sub, sc);
        }
      }
    }
  }

  /** Pushing later changes into a slot's value gives what running them gives. */
  lemma DfsCorrect(ops: seq<Op>, s: Slot, w: Value)
    requires Mergeable(ops) && FoldDirect(ops) == Some(s)
    requires SlotRun(Some(s.value), After(s.changed, ops)) == Some(Some(w))
    ensures DfsNode(s.value, s.changed, ops) == w
  {
    MergeableNeutral(ops, s);
    DfsExact(ops, s, w);
  }

  // ----- the collapsed patch

  /** e is in the collapse of ops: its path carries the topmost slot, which is not a NO-OP. */
  predicate InCollapse(ops: seq<Op>, e: Op)
    decreases |e.path|
  {
    match FoldDirect(ops)
    case None => e.path != [] && InCollapse(Sub(ops, e.path[0]), Tail(e))
    case Some(s) =>
      && e.path == [] && s.op == Some(e.kind) && e.at == s.created
      && e.value == DfsNode(s.value, s.changed, ops)
  }

  /** `patch` is the collapse of ops, ordered by creation time. */
  ghost predicate IsCollapse(ops: seq<Op>, patch: seq<Op>) {
    && Increasing(patch)
    && forall e :: e in patch <==> InCollapse(ops, e)
  }

  lemma SubCollapse(ops: seq<Op>, patch: seq<Op>, k: Key)
    requires IsCollapse(ops, patch) && FoldDirect(ops).None?
    ensures IsCollapse(Sub(ops, k), Sub(patch, k))
  {
    SubIncreasing(patch, k);
    forall e ensures e in Sub(patch, k) <==> InCollapse(Sub(ops, k), e) {
      SubMember(patch, k, e);
      assert Tail(Cons(k, e)) == e;
    }
  }

  lemma {:induction false} EmptyCollapse(e: Op)
    ensures !InCollapse([], e)
    decreases |e.path|
  {
    if e.path != [] {
      EmptyCollapse(Tail(e));
    }
  }

  /** The slots of a container's children do not depend on deeper operations. */
  lemma {:induction false} HeadsFold(ops: seq<Op>, k: Key)
    ensures Folded(Heads(ops), k) == Folded(ops, k)
  {
    if ops != [] {
      HeadsFold(Init(ops), k);
      var l := Last(ops);
      if |l.path| == 1 {
        assert Init(Heads(ops)) == Heads(Init(ops));
        FoldedStep(Heads(ops), k);
        FoldedStep(ops, k);
      } else if l.path != [] && l.path[0] == k {
        assert Init(Sub(ops, k)) == Sub(Init(ops), k);
      }
    }
  }

  lemma {:induction false} HeadsMember(ops: seq<Op>, op: Op)
    ensures op in Heads(ops) <==> op in ops && |op.path| == 1
  {
    if ops != [] {
      HeadsMember(Init(ops), op);
      assert ops == Init(ops) + [Last(ops)];
    }
  }

  lemma {:induction false} HeadsIncreasing(ops: seq<Op>)
    requires Increasing(ops)
    ensures Increasing(Heads(ops))
  {
    if ops != [] {
      HeadsIncreasing(Init(ops));
      forall op | op in Heads(Init(ops)) ensures op.at < Last(ops).at {
        HeadsMember(Init(ops), op);
      }
    }
  }

  /** The direct operations of a collapse are the ledger output of the direct operations
      of the chain. */
  lemma CollapseLedger(ops: seq<Op>, patch: seq<Op>)
    requires IsCollapse(ops, patch) && FoldDirect(ops).None?
    ensures IsLedgerOutput(Heads(ops), Heads(patch))
  {
    var out := Heads(patch);
    HeadsIncreasing(patch);
    forall i | 0 <= i < |out|
      ensures Folded(Heads(ops), out[i].path[0]).Some?
      ensures Folded(Heads(ops), out[i].path[0]).value.op == Some(out[i].kind)
      ensures Folded(Heads(ops), out[i].path[0]).value.created == out[i].at
    {
      HeadsMember(patch, out[i]);
      HeadsFold(ops, out[i].path[0]);
      HeadInCollapse(ops, out[i]);
    }
    forall k | Folded(Heads(ops), k).Some? && Folded(Heads(ops), k).value.op.Some?
      ensures exists i :: 0 <= i < |out| && out[i].path == [k]
    {
      HeadsFold(ops, k);
      var s := Folded(ops, k).value;
      var e := Op(s.created, s.op.value, [k], DfsNode(s.value, s.changed, Sub(ops, k)));
      HeadInCollapse(ops, e);
      HeadsMember(patch, e);
    }
  }

  lemma HeadInCollapse(ops: seq<Op>, e: Op)
    requires FoldDirect(ops).None? && |e.path| == 1
    ensures InCollapse(ops, e) <==>
            var s := Folded(ops, e.path[0]);
            && s.Some? && s.value.op == Some(e.kind) && s.value.created == e.at
            && e.value == DfsNode(s.value.value, s.value.changed, Sub(ops, e.path[0]))
  {
    assert Tail(e).path == [];
    assert InCollapse(ops, e) <==> InCollapse(Sub(ops, e.path[0]), Tail(e));
  }

  // ----- the key discipline carries over

  lemma {:induction false} RunLedger(v: Value, ops: seq<Op>)
    requires v.Node? && v.kind.List? && v.kids.Keys == ListKeys(|v.kids.Keys|)
    requires AllDeep(ops) && SlotRun(Some(v), ops).Some?
    ensures LedgerRun(|v.kids.Keys|, Heads(ops)).Some?
    ensures var w := SlotRun(Some(v), ops).value;
            && w.Some? && w.value.Node? && w.value.kind.List?
            && w.value.kids.Keys == ListKeys(LedgerRun(|v.kids.Keys|, Heads(ops)).value)
  {
    if ops != [] {
      RunLedger(v, Init(ops));
      var op, w := Last(ops), SlotRun(Some(v), Init(ops)).value.value;
      StepShape(op, w);
      if |op.path| == 1 {
        assert Init(Heads(ops)) == Heads(Init(ops));
        ListKeysStep(|w.kids.Keys|, op.kind, op.path[0]);
      }
    }
  }

  lemma {:induction false} LedgerKeys(n: nat, heads: seq<Op>)
    requires forall i :: 0 <= i < |heads| ==> |heads[i].path| == 1
    requires LedgerRun(n, heads).Some?
    ensures KeysRun(List, ListKeys(n), heads) == Some(ListKeys(LedgerRun(n, heads).value))
  {
    if heads != [] {
      LedgerKeys(n, Init(heads));
      var m := LedgerRun(n, Init(heads)).value;
      ListKeysStep(m, Last(heads).kind, Last(heads).path[0]);
    }
  }

  lemma {:induction false} LooseKeys(kind: Kind, keys: set<Key>, heads: seq<Op>)
    requires forall i :: 0 <= i < |heads| ==> |heads[i].path| == 1
    requires kind.List? ==> false
    requires kind.Obj? ==> forall i :: 0 <= i < |heads| ==> heads[i].kind.Replace? && heads[i].path[0].StrKey?
    ensures KeysRun(kind, keys, heads).Some?
  {
    if heads != [] {
      LooseKeys(kind, keys, Init(heads));
    }
  }

  lemma {:induction false} ObjectHeads(cls: string, keys: set<Key>, heads: seq<Op>)
    requires forall i :: 0 <= i < |heads| ==> |heads[i].path| == 1
    requires KeysRun(Obj(cls), keys, heads).Some?
    ensures forall k :: Folded(heads, k).Some? ==> k.StrKey? && Folded(heads, k).value.op == Some(Replace)
  {
    if heads != [] {
      ObjectHeads(cls, keys, Init(heads));
      forall k | Folded(heads, k).Some? ensures k.StrKey? && Folded(heads, k).value.op == Some(Replace) {
        FoldedStep(heads, k);
      }
    }
  }

  /** Any ledger output of a run respects the key discipline of the container it starts from. */
  lemma LedgerOutputKeys(v: Value, ops: seq<Op>, out: seq<Op>)
    requires v.Node? && WellFormed(v) && Increasing(ops) && AllDeep(ops)
    requires SlotRun(Some(v), ops).Some?
    requires IsLedgerOutput(Heads(ops), out)
    ensures KeysRun(v.kind, v.kids.Keys, out).Some?
  {
    Split(v, ops);
    match v.kind
    case List =>
      RunLedger(v, ops);
      HeadsIncreasing(ops);
      ListFold(|v.kids.Keys|, Heads(ops), out);
      LedgerKeys(|v.kids.Keys|, out);
    case Dict =>
      LooseKeys(v.kind, v.kids.Keys, out);
    case Obj(cls) =>
      ObjectHeads(cls, v.kids.Keys, Heads(ops));
      LooseKeys(v.kind, v.kids.Keys, out);
  }

  // ----- the main theorem

  /** A chain with direct operations collapses to at most one operation. */
  lemma CollapseOne(ops: seq<Op>, patch: seq<Op>, s: Slot)
    requires FoldDirect(ops) == Some(s) && IsCollapse(ops, patch)
    ensures patch == if s.op.None? then []
                     else [Op(s.created, s.op.value, [], DfsNode(s.value, s.changed, ops))]
  {
    forall i | 0 <= i < |patch|
      ensures s.op.Some? && patch[i] == Op(s.created, s.op.value, [], DfsNode(s.value, s.changed, ops))
    {
      assert InCollapse(ops, patch[i]);
    }
    if s.op.Some? {
      var e := Op(s.created, s.op.value, [], DfsNode(s.value, s.changed, ops));
      assert InCollapse(ops, e);
      assert e in patch;
      assert |patch| < 2 || patch[0].at < patch[1].at;
      assert patch == [patch[0]];
    } else {
      assert patch == [];
    }
  }

  /** No topmost slot of the chain loses an effective change below it. */
  ghost predicate LossFree(ops: seq<Op>)
    decreases Height(ops)
  {
    match FoldDirect(ops)
    case Some(s) => Start(s).Some? ==> NeutralNode(s.value, s.changed, ops)
    case None => ops == [] || forall k :: (SubHeight(ops, k); LossFree(Sub(ops, k)))
  }

  lemma {:induction false} MergeableLossFree(cur: Option<Value>, ops: seq<Op>)
    requires Mergeable(ops) && SlotRun(cur, ops).Some?
    ensures LossFree(ops)
    decreases Height(ops)
  {
    FoldRun(cur, ops);
    if FoldDirect(ops).Some? {
      if Start(FoldDirect(ops).value).Some? {
        MergeableNeutral(ops, FoldDirect(ops).value);
      }
    } else if ops != [] {
      DeepRunKeeps(cur, ops);
      Split(cur.value, ops);
      forall k ensures LossFree(Sub(ops, k)) {
        SubMergeable(ops, k);
        SubHeight(ops, k);
        MergeableLossFree(Lookup(cur.value, k), Sub(ops, k));
      }
    }
  }

  lemma CollapseSlot(cur: Option<Value>, ops: seq<Op>, patch: seq<Op>, s: Slot)
    requires Increasing(ops) && SlotRun(cur, ops).Some? && FoldDirect(ops) == Some(s)
    requires IsCollapse(ops, patch)
    ensures SlotRun(cur, patch).Some?
    ensures SlotRun(cur, patch) == SlotRun(cur, ops) <==> LossFree(ops)
  {
    FoldRun(cur, ops);
    DeepRunKeeps(Start(s), After(s.changed, ops));
    if Start(s).Some? {
      DfsExact(ops, s, SlotRun(cur, ops).value.value);
    }
    CollapseOne(ops, patch, s);
    if s.op.Some? {
      assert Init(patch) == [];
    }
  }

  lemma CollapseNothing(ops: seq<Op>, patch: seq<Op>)
    requires ops == [] && IsCollapse(ops, patch)
    ensures patch == []
  {
    if patch != [] {
      assert InCollapse(ops, patch[0]);
      EmptyCollapse(patch[0]);
      assert false;
    }
  }

  /** The exact effect of a long patch.  On every valid chain the collapsed patch applies
      without error to the state the chain starts from, and it reaches the state the chain ends
      in exactly when no operation under a skipped child has a net effect and no cancelled
      child is there to begin with.  (Slot form: `cur` is any position of a state.) */
  lemma {:induction false} CollapseExact(cur: Option<Value>, ops: seq<Op>, patch: seq<Op>)
    requires Increasing(ops) && SlotRun(cur, ops).Some?
    requires cur.Some? ==> WellFormed(cur.value)
    requires IsCollapse(ops, patch)
    ensures SlotRun(cur, patch).Some?
    ensures SlotRun(cur, patch) == SlotRun(cur, ops) <==> LossFree(ops)
    decreases Height(ops)
  {
    FoldNone(ops);
    if FoldDirect(ops).Some? {
      CollapseSlot(cur, ops, patch, FoldDirect(ops).value);
    } else if ops == [] {
      CollapseNothing(ops, patch);
    } else {
      DeepRunKeeps(cur, ops);
      var v := cur.value;
      Split(v, ops);
      forall i | 0 <= i < |patch| ensures patch[i].path != [] {
        assert InCollapse(ops, patch[i]);
      }
      forall k
        ensures SlotRun(Lookup(v, k), Sub(patch, k)).Some?
        ensures SlotRun(Lookup(v, k), Sub(patch, k)) == SlotRun(Lookup(v, k), Sub(ops, k)) <==> LossFree(Sub(ops, k))
      {
        SubIncreasing(ops, k);
        SubHeight(ops, k);
        SubCollapse(ops, patch, k);
        assert Lookup(v, k).Some? ==> WellFormed(v.kids[k]);
        CollapseExact(Lookup(v, k), Sub(ops, k), Sub(patch, k));
      }
      CollapseLedger(ops, patch);
      LedgerOutputKeys(v, ops, Heads(patch));
      Split(v, patch);
      assert SlotsRun(v, patch);
      if LossFree(ops) {
        NodeExt(SlotRun(cur, patch).value.value, SlotRun(cur, ops).value.value);
      }
    }
  }

  /** The collapse of a valid, mergeable chain succeeds on the state the chain starts from
      and gives the state the chain ends in. */
  lemma CollapsePreserves(cur: Option<Value>, ops: seq<Op>, patch: seq<Op>)
    requires Mergeable(ops) && SlotRun(cur, ops).Some?
    requires cur.Some? ==> WellFormed(cur.value)
    requires IsCollapse(ops, patch)
    ensures SlotRun(cur, patch) == SlotRun(cur, ops)
  {
    MergeableLossFree(cur, ops);
    CollapseExact(cur, ops, patch);
  }
}
