/** The per-path operation fold of a chain of patches: every path keeps one slot that
    merges all operations on exactly that path, with the time its effect was created and
    the time it was last changed. */
module OpFold {
  import opened Values

  /** `op` is None for a NO-OP (an Add that was removed again). */
  datatype Slot = Slot(op: Option<OpKind>, value: Value, created: nat, changed: nat)

  /** One operation into the slot of its path. */
  function FoldStep(slot: Option<Slot>, op: Op): Slot {
    match slot
    case None => Slot(Some(op.kind), op.value, op.at, op.at)
    case Some(s) =>
      if s.op == Some(Remove) && op.kind.Add? then Slot(Some(Replace), op.value, s.created, op.at)
      else if s.op == Some(Add) && op.kind.Remove? then Slot(None, NONE, s.created, op.at)
      else if s.op == Some(Add) && op.kind.Replace? then Slot(Some(Add), op.value, s.created, op.at)
      else if s.op == Some(Replace) && op.kind.Remove? then Slot(Some(Remove), op.value, op.at, op.at)
      else Slot(Some(op.kind), op.value, s.created, op.at)
  }

  /** The slot of the position the operations are seen from: those with an empty path. */
  function FoldDirect(ops: seq<Op>): Option<Slot> {
    if ops == [] then None
    else if Last(ops).path == [] then Some(FoldStep(FoldDirect(Init(ops)), Last(ops)))
    else FoldDirect(Init(ops))
  }

  /** The slot of key k. */
  function Folded(ops: seq<Op>, k: Key): Option<Slot> {
    FoldDirect(Sub(ops, k))
  }

  predicate Increasing(ops: seq<Op>) {
    forall i, j :: 0 <= i < j < |ops| ==> ops[i].at < ops[j].at
  }

  /** The operations later than t. */
  function After(t: nat, ops: seq<Op>): seq<Op> {
    if ops == [] then []
    else if Last(ops).at > t then After(t, Init(ops)) + [Last(ops)]
    else After(t, Init(ops))
  }

  lemma {:induction false} AfterMember(t: nat, ops: seq<Op>, op: Op)
    ensures op in After(t, ops) <==> op in ops && op.at > t
  {
    if ops != [] {
      AfterMember(t, Init(ops), op);
      assert ops == Init(ops) + [Last(ops)];
    }
  }

  lemma {:induction false} AfterIncreasing(t: nat, ops: seq<Op>)
    requires Increasing(ops)
    ensures Increasing(After(t, ops))
  {
    if ops != [] {
      AfterIncreasing(t, Init(ops));
      forall op | op in After(t, Init(ops)) ensures op.at < Last(ops).at {
        AfterMember(t, Init(ops), op);
      }
    }
  }

  lemma {:induction false} SubIncreasing(ops: seq<Op>, k: Key)
    requires Increasing(ops)
    ensures Increasing(Sub(ops, k))
  {
    if ops != [] {
      SubIncreasing(Init(ops), k);
      forall op | op in Sub(Init(ops), k) ensures op.at < Last(ops).at {
        SubMember(Init(ops), k, op);
        assert Cons(k, op).at < Last(ops).at;
      }
    }
  }

  lemma {:induction false} SubAfter(t: nat, ops: seq<Op>, k: Key)
    ensures Sub(After(t, ops), k) == After(t, Sub(ops, k))
  {
    if ops != [] {
      SubAfter(t, Init(ops), k);
      if Last(ops).at > t {
        assert Init(After(t, ops)) == After(t, Init(ops));
      }
      if Last(ops).path != [] && Last(ops).path[0] == k {
        assert Init(Sub(ops, k)) == Sub(Init(ops), k);
      }
    }
  }

  lemma {:induction false} AfterAfter(t: nat, u: nat, ops: seq<Op>)
    requires t <= u
    ensures After(u, After(t, ops)) == After(u, ops)
  {
    if ops != [] {
      AfterAfter(t, u, Init(ops));
      if Last(ops).at > t {
        assert Init(After(t, ops)) == After(t, Init(ops));
      }
    }
  }

  /** The fold sees only direct operations, so dropping earlier deep ones changes nothing. */
  lemma {:induction false} FoldAfter(t: nat, ops: seq<Op>)
    requires forall op :: op in ops && op.path == [] ==> op.at > t
    ensures FoldDirect(After(t, ops)) == FoldDirect(ops)
  {
    if ops != [] {
      assert ops == Init(ops) + [Last(ops)];
      assert Last(ops) in ops;
      FoldAfter(t, Init(ops));
      if Last(ops).at > t {
        assert Init(After(t, ops)) == After(t, Init(ops));
      }
    }
  }

  /** Whatever came before t, a slot changed after t starts from the same value. */
  lemma {:induction false} FoldLater(t: nat, ops: seq<Op>)
    requires Increasing(ops) && FoldDirect(ops).Some? && FoldDirect(ops).value.changed > t
    ensures FoldDirect(After(t, ops)).Some?
    ensures var s, later := FoldDirect(ops).value, FoldDirect(After(t, ops)).value;
            later.changed == s.changed && Start(later) == Start(s)
  {
    if Last(ops).path == [] {
      assert Init(After(t, ops)) == After(t, Init(ops));
    } else {
      FoldLater(t, Init(ops));
      if Last(ops).at > t {
        assert Init(After(t, ops)) == After(t, Init(ops));
      }
    }
  }

  lemma {:induction false} FoldNone(ops: seq<Op>)
    ensures FoldDirect(ops).None? <==> AllDeep(ops)
  {
    if ops != [] {
      FoldNone(Init(ops));
      if AllDeep(Init(ops)) && Last(ops).path != [] {
        assert forall i :: 0 <= i < |ops| ==> i == |ops| - 1 || ops[i] == Init(ops)[i];
      }
    }
  }

  /** The direct operation a slot's creation time comes from. */
  lemma {:induction false} CreatedBy(ops: seq<Op>) returns (a: Op)
    requires FoldDirect(ops).Some?
    ensures a in ops && a.path == [] && a.at == FoldDirect(ops).value.created
  {
    if Last(ops).path != [] || (FoldDirect(Init(ops)).Some? && FoldDirect(ops).value.created != Last(ops).at) {
      a := CreatedBy(Init(ops));
    } else {
      a := Last(ops);
    }
  }

  /** The last direct operation, which the slot's value and change time come from. */
  lemma {:induction false} ChangedBy(ops: seq<Op>) returns (b: Op)
    requires Increasing(ops) && FoldDirect(ops).Some?
    ensures b in ops && b.path == [] && b.at == FoldDirect(ops).value.changed
    ensures forall op :: op in ops && op.path == [] ==> op.at <= b.at
  {
    if Last(ops).path != [] {
      b := ChangedBy(Init(ops));
      assert ops == Init(ops) + [Last(ops)];
    } else {
      b := Last(ops);
    }
  }

  /** What the slot starts from after its last direct operation. */
  function Start(s: Slot): Option<Value> {
    if s.op == Some(Add) || s.op == Some(Replace) then Some(s.value) else None
  }

  ghost predicate FoldRight(cur: Option<Value>, ops: seq<Op>, s: Slot) {
    && (cur.None? <==> s.op == Some(Add) || s.op == None)
    && AllDeep(After(s.changed, ops))
    && SlotRun(Start(s), After(s.changed, ops)) == SlotRun(cur, ops)
    && (Start(s).None? ==> After(s.changed, ops) == [])
  }

  /** The fold is right on one slot: its kind records whether the slot was full at the
      start and is full after the last direct operation, and what remains of the run
      is the deep operations after that one, from the last value. */
  lemma {:induction false} FoldRun(cur: Option<Value>, ops: seq<Op>)
    requires Increasing(ops) && SlotRun(cur, ops).Some?
    ensures FoldDirect(ops).None? ==> AllDeep(ops)
    ensures FoldDirect(ops).Some? ==> FoldRight(cur, ops, FoldDirect(ops).value)
  {
    FoldNone(ops);
    if ops != [] {
      FoldRun(cur, Init(ops));
      if Last(ops).path == [] {
        FoldRunDirect(cur, ops);
      } else if FoldDirect(Init(ops)).Some? {
        FoldRunDeep(cur, ops);
      }
    }
  }

  lemma FoldRunDirect(cur: Option<Value>, ops: seq<Op>)
    requires ops != [] && Increasing(ops) && SlotRun(cur, ops).Some? && Last(ops).path == []
    requires FoldDirect(Init(ops)).None? ==> AllDeep(Init(ops))
    requires FoldDirect(Init(ops)).Some? ==> FoldRight(cur, Init(ops), FoldDirect(Init(ops)).value)
    ensures FoldRight(cur, ops, FoldDirect(ops).value)
  {
    var s := FoldDirect(ops).value;
    AfterNone(s.changed, ops);
    var mid := SlotRun(cur, Init(ops)).value;
    if FoldDirect(Init(ops)).Some? {
      var s' := FoldDirect(Init(ops)).value;
      DeepRunKeeps(Start(s'), After(s'.changed, Init(ops)));
      assert mid.None? <==> Start(s').None?;
    } else {
      DeepRunKeeps(cur, Init(ops));
      assert mid.None? <==> cur.None?;
    }
  }

  lemma FoldRunDeep(cur: Option<Value>, ops: seq<Op>)
    requires ops != [] && Increasing(ops) && SlotRun(cur, ops).Some? && Last(ops).path != []
    requires FoldDirect(Init(ops)).Some? && FoldRight(cur, Init(ops), FoldDirect(Init(ops)).value)
    ensures FoldRight(cur, ops, FoldDirect(ops).value)
  {
    var s := FoldDirect(Init(ops)).value;
    assert FoldDirect(ops) == Some(s);
    LaterThanSlot(ops);
    AfterSnoc(s.changed, ops);
    var later := After(s.changed, Init(ops));
    RunSnoc(Start(s), later, Last(ops));
    assert SlotRun(Start(s), later) == SlotRun(cur, Init(ops));
    DeepRunKeeps(Start(s), later);
    assert Start(s).Some?;
  }

  lemma LaterThanSlot(ops: seq<Op>)
    requires ops != [] && Increasing(ops) && FoldDirect(Init(ops)).Some?
    ensures Last(ops).at > FoldDirect(Init(ops)).value.changed
  {
    var b := ChangedBy(Init(ops));
    assert b in Init(ops);
  }

  lemma AfterSnoc(t: nat, ops: seq<Op>)
    requires ops != [] && Last(ops).at > t
    ensures After(t, ops) == After(t, Init(ops)) + [Last(ops)]
    ensures AllDeep(After(t, Init(ops))) && Last(ops).path != [] ==> AllDeep(After(t, ops))
  {
  }

  lemma RunSnoc(cur: Option<Value>, ops: seq<Op>, op: Op)
    ensures SlotRun(cur, ops + [op]) == match SlotRun(cur, ops) case None => None case Some(x) => SlotStep(op, x)
  {
    assert Init(ops + [op]) == ops;
  }

  lemma {:induction false} AfterNone(t: nat, ops: seq<Op>)
    requires forall op :: op in ops ==> op.at <= t
    ensures After(t, ops) == []
  {
    if ops != [] {
      assert Last(ops) in ops;
      assert forall op :: op in Init(ops) ==> op in ops;
      AfterNone(t, Init(ops));
    }
  }

  // ----- lists: the fold keeps end-only growth and shrinkage

  /** The length of a list through a run of direct operations that append at the end,
      remove the last element and replace existing ones; None when one does not. */
  function LedgerRun(n: nat, heads: seq<Op>): Option<nat>
    requires forall i :: 0 <= i < |heads| ==> |heads[i].path| == 1
  {
    if heads == [] then Some(n)
    else match LedgerRun(n, Init(heads))
      case None => None
      case Some(m) =>
        var h := Last(heads);
        match h.kind
        case Add => if h.path[0] == IntKey(m) then Some(m + 1) else None
        case Remove => if m > 0 && h.path[0] == IntKey(m - 1) then Some(m - 1) else None
        case Replace => if h.path[0].IntKey? && 0 <= h.path[0].i < m then Some(m) else None
  }

  type Ledger = int -> Option<Slot>

  function At(ops: seq<Op>): Ledger {
    i => Folded(ops, IntKey(i))
  }

  predicate OnlyIndices(ops: seq<Op>) {
    forall i :: 0 <= i < |ops| ==> |ops[i].path| == 1 && ops[i].path[0].IntKey? && ops[i].path[0].i >= 0
  }

  /** Where every index of a list that went from length n0 to length n stands after the
      fold, and how the creation times are ordered. */
  ghost predicate LedgerInv(n0: nat, n: nat, f: Ledger) {
    LedgerKinds(n0, n, f) && LedgerTimes(n0, n, f)
  }

  ghost predicate LedgerKinds(n0: nat, n: nat, f: Ledger) {
    && (forall i :: 0 <= i < n0 && i < n && f(i).Some? ==> f(i).value.op == Some(Replace))
    && (forall i :: n <= i < n0 ==> f(i).Some? && f(i).value.op == Some(Remove))
    && (forall i :: n0 <= i < n ==> f(i).Some? && f(i).value.op == Some(Add))
    && (forall i :: n0 <= i && n <= i && f(i).Some? ==> f(i).value.op == None)
  }

  ghost predicate LedgerTimes(n0: nat, n: nat, f: Ledger)
    requires LedgerKinds(n0, n, f)
  {
    && (forall i, j :: n0 <= i < j && f(j).Some? ==> f(i).Some? && f(i).value.created < f(j).value.created)
    && (forall i, j :: n <= i < j < n0 ==> f(j).value.created < f(i).value.created)
  }

  lemma {:induction false} FoldedStep(ops: seq<Op>, k: Key)
    requires ops != [] && |Last(ops).path| == 1
    ensures Folded(ops, k) ==
            if Last(ops).path[0] == k then Some(FoldStep(Folded(Init(ops), k), Last(ops)))
            else Folded(Init(ops), k)
  {
    if Last(ops).path[0] == k {
      assert Init(Sub(ops, k)) == Sub(Init(ops), k);
    }
  }

  lemma FoldedTimes(ops: seq<Op>, k: Key)
    requires Folded(ops, k).Some?
    ensures exists op :: op in ops && op.path == [k] && op.at == Folded(ops, k).value.created
  {
    var op := CreatedBy(Sub(ops, k));
    SubMember(ops, k, op);
    assert Cons(k, op).path == [k];
  }

  /** What a run that stays valid says about its last operation. */
  lemma LedgerLast(n0: nat, heads: seq<Op>)
    requires forall i :: 0 <= i < |heads| ==> |heads[i].path| == 1
    requires heads != [] && LedgerRun(n0, heads).Some?
    ensures LedgerRun(n0, Init(heads)).Some?
    ensures var m, k := LedgerRun(n0, Init(heads)).value, Last(heads).path[0];
            && k.IntKey? && k.i >= 0 && Last(heads).path == [IntKey(k.i)] && LedgerFits(m, Last(heads).kind, k.i)
            && LedgerRun(n0, heads) == Some(LengthAfter(m, Last(heads).kind))
  {
  }

  /** An operation on index i fits a list of length m. */
  predicate LedgerFits(m: nat, kind: OpKind, i: nat) {
    match kind
    case Add => i == m
    case Remove => i == m - 1
    case Replace => i < m
  }

  lemma LedgerSnoc(n0: nat, heads: seq<Op>, m: nat, i: nat)
    requires forall i :: 0 <= i < |heads| ==> |heads[i].path| == 1
    requires heads != [] && LedgerRun(n0, Init(heads)) == Some(m)
    requires Last(heads).path == [IntKey(i)] && LedgerFits(m, Last(heads).kind, i)
    ensures LedgerRun(n0, heads) == Some(LengthAfter(m, Last(heads).kind))
  {
  }

  lemma {:induction false} LedgerIndices(n0: nat, heads: seq<Op>)
    requires forall i :: 0 <= i < |heads| ==> |heads[i].path| == 1
    requires LedgerRun(n0, heads).Some?
    ensures OnlyIndices(heads)
  {
    if heads != [] {
      LedgerLast(n0, heads);
      LedgerIndices(n0, Init(heads));
      assert forall i :: 0 <= i < |heads| - 1 ==> heads[i] == Init(heads)[i];
    }
  }

  lemma {:induction false} LedgerFold(n0: nat, heads: seq<Op>)
    requires forall i :: 0 <= i < |heads| ==> |heads[i].path| == 1
    requires Increasing(heads) && LedgerRun(n0, heads).Some?
    ensures LedgerInv(n0, LedgerRun(n0, heads).value, At(heads))
  {
    if heads != [] {
      LedgerLast(n0, heads);
      LedgerFold(n0, Init(heads));
      var i := Last(heads).path[0].i;
      LedgerLink(heads, i);
      LedgerStep(n0, LedgerRun(n0, Init(heads)).value, At(Init(heads)), At(heads), Last(heads), i);
    }
  }

  /** One more operation on the list. */
  lemma LedgerStep(n0: nat, m: nat, f: Ledger, f': Ledger, h: Op, i: nat)
    requires LedgerInv(n0, m, f)
    requires forall j :: f'(j) == if j == i then Some(FoldStep(f(j), h)) else f(j)
    requires forall j :: f(j).Some? ==> f(j).value.created < h.at
    requires LedgerFits(m, h.kind, i)
    ensures LengthAfter(m, h.kind) >= 0 && LedgerInv(n0, LengthAfter(m, h.kind), f')
  {
    match h.kind
    case Add => LedgerAdd(n0, m, f, f', h);
    case Remove => LedgerRemove(n0, m, f, f', h);
    case Replace => LedgerReplace(n0, m, f, f', h, i);
  }

  lemma LedgerLink(heads: seq<Op>, i: nat)
    requires heads != [] && Increasing(heads) && Last(heads).path == [IntKey(i)]
    ensures forall j :: At(heads)(j) ==
              if j == i then Some(FoldStep(At(Init(heads))(j), Last(heads))) else At(Init(heads))(j)
    ensures forall j :: At(Init(heads))(j).Some? ==> At(Init(heads))(j).value.created < Last(heads).at
  {
    forall j ensures Folded(heads, IntKey(j)) ==
        if j == i then Some(FoldStep(Folded(Init(heads), IntKey(j)), Last(heads))) else Folded(Init(heads), IntKey(j))
    {
      FoldedStep(heads, IntKey(j));
    }
    forall j | Folded(Init(heads), IntKey(j)).Some?
      ensures Folded(Init(heads), IntKey(j)).value.created < Last(heads).at
    {
      FoldedTimes(Init(heads), IntKey(j));
    }
  }

  lemma LedgerAdd(n0: nat, m: nat, f: Ledger, f': Ledger, h: Op)
    requires LedgerInv(n0, m, f) && h.kind.Add?
    requires forall j :: f'(j) == if j == m then Some(FoldStep(f(j), h)) else f(j)
    requires forall j :: f(j).Some? ==> f(j).value.created < h.at
    ensures LedgerInv(n0, m + 1, f')
  {
    assert LedgerKinds(n0, m + 1, f');
  }

  lemma LedgerRemove(n0: nat, m: nat, f: Ledger, f': Ledger, h: Op)
    requires LedgerInv(n0, m, f) && h.kind.Remove? && m > 0
    requires forall j :: f'(j) == if j == m - 1 then Some(FoldStep(f(j), h)) else f(j)
    requires forall j :: f(j).Some? ==> f(j).value.created < h.at
    ensures LedgerInv(n0, m - 1, f')
  {
    assert LedgerKinds(n0, m - 1, f');
  }

  lemma LedgerReplace(n0: nat, m: nat, f: Ledger, f': Ledger, h: Op, i: nat)
    requires LedgerInv(n0, m, f) && h.kind.Replace? && i < m
    requires forall j :: f'(j) == if j == i then Some(FoldStep(f(j), h)) else f(j)
    requires forall j :: f(j).Some? ==> f(j).value.created < h.at
    ensures LedgerInv(n0, m, f')
  {
  }

  /** The operations that survive the fold: one per key whose slot is not a NO-OP, with the
      slot's kind and creation time, in order of creation time. */
  ghost predicate IsLedgerOutput(ops: seq<Op>, out: seq<Op>) {
    && Increasing(out)
    && (forall i :: 0 <= i < |out| ==>
          && |out[i].path| == 1
          && Folded(ops, out[i].path[0]).Some?
          && Folded(ops, out[i].path[0]).value.op == Some(out[i].kind)
          && Folded(ops, out[i].path[0]).value.created == out[i].at)
    && (forall k :: Folded(ops, k).Some? && Folded(ops, k).value.op.Some? ==>
          exists i :: 0 <= i < |out| && out[i].path == [k])
  }

  /** Folding any valid run of end-only list operations per index and sorting the result by
      creation time gives a run that still removes only the last element and appends the
      indices in order, from the same length to the same length. */
  lemma ListFold(n0: nat, heads: seq<Op>, out: seq<Op>)
    requires forall i :: 0 <= i < |heads| ==> |heads[i].path| == 1
    requires Increasing(heads) && LedgerRun(n0, heads).Some?
    requires IsLedgerOutput(heads, out)
    ensures LedgerRun(n0, out) == LedgerRun(n0, heads)
  {
    LedgerFold(n0, heads);
    LedgerIndices(n0, heads);
    var n, f := LedgerRun(n0, heads).value, At(heads);
    forall i | 0 <= i < |out|
      ensures out[i].path[0].IntKey? && out[i].path[0].i >= 0
    {
      FoldedTimes(heads, out[i].path[0]);
    }
    forall j | f(j).Some? && f(j).value.op.Some?
      ensures exists i :: 0 <= i < |out| && out[i].path == [IntKey(j)]
    {
      assert Folded(heads, IntKey(j)).Some?;
    }
    var m := LedgerPrefix(n0, n, f, out, |out|);
    assert out[..|out|] == out;
    LedgerEnd(n0, n, f, out, m);
  }

  /** IsLedgerOutput for a list, index by index. */
  ghost predicate Outputs(f: Ledger, out: seq<Op>) {
    && Increasing(out)
    && OnlyIndices(out)
    && (forall i :: 0 <= i < |out| ==>
          && f(out[i].path[0].i).Some?
          && f(out[i].path[0].i).value.op == Some(out[i].kind)
          && f(out[i].path[0].i).value.created == out[i].at)
    && (forall j :: f(j).Some? && f(j).value.op.Some? ==>
          exists i :: 0 <= i < |out| && out[i].path == [IntKey(j)])
  }

  /** After p outputs the list has length m, and exactly the indices the length has already
      passed have been handled. */
  ghost predicate Passed(n0: nat, n: nat, out: seq<Op>, p: nat, m: nat)
    requires OnlyIndices(out)
  {
    && (n0 <= n ==> n0 <= m <= n)
    && (n < n0 ==> n <= m <= n0)
    && (forall q :: 0 <= q < |out| ==>
          && (out[q].kind.Add? ==> (q < p <==> out[q].path[0].i < m))
          && (out[q].kind.Remove? ==> (q < p <==> out[q].path[0].i >= m)))
  }

  lemma LedgerEnd(n0: nat, n: nat, f: Ledger, out: seq<Op>, m: nat)
    requires LedgerInv(n0, n, f) && Outputs(f, out) && Passed(n0, n, out, |out|, m)
    ensures m == n
  {
    assert f(m).Some? && f(m).value.op.Some? ==> exists i :: 0 <= i < |out| && out[i].path == [IntKey(m)];
    assert f(m - 1).Some? && f(m - 1).value.op.Some? ==>
        exists i :: 0 <= i < |out| && out[i].path == [IntKey(m - 1)];
  }

  lemma {:induction false} LedgerPrefix(n0: nat, n: nat, f: Ledger, out: seq<Op>, p: nat) returns (m: nat)
    requires LedgerInv(n0, n, f) && Outputs(f, out) && p <= |out|
    ensures LedgerRun(n0, out[..p]) == Some(m) && Passed(n0, n, out, p, m)
  {
    if p == 0 {
      m := n0;
    } else {
      var l := LedgerPrefix(n0, n, f, out, p - 1);
      var h := out[p - 1];
      LedgerNext(n0, n, f, out, p - 1, l);
      PassedNext(n0, n, f, out, p - 1, l);
      LedgerTake(n0, out, p - 1, l, h.path[0].i);
      m := LengthAfter(l, h.kind);
    }
  }

  lemma LedgerTake(n0: nat, out: seq<Op>, p: nat, m: nat, i: nat)
    requires forall i :: 0 <= i < |out| ==> |out[i].path| == 1
    requires p < |out| && LedgerRun(n0, out[..p]) == Some(m)
    requires out[p].path[0] == IntKey(i) && LedgerFits(m, out[p].kind, i)
    ensures LedgerRun(n0, out[..p + 1]) == Some(LengthAfter(m, out[p].kind))
  {
    assert Init(out[..p + 1]) == out[..p] && Last(out[..p + 1]) == out[p];
    LedgerSnoc(n0, out[..p + 1], m, i);
  }

  lemma PassedNext(n0: nat, n: nat, f: Ledger, out: seq<Op>, p: nat, m: nat)
    requires Outputs(f, out) && p < |out| && Passed(n0, n, out, p, m)
    requires out[p].kind.Add? ==> n0 <= m < n && out[p].path[0].i == m
    requires out[p].kind.Remove? ==> n < m <= n0 && out[p].path[0].i == m - 1
    ensures LengthAfter(m, out[p].kind) >= 0 && Passed(n0, n, out, p + 1, LengthAfter(m, out[p].kind))
  {
    forall q | 0 <= q < |out| && out[q].path[0].i == out[p].path[0].i ensures q == p {
      assert out[q].at == out[p].at;
    }
  }

  /** The next output fits the length reached so far. */
  lemma LedgerNext(n0: nat, n: nat, f: Ledger, out: seq<Op>, p: nat, m: nat)
    requires LedgerInv(n0, n, f) && Outputs(f, out) && p < |out|
    requires Passed(n0, n, out, p, m)
    ensures out[p].kind.Add? ==> n0 <= m < n && out[p].path[0].i == m
    ensures out[p].kind.Remove? ==> n < m <= n0 && out[p].path[0].i == m - 1
    ensures out[p].kind.Replace? ==> 0 <= out[p].path[0].i < m
  {
    match out[p].kind
    case Add => var q := Found(f, out, m);
    case Remove => var q := Found(f, out, m - 1);
    case Replace =>
  }

  lemma Found(f: Ledger, out: seq<Op>, j: int) returns (q: nat)
    requires Outputs(f, out) && f(j).Some? && f(j).value.op.Some?
    ensures q < |out| && out[q].path == [IntKey(j)]
    ensures out[q].at == f(j).value.created && f(j).value.op == Some(out[q].kind)
  {
    q :| 0 <= q < |out| && out[q].path == [IntKey(j)];
  }
}
