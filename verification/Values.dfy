/** Recorded game states as trees, and the operations a replay patch is made of.

    A value is a primitive leaf or a container: a game object (string keys, fixed by its
    class), a list (keys 0..n-1) or a dict (int or string keys).  `Exec` is what
    `apply_operation` does at the end of a walk from the root, error paths included.
    `SlotStep` is the disciplined meaning of the same operation on one *slot* (a position
    that holds a value or nothing): Add fills an empty slot, Replace and Remove need a
    full one, lists only grow and shrink at their end, and objects are only replaced into. */
module Values {

  datatype Option<+T> = None | Some(value: T)

  datatype Key = IntKey(i: int) | StrKey(s: string)

  type Path = seq<Key>

  datatype Prim = NoneP | BoolP(b: bool) | IntP(i: int) | RealP(r: real) | StrP(s: string)

  datatype Kind = Obj(cls: string) | List | Dict

  datatype Value = Leaf(prim: Prim) | Node(kind: Kind, kids: map<Key, Value>)

  datatype OpKind = Add | Replace | Remove

  /** One patch entry. `at` is its position in a chain of patches (0 in a lone patch);
      no operation's effect depends on it. */
  datatype Op = Op(at: nat, kind: OpKind, path: Path, value: Value)

  const NONE := Leaf(NoneP)

  // ----- well-formed values

  lemma {:induction false} IndexSetSize(n: nat)
    ensures |set i | 0 <= i < n :: IntKey(i)| == n
  {
    var s := set i | 0 <= i < n :: IntKey(i);
    if n == 0 {
      assert s == {};
    } else {
      IndexSetSize(n - 1);
      assert s == (set i | 0 <= i < n - 1 :: IntKey(i)) + {IntKey(n - 1)};
    }
  }

  /** The key set of a list of length n. */
  function ListKeys(n: nat): (keys: set<Key>)
    ensures |keys| == n
    ensures forall k :: k in keys <==> k.IntKey? && 0 <= k.i < n
  {
    IndexSetSize(n);
    set i | 0 <= i < n :: IntKey(i)
  }

  lemma ListKeysNext(n: nat)
    ensures ListKeys(n) + {IntKey(n)} == ListKeys(n + 1)
  {
  }

  ghost predicate WellFormed(v: Value) {
    v.Node? ==>
      && (v.kind.List? ==> v.kids.Keys == ListKeys(|v.kids.Keys|))
      && (v.kind.Obj? ==> forall k :: k in v.kids ==> k.StrKey?)
      && (forall k :: k in v.kids ==> WellFormed(v.kids[k]))
  }

  /** Every value of a patch is well-formed. */
  ghost predicate GoodValues(ops: seq<Op>) {
    forall op :: op in ops ==> WellFormed(op.value)
  }

  /** No path of a patch is at or above another one. */
  ghost predicate Antichain(ops: seq<Op>) {
    forall i, j :: 0 <= i < |ops| && 0 <= j < |ops| && i != j ==> !(ops[i].path <= ops[j].path)
  }

  // ----- slots

  function Lookup(v: Value, k: Key): Option<Value> {
    if v.Node? && k in v.kids then Some(v.kids[k]) else None
  }

  function Assign(kids: map<Key, Value>, k: Key, x: Option<Value>): (r: map<Key, Value>)
    ensures r.Keys == if x.Some? then kids.Keys + {k} else kids.Keys - {k}
    ensures forall j :: j != k ==> (j in r <==> j in kids) && (j in r ==> r[j] == kids[j])
    ensures x.Some? ==> r[k] == x.value
  {
    if x.Some? then kids[k := x.value] else kids - {k}
  }

  /** What a slot holds under one key. */
  function HeldUnder(cur: Option<Value>, k: Key): Option<Value> {
    if cur.Some? then Lookup(cur.value, k) else None
  }

  /** What a slot holds under a path. */
  function GetAt(cur: Option<Value>, p: Path): Option<Value>
    decreases |p|
  {
    if p == [] then cur else GetAt(HeldUnder(cur, p[0]), p[1..])
  }

  /** Containers of one kind that hold the same in every slot are equal. */
  lemma NodeExt(a: Value, b: Value)
    requires a.Node? && b.Node? && a.kind == b.kind
    requires forall k :: Lookup(a, k) == Lookup(b, k)
    ensures a == b
  {
    forall k ensures k in a.kids <==> k in b.kids {
      assert Lookup(a, k) == Lookup(b, k);
    }
    forall k | k in a.kids ensures a.kids[k] == b.kids[k] {
      assert Lookup(a, k) == Lookup(b, k);
    }
    assert a.kids == b.kids;
  }

  // ----- apply_operation and the walk from the root

  /** `apply_operation`: what one operation does to the container it is handed; None is
      any of the exceptions it raises. */
  function ApplyAt(kind: OpKind, value: Value, container: Value, pos: Key): Option<Value> {
    match container
    case Leaf(_) => None
    case Node(Obj(c), kids) =>
      if !pos.StrKey? || pos !in kids then None
      else if kind.Add? && kids[pos] != NONE then None
      else Some(Node(Obj(c), kids[pos := if kind.Remove? then NONE else value]))
    case Node(List, kids) =>
      (match kind
       case Add => Some(Node(List, kids[IntKey(|kids.Keys|) := value]))
       case Replace => if pos in kids then Some(Node(List, kids[pos := value])) else None
       case Remove =>
         if pos == IntKey(|kids.Keys| - 1) && pos in kids then Some(Node(List, kids - {pos})) else None)
    case Node(Dict, kids) =>
      if !kind.Remove? then Some(Node(Dict, kids[pos := value]))
      else if pos in kids then Some(Node(Dict, kids - {pos}))
      else None
  }

  /** One operation on a whole state: walk to the parent container, then `ApplyAt`.  An
      empty path has no container (the root's reference is None), so it fails. */
  function Exec(op: Op, v: Value): Option<Value>
    decreases |op.path|
  {
    if op.path == [] then None
    else if |op.path| == 1 then ApplyAt(op.kind, op.value, v, op.path[0])
    else match Lookup(v, op.path[0])
      case None => None
      case Some(child) =>
        match Exec(Tail(op), child)
        case None => None
        case Some(w) => Some(Node(v.kind, v.kids[op.path[0] := w]))
  }

  /** A whole patch, operation by operation. */
  function ExecRun(v: Value, ops: seq<Op>): Option<Value> {
    if ops == [] then Some(v)
    else match ExecRun(v, Init(ops))
      case None => None
      case Some(w) => Exec(Last(ops), w)
  }

  // ----- the disciplined meaning

  function Tail(op: Op): Op
    requires op.path != []
  {
    op.(path := op.path[1..])
  }

  function Cons(k: Key, op: Op): Op {
    op.(path := [k] + op.path)
  }

  function Init<T>(s: seq<T>): seq<T>
    requires s != []
  {
    s[..|s| - 1]
  }

  function Last<T>(s: seq<T>): T
    requires s != []
  {
    s[|s| - 1]
  }

  function SlotApply(kind: OpKind, value: Value, cur: Option<Value>): Option<Option<Value>> {
    match kind
    case Add => if cur.None? then Some(Some(value)) else None
    case Replace => if cur.Some? then Some(Some(value)) else None
    case Remove => if cur.Some? then Some(None) else None
  }

  /** Which keys of a container an operation may touch: objects only Replace, lists Add and
      Remove only at their end, dicts anywhere. */
  predicate KeyOk(kind: Kind, keys: set<Key>, op: OpKind, key: Key) {
    match kind
    case Obj(_) => op.Replace? && key.StrKey?
    case Dict => true
    case List =>
      match op
      case Add => key == IntKey(|keys|)
      case Remove => key == IntKey(|keys| - 1)
      case Replace => true
  }

  function SlotStep(op: Op, cur: Option<Value>): Option<Option<Value>>
    decreases |op.path|
  {
    if op.path == [] then SlotApply(op.kind, op.value, cur)
    else if cur.None? || cur.value.Leaf? then None
    else
      var Node(kind, kids) := cur.value;
      var k := op.path[0];
      if |op.path| == 1 && !KeyOk(kind, kids.Keys, op.kind, k) then None
      else match SlotStep(Tail(op), Lookup(cur.value, k))
        case None => None
        case Some(x) => Some(Some(Node(kind, Assign(kids, k, x))))
  }

  function SlotRun(cur: Option<Value>, ops: seq<Op>): Option<Option<Value>> {
    if ops == [] then Some(cur)
    else match SlotRun(cur, Init(ops))
      case None => None
      case Some(x) => SlotStep(Last(ops), x)
  }

  /** Every operation addresses something below the slot, not the slot itself. */
  predicate AllDeep(ops: seq<Op>) {
    forall i :: 0 <= i < |ops| ==> ops[i].path != []
  }

  lemma RunAppend(cur: Option<Value>, a: seq<Op>, b: seq<Op>)
    ensures SlotRun(cur, a + b) ==
            match SlotRun(cur, a) case None => None case Some(x) => SlotRun(x, b)
  {
    if b == [] {
      assert a + b == a;
    } else {
      assert Init(a + b) == a + Init(b);
      RunAppend(cur, a, Init(b));
    }
  }

  lemma RunPrefix(cur: Option<Value>, ops: seq<Op>, n: nat)
    requires n <= |ops| && SlotRun(cur, ops).Some?
    ensures SlotRun(cur, ops[..n]).Some?
  {
    assert ops == ops[..n] + ops[n..];
    RunAppend(cur, ops[..n], ops[n..]);
  }

  /** Deep operations never empty a slot or change the container that fills it. */
  lemma {:induction false} DeepRunKeeps(cur: Option<Value>, ops: seq<Op>)
    requires AllDeep(ops) && SlotRun(cur, ops).Some?
    ensures ops != [] ==> cur.Some? && cur.value.Node?
    ensures cur.Some? <==> SlotRun(cur, ops).value.Some?
    ensures cur.Some? && cur.value.Node? ==>
              && SlotRun(cur, ops).value.value.Node?
              && SlotRun(cur, ops).value.value.kind == cur.value.kind
  {
    if ops != [] {
      DeepRunKeeps(cur, Init(ops));
    }
  }

  /** No effect depends on the time stamp. */
  lemma {:induction false} StepAnyTime(op: Op, t: nat, cur: Option<Value>)
    ensures SlotStep(op.(at := t), cur) == SlotStep(op, cur)
    decreases |op.path|
  {
    if op.path != [] && cur.Some? && cur.value.Node? {
      StepAnyTime(Tail(op), t, Lookup(cur.value, op.path[0]));
      assert Tail(op.(at := t)) == Tail(op).(at := t);
    }
  }

  // ----- the disciplined meaning is what the code does

  lemma {:induction false} StepIsExec(op: Op, v: Value)
    requires op.path != [] && SlotStep(op, Some(v)).Some?
    ensures SlotStep(op, Some(v)).value.Some?
    ensures Exec(op, v) == SlotStep(op, Some(v)).value
    decreases |op.path|
  {
    var k := op.path[0];
    if |op.path| == 1 {
      assert Tail(op).path == [];
      assert Assign(v.kids, k, Some(op.value)) == v.kids[k := op.value];
    } else {
      assert SlotStep(Tail(op), Lookup(v, k)).Some?;
      assert Lookup(v, k).Some?;
      StepIsExec(Tail(op), v.kids[k]);
    }
  }

  /** What the code makes of an operation, given the container it is applied to: a dict does not
      tell Add and Replace apart, an object is only replaced into (a Remove leaves None, an Add needs
      it), and a list appends at its end wherever the Add points. */
  function Disciplined(op: Op, container: Option<Value>): (r: Op)
    requires op.path != []
    ensures |r.path| == |op.path| && Init(r.path) == Init(op.path)
  {
    if container.None? || container.value.Leaf? then op
    else
      var k, kids := Last(op.path), container.value.kids;
      match container.value.kind
      case Dict => if op.kind.Remove? then op else op.(kind := if k in kids then Replace else Add)
      case Obj(_) =>
        if k !in kids then op
        else if op.kind.Remove? then op.(kind := Replace, value := NONE)
        else if op.kind.Add? && kids[k] == NONE then op.(kind := Replace)
        else op
      case List => if op.kind.Add? then op.(path := Init(op.path) + [IntKey(|kids.Keys|)]) else op
  }

  /** On every well-formed state every operation does what its disciplined form does, and raises
      exactly where that is not allowed. */
  lemma {:induction false} ExecIsDisciplined(op: Op, v: Value)
    requires op.path != [] && WellFormed(v)
    ensures SlotStep(Disciplined(op, GetAt(Some(v), Init(op.path))), Some(v)) ==
            match Exec(op, v) case None => None case Some(w) => Some(Some(w))
    decreases |op.path|
  {
    var d := Disciplined(op, GetAt(Some(v), Init(op.path)));
    if |op.path| == 1 {
      HereDisciplined(op, v);
    } else {
      var k := op.path[0];
      assert Init(op.path)[0] == k && Init(op.path)[1..] == Init(Tail(op).path);
      assert d.path[0] == Init(d.path)[0];
      assert Tail(d) == Disciplined(Tail(op), GetAt(HeldUnder(Some(v), k), Init(Tail(op).path)));
      if v.Node? && k in v.kids {
        ExecIsDisciplined(Tail(op), v.kids[k]);
      } else if v.Node? {
        assert SlotStep(Tail(d), None) == None;
      }
    }
  }

  lemma HereDisciplined(op: Op, v: Value)
    requires |op.path| == 1 && WellFormed(v)
    ensures SlotStep(Disciplined(op, Some(v)), Some(v)) ==
            match Exec(op, v) case None => None case Some(w) => Some(Some(w))
  {
    match v
    case Leaf(_) => HereStep(Disciplined(op, Some(v)), v);
    case Node(Dict, _) => HereInDict(op, v);
    case Node(List, _) => HereInList(op, v);
    case Node(Obj(_), _) => HereInObject(op, v);
  }

  lemma HereInDict(op: Op, v: Value)
    requires |op.path| == 1 && v.Node? && v.kind.Dict?
    ensures SlotStep(Disciplined(op, Some(v)), Some(v)) ==
            match Exec(op, v) case None => None case Some(w) => Some(Some(w))
  {
    HereStep(Disciplined(op, Some(v)), v);
    AssignIs(v.kids, Disciplined(op, Some(v)).path[0], Disciplined(op, Some(v)).value);
  }

  lemma HereInList(op: Op, v: Value)
    requires |op.path| == 1 && v.Node? && v.kind.List? && v.kids.Keys == ListKeys(|v.kids.Keys|)
    ensures SlotStep(Disciplined(op, Some(v)), Some(v)) ==
            match Exec(op, v) case None => None case Some(w) => Some(Some(w))
  {
    HereStep(Disciplined(op, Some(v)), v);
    AssignIs(v.kids, Disciplined(op, Some(v)).path[0], Disciplined(op, Some(v)).value);
    if op.kind.Add? {
      assert Disciplined(op, Some(v)).path == [IntKey(|v.kids.Keys|)];
    }
  }

  lemma HereInObject(op: Op, v: Value)
    requires |op.path| == 1 && v.Node? && v.kind.Obj?
    ensures SlotStep(Disciplined(op, Some(v)), Some(v)) ==
            match Exec(op, v) case None => None case Some(w) => Some(Some(w))
  {
    HereStep(Disciplined(op, Some(v)), v);
    AssignIs(v.kids, Disciplined(op, Some(v)).path[0], Disciplined(op, Some(v)).value);
  }

  lemma HereStep(op: Op, v: Value)
    requires |op.path| == 1
    ensures v.Leaf? ==> SlotStep(op, Some(v)) == None
    ensures v.Node? ==>
              SlotStep(op, Some(v)) ==
              if !KeyOk(v.kind, v.kids.Keys, op.kind, op.path[0]) then None
              else match SlotApply(op.kind, op.value, Lookup(v, op.path[0]))
                case None => None
                case Some(x) => Some(Some(Node(v.kind, Assign(v.kids, op.path[0], x))))
  {
    assert Tail(op).path == [];
  }

  lemma AssignIs(kids: map<Key, Value>, k: Key, x: Value)
    ensures Assign(kids, k, Some(x)) == kids[k := x] && Assign(kids, k, None) == kids - {k}
  {
  }

  /** Whenever the disciplined run of a patch succeeds, the code's run does too, with the
      same resulting state. */
  lemma {:induction false} RunIsExec(v: Value, ops: seq<Op>)
    requires AllDeep(ops) && SlotRun(Some(v), ops).Some?
    ensures SlotRun(Some(v), ops).value.Some?
    ensures ExecRun(v, ops) == SlotRun(Some(v), ops).value
  {
    if ops != [] {
      RunIsExec(v, Init(ops));
      StepIsExec(Last(ops), SlotRun(Some(v), Init(ops)).value.value);
    }
  }

  // ----- well-formedness is kept

  /** The length a list has after one allowed operation. */
  function LengthAfter(n: nat, op: OpKind): int {
    match op case Add => n + 1 case Replace => n case Remove => n - 1
  }

  lemma ListKeysStep(n: nat, op: OpKind, k: Key)
    requires KeyOk(List, ListKeys(n), op, k)
    requires op.Add? <==> k !in ListKeys(n)
    ensures LengthAfter(n, op) >= 0
    ensures KeysAfter(ListKeys(n), op, k) == ListKeys(LengthAfter(n, op))
  {
    match op
    case Add => ListKeysNext(n);
    case Replace =>
    case Remove => ListKeysNext(n - 1);
  }

  /** A deep step touches one slot of the container and nothing else. */
  lemma StepShape(op: Op, w: Value)
    requires op.path != [] && w.Node?
    ensures SlotStep(op, Some(w)).Some? <==>
              && (|op.path| == 1 ==> KeyOk(w.kind, w.kids.Keys, op.kind, op.path[0]))
              && SlotStep(Tail(op), Lookup(w, op.path[0])).Some?
    ensures SlotStep(op, Some(w)).Some? ==>
              var r := SlotStep(op, Some(w)).value;
              && r.Some? && r.value.Node? && r.value.kind == w.kind
              && Some(Lookup(r.value, op.path[0])) == SlotStep(Tail(op), Lookup(w, op.path[0]))
              && (forall j :: j != op.path[0] ==> Lookup(r.value, j) == Lookup(w, j))
              && r.value.kids.Keys ==
                 (if |op.path| == 1 then KeysAfter(w.kids.Keys, op.kind, op.path[0]) else w.kids.Keys)
              && (|op.path| == 1 ==> (op.kind.Add? <==> op.path[0] !in w.kids))
  {
  }

  lemma {:induction false} StepWellFormed(op: Op, cur: Option<Value>)
    requires cur.Some? ==> WellFormed(cur.value)
    requires WellFormed(op.value)
    requires SlotStep(op, cur).Some?
    ensures SlotStep(op, cur).value.Some? ==> WellFormed(SlotStep(op, cur).value.value)
    decreases |op.path|
  {
    if op.path != [] {
      var k, v := op.path[0], cur.value;
      assert Lookup(v, k).Some? ==> WellFormed(v.kids[k]);
      StepWellFormed(Tail(op), Lookup(v, k));
      StepShape(op, v);
      var r := SlotStep(op, cur).value.value;
      if |op.path| == 1 && v.kind.List? {
        ListKeysStep(|v.kids.Keys|, op.kind, k);
      }
      forall j | j in r.kids ensures WellFormed(r.kids[j]) && (v.kind.Obj? ==> j.StrKey?) {
        assert Lookup(r, j) == Some(r.kids[j]);
        if j != k {
          assert j in v.kids;
        }
      }
    }
  }

  lemma {:induction false} RunWellFormed(cur: Option<Value>, ops: seq<Op>)
    requires cur.Some? ==> WellFormed(cur.value)
    requires forall i :: 0 <= i < |ops| ==> WellFormed(ops[i].value)
    requires SlotRun(cur, ops).Some?
    ensures SlotRun(cur, ops).value.Some? ==> WellFormed(SlotRun(cur, ops).value.value)
  {
    if ops != [] {
      RunWellFormed(cur, Init(ops));
      StepWellFormed(Last(ops), SlotRun(cur, Init(ops)).value);
    }
  }

  // ----- a run on a container is a product over its keys

  /** The operations below key k, seen from k. */
  function Sub(ops: seq<Op>, k: Key): (r: seq<Op>) {
    if ops == [] then []
    else if Last(ops).path != [] && Last(ops).path[0] == k then Sub(Init(ops), k) + [Tail(Last(ops))]
    else Sub(Init(ops), k)
  }

  /** The operations that address direct children. */
  function Heads(ops: seq<Op>): (r: seq<Op>)
    ensures forall i :: 0 <= i < |r| ==> |r[i].path| == 1
  {
    if ops == [] then []
    else if |Last(ops).path| == 1 then Heads(Init(ops)) + [Last(ops)]
    else Heads(Init(ops))
  }

  function KeysAfter(keys: set<Key>, op: OpKind, key: Key): set<Key> {
    match op case Add => keys + {key} case Replace => keys case Remove => keys - {key}
  }

  /** The key set of a container of the given kind through a run of direct operations,
      None if one of them is not allowed where it happens. */
  function KeysRun(kind: Kind, keys: set<Key>, heads: seq<Op>): Option<set<Key>>
    requires forall i :: 0 <= i < |heads| ==> |heads[i].path| == 1
  {
    if heads == [] then Some(keys)
    else match KeysRun(kind, keys, Init(heads))
      case None => None
      case Some(ks) =>
        var h := Last(heads);
        if KeyOk(kind, ks, h.kind, h.path[0]) then Some(KeysAfter(ks, h.kind, h.path[0])) else None
  }

  /** Membership in Sub and Heads. */
  lemma {:induction false} SubMember(ops: seq<Op>, k: Key, op: Op)
    ensures op in Sub(ops, k) <==> Cons(k, op) in ops
  {
    if ops != [] {
      SubMember(Init(ops), k, op);
      assert ops == Init(ops) + [Last(ops)];
      assert Cons(k, op).path[1..] == op.path;
      if Last(ops).path != [] && Last(ops).path[0] == k {
        assert [k] + Last(ops).path[1..] == Last(ops).path;
      }
    }
  }

  ghost predicate SlotsRun(v: Value, ops: seq<Op>) {
    forall k :: SlotRun(Lookup(v, k), Sub(ops, k)).Some?
  }

  /** The product law.  Running deep operations on a container succeeds exactly when the
      direct ones respect its key discipline and, for every key, the operations below that
      key succeed on that slot alone; the result is then assembled slot by slot. */
  lemma {:induction false} Split(v: Value, ops: seq<Op>)
    requires v.Node? && AllDeep(ops)
    ensures SlotRun(Some(v), ops).Some? <==>
            SlotsRun(v, ops) && KeysRun(v.kind, v.kids.Keys, Heads(ops)).Some?
    ensures SlotRun(Some(v), ops).Some? ==>
              var r := SlotRun(Some(v), ops).value;
              && r.Some? && r.value.Node? && r.value.kind == v.kind
              && KeysRun(v.kind, v.kids.Keys, Heads(ops)) == Some(r.value.kids.Keys)
              && forall k :: SlotRun(Lookup(v, k), Sub(ops, k)) == Some(Lookup(r.value, k))
  {
    if ops == [] {
      assert SlotsRun(v, ops);
    } else {
      var op, ops' := Last(ops), Init(ops);
      var k := op.path[0];
      Split(v, ops');
      assert Sub(ops, k) == Sub(ops', k) + [Tail(op)];
      assert Init(Sub(ops, k)) == Sub(ops', k);
      assert forall j :: j != k ==> Sub(ops, j) == Sub(ops', j);
      if |op.path| == 1 {
        assert Init(Heads(ops)) == Heads(ops');
      }
      if SlotsRun(v, ops) {
        forall j ensures SlotRun(Lookup(v, j), Sub(ops', j)).Some? {
          assert SlotRun(Lookup(v, j), Sub(ops, j)).Some?;
        }
        assert SlotsRun(v, ops');
      }
      if SlotRun(Some(v), ops').Some? {
        SplitStep(v, ops, SlotRun(Some(v), ops').value.value);
      }
    }
  }

  lemma {:induction false} SplitStep(v: Value, ops: seq<Op>, w: Value)
    requires v.Node? && AllDeep(ops) && ops != []
    requires SlotRun(Some(v), Init(ops)) == Some(Some(w))
    requires w.Node? && w.kind == v.kind
    requires KeysRun(v.kind, v.kids.Keys, Heads(Init(ops))) == Some(w.kids.Keys)
    requires forall k :: SlotRun(Lookup(v, k), Sub(Init(ops), k)) == Some(Lookup(w, k))
    ensures SlotRun(Some(v), ops).Some? <==>
            SlotsRun(v, ops) && KeysRun(v.kind, v.kids.Keys, Heads(ops)).Some?
    ensures SlotRun(Some(v), ops).Some? ==>
              var r := SlotRun(Some(v), ops).value;
              && r.Some? && r.value.Node? && r.value.kind == v.kind
              && KeysRun(v.kind, v.kids.Keys, Heads(ops)) == Some(r.value.kids.Keys)
              && forall k :: SlotRun(Lookup(v, k), Sub(ops, k)) == Some(Lookup(r.value, k))
  {
    var op := Last(ops);
    var k := op.path[0];
    StepShape(op, w);
    assert Init(Sub(ops, k)) == Sub(Init(ops), k);
    assert SlotRun(Lookup(v, k), Sub(ops, k)) == SlotStep(Tail(op), Lookup(w, k));
    forall j | j != k ensures SlotRun(Lookup(v, j), Sub(ops, j)) == Some(Lookup(w, j)) {
      assert Sub(ops, j) == Sub(Init(ops), j);
    }
    if |op.path| == 1 {
      assert Init(Heads(ops)) == Heads(Init(ops));
    }
  }
}
