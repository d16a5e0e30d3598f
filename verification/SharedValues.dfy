/** Stored patches are applied more than once, and what they add is the object they hold: a
    change made to it in the state is a change made to the stored patch. */
module SharedValues {
  import opened Values
  import opened ObjectStore

  /** One operation with the value object x, carried out through the store. */
  function Written(st: Store, root: nat, kind: OpKind, path: Path, x: Handle): Option<Store>
    requires path != []
  {
    match Walk(st, Ref(root), Init(path))
    case None => None
    case Some(c) =>
      if c !in st then None
      else match ApplyCell(kind, x, st[c], Last(path))
        case None => None
        case Some(cell) => Some(st[c := cell])
  }

  /** The dict at the root, with the object x under k. */
  function Put(st: Store, root: nat, k: Key, x: Handle): Store
    requires root in st
  {
    st[root := Cell(Dict, st[root].kids[k := x])]
  }

  function Drop(st: Store, root: nat, k: Key): Store
    requires root in st
  {
    st[root := Cell(Dict, st[root].kids - {k})]
  }

  ghost predicate IsDict(st: Store, root: nat, d: Value) {
    IsTree(st, Ref(root), d) && d.Node? && d.kind.Dict?
  }

  lemma WrittenHere(st: Store, root: nat, d: Value, k: Key, x: Handle)
    requires IsDict(st, root, d)
    ensures Written(st, root, Add, [k], x) == Some(Put(st, root, k, x))
    ensures k in d.kids ==> Written(st, root, Remove, [k], x) == Some(Drop(st, root, k))
  {
    assert Init([k]) == [];
  }

  /** The root's entry k is the object x. */
  ghost predicate Entry(st: Store, root: nat, d: Value, k: Key, x: Handle) {
    IsDict(st, root, d) && k in d.kids && st[root].kids[k] == x
  }

  /** Adding the object under a new key. */
  lemma AddObject(st: Store, root: nat, d: Value, k: Key, x: Handle, v: Value)
    requires IsDict(st, root, d) && k !in d.kids
    requires IsTree(st, x, v) && Foot(st, x, v) !! Foot(st, Ref(root), d)
    ensures Entry(Put(st, root, k, x), root, Node(Dict, d.kids[k := v]), k, x)
  {
    var op := Op(0, Add, [k], v);
    assert Tail(op).path == [];
    StepHere(st, Ref(root), d, op, x, Node(Dict, Assign(d.kids, k, Some(v))));
    assert Assign(d.kids, k, Some(v)) == d.kids[k := v];
    assert AssignHandle(st[root].kids, k, Some(x)) == st[root].kids[k := x];
  }

  /** An operation strictly inside the entry changes the object and leaves it where it is. */
  lemma ChangeObject(st: Store, root: nat, d: Value, k: Key, x: Handle, op: Op, y: Handle, w: Value)
    requires Entry(st, root, d, k, x) && |op.path| >= 2 && op.path[0] == k
    requires SlotStep(Tail(op), Some(d.kids[k])) == Some(Some(w))
    requires IsTree(st, y, op.value) && Foot(st, y, op.value) !! Foot(st, Ref(root), d)
    ensures var r := Written(st, root, op.kind, op.path, y);
            r.Some? && Entry(r.value, root, Node(Dict, d.kids[k := w]), k, x)
  {
    assert Assign(d.kids, k, Some(w)) == d.kids[k := w];
    StepThrough(st, Ref(root), d, op, y, Node(Dict, d.kids[k := w]));
    ElsewhereThanRoot(st, root, d, k, x, op);
  }

  /** The container such an operation is applied to is not the root. */
  lemma ElsewhereThanRoot(st: Store, root: nat, d: Value, k: Key, x: Handle, op: Op)
    requires Entry(st, root, d, k, x) && |op.path| >= 2 && op.path[0] == k
    requires Walk(st, Ref(root), Init(op.path)).Some?
    ensures Walk(st, Ref(root), Init(op.path)).value != root
  {
    FootKid(st, Ref(root), d, k);
    WalkDown(st, Ref(root), op);
    WalkFoot(st, x, d.kids[k], Init(Tail(op).path));
  }

  /** Removing the entry leaves the object as it is. */
  lemma RemoveObject(st: Store, root: nat, d: Value, k: Key, x: Handle)
    requires Entry(st, root, d, k, x)
    ensures IsDict(Drop(st, root, k), root, Node(Dict, d.kids - {k}))
    ensures IsTree(Drop(st, root, k), x, d.kids[k])
    ensures Foot(Drop(st, root, k), x, d.kids[k]) !! Foot(Drop(st, root, k), Ref(root), Node(Dict, d.kids - {k}))
  {
    var st', rest := Drop(st, root, k), Node(Dict, d.kids - {k});
    forall j | j in d.kids
      ensures IsTree(st', st[root].kids[j], d.kids[j])
      ensures Foot(st', st[root].kids[j], d.kids[j]) == Foot(st, st[root].kids[j], d.kids[j])
      ensures root !in Foot(st, st[root].kids[j], d.kids[j])
    {
      FootKid(st, Ref(root), d, j);
      Frame(st, root, st'[root], st[root].kids[j], d.kids[j]);
    }
    assert st'[root].kids == st[root].kids - {k};
    assert Models(st', Ref(root), rest);
    assert Sep(st', Ref(root), rest);
    forall c | c in Foot(st', Ref(root), rest) ensures c !in Foot(st', x, d.kids[k]) {
      if c != root {
        var j :| j in rest.kids && c in Foot(st', st'[root].kids[j], rest.kids[j]);
      }
    }
  }

  /** A patch that adds v is applied, another one changes v inside the state to w, a third one
      removes the entry, and the first is applied again: the entry is then w.  So the state is
      the recorded one again if and only if the change in between was undone on the object. */
  lemma AppliedAgain(st: Store, root: nat, d: Value, k: Key, x: Handle, v: Value, op: Op, y: Handle, w: Value)
    returns (a: Store, b: Store, c: Store, st': Store)
    requires IsDict(st, root, d) && k !in d.kids
    requires IsTree(st, x, v) && Foot(st, x, v) !! Foot(st, Ref(root), d)
    requires |op.path| >= 2 && op.path[0] == k && SlotStep(Tail(op), Some(v)) == Some(Some(w))
    requires op.value.Leaf? && y == Prim(op.value.prim)
    ensures Written(st, root, Add, [k], x) == Some(a) && IsDict(a, root, Node(Dict, d.kids[k := v]))
    ensures Written(a, root, op.kind, op.path, y) == Some(b) && IsDict(b, root, Node(Dict, d.kids[k := w]))
    ensures Written(b, root, Remove, [k], Prim(NoneP)) == Some(c) && IsDict(c, root, d)
    ensures Written(c, root, Add, [k], x) == Some(st') && IsDict(st', root, Node(Dict, d.kids[k := w]))
    ensures IsDict(st', root, Node(Dict, d.kids[k := v])) <==> w == v
  {
    a, b := AddedAndChanged(st, root, d, k, x, v, op, y, w);
    c, st' := RemovedAndAdded(b, root, d, k, x, w);
    SameEntry(st', root, d, k, v, w);
  }

  lemma AddedAndChanged(st: Store, root: nat, d: Value, k: Key, x: Handle, v: Value, op: Op, y: Handle, w: Value)
    returns (a: Store, b: Store)
    requires IsDict(st, root, d) && k !in d.kids
    requires IsTree(st, x, v) && Foot(st, x, v) !! Foot(st, Ref(root), d)
    requires |op.path| >= 2 && op.path[0] == k && SlotStep(Tail(op), Some(v)) == Some(Some(w))
    requires op.value.Leaf? && y == Prim(op.value.prim)
    ensures Written(st, root, Add, [k], x) == Some(a) && IsDict(a, root, Node(Dict, d.kids[k := v]))
    ensures Written(a, root, op.kind, op.path, y) == Some(b) && Entry(b, root, Node(Dict, d.kids[k := w]), k, x)
  {
    a := Put(st, root, k, x);
    WrittenHere(st, root, d, k, x);
    AddObject(st, root, d, k, x, v);
    b := Changed(a, root, d, k, x, v, op, y, w);
  }

  lemma Changed(a: Store, root: nat, d: Value, k: Key, x: Handle, v: Value, op: Op, y: Handle, w: Value)
    returns (b: Store)
    requires d.Node? && Entry(a, root, Node(Dict, d.kids[k := v]), k, x)
    requires |op.path| >= 2 && op.path[0] == k && SlotStep(Tail(op), Some(v)) == Some(Some(w))
    requires op.value.Leaf? && y == Prim(op.value.prim)
    ensures Written(a, root, op.kind, op.path, y) == Some(b) && Entry(b, root, Node(Dict, d.kids[k := w]), k, x)
  {
    var d1 := Node(Dict, d.kids[k := v]);
    ChangeObject(a, root, d1, k, x, op, y, w);
    assert d1.kids[k := w] == d.kids[k := w];
    b := Written(a, root, op.kind, op.path, y).value;
  }

  lemma RemovedAndAdded(b: Store, root: nat, d: Value, k: Key, x: Handle, w: Value) returns (c: Store, st': Store)
    requires d.Node? && d.kind.Dict? && k !in d.kids && Entry(b, root, Node(Dict, d.kids[k := w]), k, x)
    ensures Written(b, root, Remove, [k], Prim(NoneP)) == Some(c) && IsDict(c, root, d)
    ensures Written(c, root, Add, [k], x) == Some(st') && IsDict(st', root, Node(Dict, d.kids[k := w]))
  {
    var d2 := Node(Dict, d.kids[k := w]);
    c := Drop(b, root, k);
    WrittenHere(b, root, d2, k, Prim(NoneP));
    RemoveObject(b, root, d2, k, x);
    assert d2.kids - {k} == d.kids && Node(Dict, d2.kids - {k}) == d;
    st' := Put(c, root, k, x);
    WrittenHere(c, root, d, k, x);
    AddObject(c, root, d, k, x, w);
  }

  lemma SameEntry(st: Store, root: nat, d: Value, k: Key, v: Value, w: Value)
    requires d.Node? && IsDict(st, root, Node(Dict, d.kids[k := w]))
    ensures IsDict(st, root, Node(Dict, d.kids[k := v])) <==> w == v
  {
    if IsDict(st, root, Node(Dict, d.kids[k := v])) {
      OneValue(st, Ref(root), Node(Dict, d.kids[k := v]), Node(Dict, d.kids[k := w]));
      assert d.kids[k := v][k] == d.kids[k := w][k];
    }
  }

  /** A handle represents one value at most. */
  lemma {:induction false} OneValue(st: Store, h: Handle, v: Value, w: Value)
    requires Models(st, h, v) && Models(st, h, w)
    ensures v == w
    decreases v
  {
    if v.Node? && w.Node? {
      forall k | k in v.kids ensures v.kids[k] == w.kids[k] {
        OneValue(st, st[h.r].kids[k], v.kids[k], w.kids[k]);
      }
      assert v.kids == w.kids;
    }
  }
}
