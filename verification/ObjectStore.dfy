/** Game states as linked objects.  The replay mutates containers in place through cached
    references, so this module models the memory they live in: a store of cells, each
    holding primitives or references, and what it means for a reference to represent a
    value without sharing. */
module ObjectStore {
  import opened Values

  datatype Handle = Prim(p: Values.Prim) | Ref(r: nat)

  datatype Cell = Cell(kind: Kind, kids: map<Key, Handle>)

  type Store = map<nat, Cell>

  /** The object graph at h, read off, is the value v. */
  ghost predicate Models(st: Store, h: Handle, v: Value)
    decreases v
  {
    match v
    case Leaf(p) => h == Prim(p)
    case Node(kind, kids) =>
      && h.Ref? && h.r in st
      && st[h.r].kind == kind && st[h.r].kids.Keys == kids.Keys
      && forall k :: k in kids ==> Models(st, st[h.r].kids[k], kids[k])
  }

  /** The cells the graph at h consists of. */
  ghost function Foot(st: Store, h: Handle, v: Value): set<nat>
    requires Models(st, h, v)
    decreases v
  {
    match v
    case Leaf(_) => {}
    case Node(_, kids) =>
      {h.r} + set k, x | k in kids.Keys && x in Foot(st, st[h.r].kids[k], kids[k]) :: x
  }

  /** No cell is shared: the graph at h is a tree. */
  ghost predicate Sep(st: Store, h: Handle, v: Value)
    requires Models(st, h, v)
    decreases v
  {
    v.Node? ==>
      && (forall k :: k in v.kids ==>
            && h.r !in Foot(st, st[h.r].kids[k], v.kids[k])
            && Sep(st, st[h.r].kids[k], v.kids[k]))
      && (forall j, k :: j in v.kids && k in v.kids && j != k ==>
            Foot(st, st[h.r].kids[j], v.kids[j]) !! Foot(st, st[h.r].kids[k], v.kids[k]))
  }

  ghost predicate IsTree(st: Store, h: Handle, v: Value) {
    Models(st, h, v) && Sep(st, h, v)
  }

  lemma FootKid(st: Store, h: Handle, v: Value, k: Key)
    requires Models(st, h, v) && v.Node? && k in v.kids
    ensures Models(st, st[h.r].kids[k], v.kids[k])
    ensures Foot(st, st[h.r].kids[k], v.kids[k]) <= Foot(st, h, v)
  {
  }

  // ----- frames

  /** A write outside the graph leaves it alone. */
  lemma {:induction false} Frame(st: Store, c: nat, cell: Cell, h: Handle, v: Value)
    requires Models(st, h, v) && c !in Foot(st, h, v)
    ensures Models(st[c := cell], h, v)
    ensures Foot(st[c := cell], h, v) == Foot(st, h, v)
    ensures Sep(st, h, v) ==> Sep(st[c := cell], h, v)
    decreases v
  {
    if v.Node? {
      var st' := st[c := cell];
      forall k | k in v.kids
        ensures Models(st', st'[h.r].kids[k], v.kids[k])
        ensures Foot(st', st'[h.r].kids[k], v.kids[k]) == Foot(st, st[h.r].kids[k], v.kids[k])
        ensures Sep(st, st[h.r].kids[k], v.kids[k]) ==> Sep(st', st'[h.r].kids[k], v.kids[k])
      {
        FootKid(st, h, v, k);
        Frame(st, c, cell, st[h.r].kids[k], v.kids[k]);
      }
      assert Models(st', h, v);
      assert Foot(st', h, v) == Foot(st, h, v);
    }
  }

  // ----- walks

  /** The container reached by following a path from h. */
  function Walk(st: Store, h: Handle, path: Path): Option<nat>
    decreases |path|
  {
    if h.Prim? || h.r !in st then None
    else if path == [] then Some(h.r)
    else if path[0] in st[h.r].kids then Walk(st, st[h.r].kids[path[0]], path[1..])
    else None
  }

  lemma {:induction false} WalkFoot(st: Store, h: Handle, v: Value, path: Path)
    requires Models(st, h, v) && Walk(st, h, path).Some?
    ensures v.Node? && Walk(st, h, path).value in Foot(st, h, v)
    decreases |path|
  {
    if path != [] {
      FootKid(st, h, v, path[0]);
      WalkFoot(st, st[h.r].kids[path[0]], v.kids[path[0]], path[1..]);
    }
  }

  lemma {:induction false} WalkFrame(st: Store, c: nat, cell: Cell, h: Handle, v: Value, path: Path)
    requires Models(st, h, v) && c !in Foot(st, h, v)
    ensures Walk(st[c := cell], h, path) == Walk(st, h, path)
    decreases |path|
  {
    if v.Node? && path != [] && path[0] in v.kids {
      FootKid(st, h, v, path[0]);
      WalkFrame(st, c, cell, st[h.r].kids[path[0]], v.kids[path[0]], path[1..]);
    }
  }

  /** The two cells differ at key k at most. */
  ghost predicate OnlyAt(was: Cell, cell: Cell, k: Key) {
    forall j :: j != k ==> (j in cell.kids <==> j in was.kids) && (j in cell.kids ==> cell.kids[j] == was.kids[j])
  }

  lemma WalkKeptHere(st: Store, h: Handle, v: Value, k: Key, cell: Cell, path: Path)
    requires IsTree(st, h, v) && v.Node? && OnlyAt(st[h.r], cell, k)
    requires path == [] || path[0] != k
    ensures Walk(st[h.r := cell], h, path) == Walk(st, h, path)
  {
    if path != [] && path[0] in v.kids {
      FootKid(st, h, v, path[0]);
      WalkFrame(st, h.r, cell, st[h.r].kids[path[0]], v.kids[path[0]], path[1..]);
    }
  }

  /** A write to one key of the container at pp leaves every walk alone that does not pass
      through that key. */
  lemma {:induction false} WalkKept(st: Store, h: Handle, v: Value, pp: Path, k: Key, cell: Cell, path: Path)
    requires IsTree(st, h, v) && Walk(st, h, pp).Some?
    requires Walk(st, h, pp).value in st && OnlyAt(st[Walk(st, h, pp).value], cell, k)
    requires !(pp + [k] <= path)
    ensures Walk(st[Walk(st, h, pp).value := cell], h, path) == Walk(st, h, path)
    decreases |pp|
  {
    var c := Walk(st, h, pp).value;
    if pp == [] {
      assert pp + [k] == [k];
      WalkKeptHere(st, h, v, k, cell, path);
    } else {
      var y := pp[0];
      FootKid(st, h, v, y);
      WalkFoot(st, st[h.r].kids[y], v.kids[y], pp[1..]);
      assert c != h.r;
      if path != [] && path[0] == y {
        assert pp + [k] == [y] + (pp[1..] + [k]);
        assert path == [y] + path[1..];
        WalkKept(st, st[h.r].kids[y], v.kids[y], pp[1..], k, cell, path[1..]);
      } else if path != [] && path[0] in v.kids {
        FootKid(st, h, v, path[0]);
        WalkFrame(st, c, cell, st[h.r].kids[path[0]], v.kids[path[0]], path[1..]);
      }
    }
  }

  // ----- apply_operation on a container

  /** `apply_operation` on the container object itself. */
  function ApplyCell(kind: OpKind, value: Handle, cell: Cell, pos: Key): Option<Cell> {
    match cell.kind
    case Obj(c) =>
      if !pos.StrKey? || pos !in cell.kids then None
      else if kind.Add? && cell.kids[pos] != Prim(NoneP) then None
      else Some(Cell(cell.kind, cell.kids[pos := if kind.Remove? then Prim(NoneP) else value]))
    case List =>
      (match kind
       case Add => Some(Cell(List, cell.kids[IntKey(|cell.kids.Keys|) := value]))
       case Replace => if pos in cell.kids then Some(Cell(List, cell.kids[pos := value])) else None
       case Remove =>
         if pos == IntKey(|cell.kids.Keys| - 1) && pos in cell.kids then Some(Cell(List, cell.kids - {pos})) else None)
    case Dict =>
      if !kind.Remove? then Some(Cell(Dict, cell.kids[pos := value]))
      else if pos in cell.kids then Some(Cell(Dict, cell.kids - {pos}))
      else None
  }

  /** Key k holds the handle x, or nothing. */
  function AssignHandle(kids: map<Key, Handle>, k: Key, x: Option<Handle>): (r: map<Key, Handle>)
    ensures r.Keys == if x.Some? then kids.Keys + {k} else kids.Keys - {k}
    ensures forall j :: j != k ==> (j in r <==> j in kids) && (j in r ==> r[j] == kids[j])
    ensures x.Some? ==> r[k] == x.value
  {
    if x.Some? then kids[k := x.value] else kids - {k}
  }

  function Linked(kind: OpKind, x: Handle): Option<Handle> {
    if kind.Remove? then None else Some(x)
  }

  /** A direct operation that fits the container's value is carried out on its cell. */
  lemma ApplyCellFits(st: Store, h: Handle, v: Value, op: Op, x: Handle)
    requires Models(st, h, v) && |op.path| == 1 && SlotStep(op, Some(v)).Some?
    ensures v.Node?
    ensures ApplyCell(op.kind, x, st[h.r], op.path[0]) ==
            Some(Cell(v.kind, AssignHandle(st[h.r].kids, op.path[0], Linked(op.kind, x))))
  {
    StepShape(op, v);
  }

  // ----- one operation through a reference

  /** What writing the operation's cell does to the graph: it represents the stepped value,
      still without sharing, and takes up no cells but its own and the new value's. */
  ghost predicate Stepped(st: Store, st': Store, h: Handle, v: Value, v': Value, x: Handle, xv: Value)
    requires Models(st, h, v) && Models(st, x, xv)
  {
    IsTree(st', h, v') && Foot(st', h, v') <= Foot(st, h, v) + Foot(st, x, xv)
  }

  /** The slot of key j in the graph at h, before and after. */
  ghost predicate KidStepped(st: Store, st': Store, h: Handle, v: Value, v': Value, x: Handle, xv: Value, j: Key,
                             k: Key)
    requires Models(st, h, v) && Models(st, x, xv) && v.Node? && v'.Node? && j in v'.kids
    requires h.r in st' && j in st'[h.r].kids
  {
    && IsTree(st', st'[h.r].kids[j], v'.kids[j])
    && (j != k ==>
          && j in v.kids
          && Foot(st', st'[h.r].kids[j], v'.kids[j]) == Foot(st, st[h.r].kids[j], v.kids[j]))
    && (j == k ==> Foot(st', st'[h.r].kids[j], v'.kids[j]) <= KidFoot(st, h, v, k) + Foot(st, x, xv))
  }

  ghost function KidFoot(st: Store, h: Handle, v: Value, k: Key): set<nat>
    requires Models(st, h, v) && v.Node?
  {
    if k in v.kids then Foot(st, st[h.r].kids[k], v.kids[k]) else {}
  }

  lemma Assemble(st: Store, st': Store, h: Handle, v: Value, v': Value, x: Handle, xv: Value, k: Key)
    requires IsTree(st, h, v) && Models(st, x, xv) && v.Node? && v'.Node?
    requires Foot(st, x, xv) !! Foot(st, h, v)
    requires h.r in st' && st'[h.r].kind == v'.kind && st'[h.r].kids.Keys == v'.kids.Keys
    requires forall j :: j in v'.kids ==> KidStepped(st, st', h, v, v', x, xv, j, k)
    ensures Stepped(st, st', h, v, v', x, xv)
  {
    forall j | j in v'.kids
      ensures Models(st', st'[h.r].kids[j], v'.kids[j])
      ensures h.r !in Foot(st', st'[h.r].kids[j], v'.kids[j])
      ensures Sep(st', st'[h.r].kids[j], v'.kids[j])
      ensures Foot(st', st'[h.r].kids[j], v'.kids[j]) <= Foot(st, h, v) + Foot(st, x, xv)
    {
      assert KidStepped(st, st', h, v, v', x, xv, j, k);
      if j in v.kids {
        FootKid(st, h, v, j);
      }
    }
    forall i, j | i in v'.kids && j in v'.kids && i != j
      ensures Foot(st', st'[h.r].kids[i], v'.kids[i]) !! Foot(st', st'[h.r].kids[j], v'.kids[j])
    {
      assert KidStepped(st, st', h, v, v', x, xv, i, k) && KidStepped(st, st', h, v, v', x, xv, j, k);
      if i in v.kids {
        FootKid(st, h, v, i);
      }
      if j in v.kids {
        FootKid(st, h, v, j);
      }
    }
    assert Models(st', h, v');
    assert Sep(st', h, v');
  }

  lemma StepHere(st: Store, h: Handle, v: Value, op: Op, x: Handle, v': Value)
    requires IsTree(st, h, v) && |op.path| == 1 && SlotStep(op, Some(v)) == Some(Some(v'))
    requires IsTree(st, x, op.value) && Foot(st, x, op.value) !! Foot(st, h, v)
    ensures v.Node?
    ensures var cell := Cell(v.kind, AssignHandle(st[h.r].kids, op.path[0], Linked(op.kind, x)));
            Stepped(st, st[h.r := cell], h, v, v', x, op.value)
  {
    var k := op.path[0];
    StepShape(op, v);
    var cell := Cell(v.kind, AssignHandle(st[h.r].kids, k, Linked(op.kind, x)));
    var st' := st[h.r := cell];
    assert Tail(op).path == [];
    assert Lookup(v', k) == if op.kind.Remove? then None else Some(op.value);
    Frame(st, h.r, cell, x, op.value);
    forall j | j in v'.kids ensures KidStepped(st, st', h, v, v', x, op.value, j, k) {
      assert Lookup(v', j).Some?;
      if j != k {
        FootKid(st, h, v, j);
        Frame(st, h.r, cell, st[h.r].kids[j], v.kids[j]);
      }
    }
    Assemble(st, st', h, v, v', x, op.value, k);
  }

  /** `apply_operation` on the container reached by walking the operation's parent path
      succeeds, touches one key of it, and steps the value. */
  ghost predicate Through(st: Store, h: Handle, v: Value, op: Op, x: Handle, v': Value)
    requires Models(st, h, v) && Models(st, x, op.value) && op.path != []
  {
    && Walk(st, h, Init(op.path)).Some?
    && var c := Walk(st, h, Init(op.path)).value;
       c in st && c in Foot(st, h, v) && ThroughAt(st, h, v, op.kind, Last(op.path), c, x, op.value, v')
  }

  ghost predicate ThroughAt(st: Store, h: Handle, v: Value, kind: OpKind, k: Key, c: nat, x: Handle, xv: Value,
                            v': Value)
    requires Models(st, h, v) && Models(st, x, xv) && c in st
  {
    && ApplyCell(kind, x, st[c], k).Some?
    && var cell := ApplyCell(kind, x, st[c], k).value;
       OnlyAt(st[c], cell, k) && Stepped(st, st[c := cell], h, v, v', x, xv)
  }

  lemma ThroughHere(st: Store, h: Handle, v: Value, op: Op, x: Handle, v': Value)
    requires IsTree(st, h, v) && |op.path| == 1 && SlotStep(op, Some(v)) == Some(Some(v'))
    requires IsTree(st, x, op.value) && Foot(st, x, op.value) !! Foot(st, h, v)
    ensures Through(st, h, v, op, x, v')
  {
    assert Init(op.path) == [];
    ApplyCellFits(st, h, v, op, x);
    StepHere(st, h, v, op, x, v');
  }

  lemma ThroughBelow(st: Store, h: Handle, v: Value, op: Op, x: Handle, v': Value)
    requires IsTree(st, h, v) && |op.path| > 1 && SlotStep(op, Some(v)) == Some(Some(v'))
    requires Models(st, x, op.value) && Foot(st, x, op.value) !! Foot(st, h, v)
    requires v.Node? && v'.Node? && op.path[0] in v.kids && op.path[0] in v'.kids
    requires Models(st, st[h.r].kids[op.path[0]], v.kids[op.path[0]])
    requires Through(st, st[h.r].kids[op.path[0]], v.kids[op.path[0]], Tail(op), x, v'.kids[op.path[0]])
    ensures Through(st, h, v, op, x, v')
  {
    var k := op.path[0];
    KidValues(op, v, v');
    FootKid(st, h, v, k);
    WalkDown(st, h, op);
    var c := Walk(st, h, Init(op.path)).value;
    StepUp(st, h, v, v', k, c, ApplyCell(op.kind, x, st[c], Last(op.path)).value, x, op.value);
  }

  /** One disciplined operation, carried out through the store. */
  lemma {:induction false} StepThrough(st: Store, h: Handle, v: Value, op: Op, x: Handle, v': Value)
    requires IsTree(st, h, v) && op.path != [] && SlotStep(op, Some(v)) == Some(Some(v'))
    requires IsTree(st, x, op.value) && Foot(st, x, op.value) !! Foot(st, h, v)
    ensures Through(st, h, v, op, x, v')
    decreases |op.path|
  {
    if |op.path| == 1 {
      ThroughHere(st, h, v, op, x, v');
    } else {
      var k := op.path[0];
      KidValues(op, v, v');
      FootKid(st, h, v, k);
      StepThrough(st, st[h.r].kids[k], v.kids[k], Tail(op), x, v'.kids[k]);
      ThroughBelow(st, h, v, op, x, v');
    }
  }

  lemma WalkDown(st: Store, h: Handle, op: Op)
    requires h.Ref? && h.r in st && |op.path| > 1 && op.path[0] in st[h.r].kids
    ensures Walk(st, h, Init(op.path)) == Walk(st, st[h.r].kids[op.path[0]], Init(Tail(op).path))
    ensures Last(op.path) == Last(Tail(op).path)
  {
    assert Init(op.path)[1..] == Init(Tail(op).path);
  }

  lemma KidValues(op: Op, v: Value, v': Value)
    requires |op.path| > 1 && SlotStep(op, Some(v)) == Some(Some(v'))
    ensures v.Node? && v'.Node? && v'.kind == v.kind && v'.kids.Keys == v.kids.Keys && op.path[0] in v.kids
    ensures forall j :: j in v.kids && j != op.path[0] ==> v'.kids[j] == v.kids[j]
    ensures SlotStep(Tail(op), Some(v.kids[op.path[0]])) == Some(Some(v'.kids[op.path[0]]))
  {
    StepShape(op, v);
    var k := op.path[0];
    assert Lookup(v, k).Some?;
    assert Lookup(v', k) == Some(v'.kids[k]);
    forall j | j in v.kids && j != k ensures v'.kids[j] == v.kids[j] {
      assert Lookup(v', j) == Lookup(v, j);
    }
  }

  /** A write inside the graph of one child, seen from the parent. */
  lemma StepUp(st: Store, h: Handle, v: Value, v': Value, k: Key, c: nat, cell: Cell, x: Handle, xv: Value)
    requires IsTree(st, h, v) && Models(st, x, xv) && v.Node? && v'.Node? && v'.kind == v.kind
    requires Foot(st, x, xv) !! Foot(st, h, v)
    requires k in v.kids && v'.kids.Keys == v.kids.Keys
    requires forall j :: j in v.kids && j != k ==> v'.kids[j] == v.kids[j]
    requires c in KidFoot(st, h, v, k)
    requires Stepped(st, st[c := cell], st[h.r].kids[k], v.kids[k], v'.kids[k], x, xv)
    ensures Stepped(st, st[c := cell], h, v, v', x, xv)
  {
    var st' := st[c := cell];
    assert c != h.r;
    forall j | j in v'.kids ensures KidStepped(st, st', h, v, v', x, xv, j, k) {
      if j != k {
        FootKid(st, h, v, j);
        Frame(st, c, cell, st[h.r].kids[j], v.kids[j]);
      }
    }
    Assemble(st, st', h, v, v', x, xv, k);
  }
}
