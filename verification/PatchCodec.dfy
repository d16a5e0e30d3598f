/** The byte form of a patch: a fixed header, the new path-tree nodes, the operations, and
    the values split into primitives and the rest. */
module PatchCodec {
  import opened Values
  import opened Bytes
  import opened ObjectCodec
  import PathTree

  /** A patch as it is stored; `ops` and `paths` are parallel to `values`. */
  datatype StoredPatch = StoredPatch(from: int, to: int, cost: int, ops: seq<int>, paths: seq<nat>, values: seq<Obj>)

  /** A byte encoder of raw values and its decoder, which may raise. */
  datatype Packer = Packer(enc: Raw -> Blob, dec: Blob -> Option<Raw>)

  /** The packer for nodes and primitives, the one inside the object serialiser, and the
      classes that one knows. */
  datatype Codecs = Codecs(plain: Packer, objects: Packer, registry: Registry)

  /** The raw value survives its packer. */
  ghost predicate Kept(c: Packer, r: Raw) {
    c.dec(c.enc(r)) == Some(r)
  }

  /** `is_primitive`: None does not count. */
  predicate IsPrimitive(v: Obj) {
    v.Primitive? && !v.prim.NoneP?
  }

  // ----- the raw form of the parts

  function KeyPrim(k: Key): Prim {
    match k
    case IntKey(i) => IntP(i)
    case StrKey(s) => StrP(s)
  }

  function EntryRaw(e: PathTree.Entry): Raw {
    RList([RPrim(IntP(e.idx)), RPrim(IntP(e.parent)), RPrim(KeyPrim(e.element))])
  }

  function EntryFrom(r: Raw): Option<PathTree.Entry> {
    if r.RList? && |r.items| == 3 && r.items[0].RPrim? && r.items[1].RPrim? && r.items[2].RPrim? then
      match (r.items[0].prim, r.items[1].prim, r.items[2].prim)
      case (IntP(i), IntP(p), IntP(k)) => if i >= 0 && p >= 0 then Some(PathTree.Entry(i, p, IntKey(k))) else None
      case (IntP(i), IntP(p), StrP(k)) => if i >= 0 && p >= 0 then Some(PathTree.Entry(i, p, StrKey(k))) else None
      case _ => None
    else None
  }

  function NodesRaw(nodes: seq<PathTree.Entry>): Raw {
    RList(seq(|nodes|, i requires 0 <= i < |nodes| => EntryRaw(nodes[i])))
  }

  function EntriesFrom(rs: seq<Raw>): Option<seq<PathTree.Entry>> {
    if rs == [] then Some([])
    else match (EntriesFrom(Init(rs)), EntryFrom(Last(rs)))
      case (Some(es), Some(e)) => Some(es + [e])
      case _ => None
  }

  function NodesFrom(r: Option<Raw>): Option<seq<PathTree.Entry>> {
    if r.Some? && r.value.RList? then EntriesFrom(r.value.items) else None
  }

  lemma {:induction false} NodesBack(nodes: seq<PathTree.Entry>)
    ensures NodesFrom(Some(NodesRaw(nodes))) == Some(nodes)
  {
    if nodes != [] {
      NodesBack(Init(nodes));
      assert Init(NodesRaw(nodes).items) == NodesRaw(Init(nodes)).items;
      assert EntryFrom(Last(NodesRaw(nodes).items)) == Some(Last(nodes));
      assert nodes == Init(nodes) + [Last(nodes)];
    }
  }

  function PrimitivesRaw(vs: seq<Obj>): Raw
    requires forall v :: v in vs ==> v.Primitive?
  {
    RList(seq(|vs|, i requires 0 <= i < |vs| => assert vs[i] in vs; RPrim(vs[i].prim)))
  }

  function PrimsFrom(rs: seq<Raw>): Option<seq<Obj>> {
    if rs == [] then Some([])
    else match (PrimsFrom(Init(rs)), Last(rs))
      case (Some(vs), RPrim(p)) => Some(vs + [Primitive(p)])
      case _ => None
  }

  function PrimitivesFrom(r: Option<Raw>): Option<seq<Obj>> {
    if r.Some? && r.value.RList? then PrimsFrom(r.value.items) else None
  }

  lemma {:induction false} PrimitivesBack(vs: seq<Obj>)
    requires forall v :: v in vs ==> v.Primitive?
    ensures PrimitivesFrom(Some(PrimitivesRaw(vs))) == Some(vs)
  {
    if vs != [] {
      PrimitivesBack(Init(vs));
      assert Init(PrimitivesRaw(vs).items) == PrimitivesRaw(Init(vs)).items;
      assert Last(vs) in vs && Last(PrimitivesRaw(vs).items) == RPrim(Last(vs).prim);
      assert vs == Init(vs) + [Last(vs)];
    }
  }

  /** What the object serialiser reads back from a list of values. */
  function ObjectsFrom(registry: Registry, r: Option<Raw>): Option<seq<Obj>> {
    if r.None? then None
    else match FromRaw(registry, r.value)
      case Some(PlainList(items)) => Some(items)
      case _ => None
  }

  /** Read item by item: a list without primitives of its own is never taken for an object. */
  lemma ObjectsItems(registry: Registry, vs: seq<Obj>)
    requires forall v :: v in vs ==> !IsPrimitive(v)
    ensures var r := ObjectsFrom(registry, Some(ToRaw(PlainList(vs))));
            && (r.Some? ==> |r.value| == |vs|)
            && (r.Some? ==> forall i :: 0 <= i < |vs| ==> FromRaw(registry, ToRaw(vs[i])) == Some(r.value[i]))
            && (r.None? ==> exists i :: 0 <= i < |vs| && FromRaw(registry, ToRaw(vs[i])).None?)
  {
    var o := PlainList(vs);
    var ys := ItemsToRaw(o, vs, 0);
    PlainRead(registry, vs, ys);
    ItemsRaw(o, vs, 0);
    ItemsRead(registry, RList(ys), ys, 0);
    assert forall i :: 0 <= i < |vs| ==> ys[i] == ToRaw(vs[i]);
    if ItemsFromRaw(registry, RList(ys), ys, 0).None? {
      var j :| 0 <= j < |ys| && FromRaw(registry, ys[j]).None?;
      assert FromRaw(registry, ToRaw(vs[j])).None?;
    }
  }

  lemma PlainRead(registry: Registry, vs: seq<Obj>, ys: seq<Raw>)
    requires (forall v :: v in vs ==> !IsPrimitive(v)) && ys == ItemsToRaw(PlainList(vs), vs, 0)
    ensures ObjectsFrom(registry, Some(ToRaw(PlainList(vs)))) == ItemsFromRaw(registry, RList(ys), ys, 0)
  {
    assert ToRaw(PlainList(vs)) == RList(ys);
    if vs != [] {
      assert vs[0] in vs;
      MarkerHead(vs[0]);
      assert ys[0] == ToRaw(vs[0]);
    }
  }

  lemma {:induction false} ItemsRaw(o: Obj, xs: seq<Obj>, i: nat)
    requires i <= |xs| && forall j :: 0 <= j < |xs| ==> xs[j] < o
    ensures forall j :: i <= j < |xs| ==> ItemsToRaw(o, xs, i)[j - i] == ToRaw(xs[j])
    decreases |xs| - i
  {
    if i < |xs| {
      ItemsRaw(o, xs, i + 1);
      forall j | i <= j < |xs| ensures ItemsToRaw(o, xs, i)[j - i] == ToRaw(xs[j]) {
        if j > i {
          assert ItemsToRaw(o, xs, i)[j - i] == ItemsToRaw(o, xs, i + 1)[j - (i + 1)];
        }
      }
    }
  }

  lemma {:induction false} ItemsRead(registry: Registry, r: Raw, ys: seq<Raw>, i: nat)
    requires i <= |ys| && forall j :: 0 <= j < |ys| ==> ys[j] < r
    ensures var items := ItemsFromRaw(registry, r, ys, i);
            && (items.Some? ==> forall j :: i <= j < |ys| ==> FromRaw(registry, ys[j]) == Some(items.value[j - i]))
            && (items.None? ==> exists j :: i <= j < |ys| && FromRaw(registry, ys[j]).None?)
    decreases |ys| - i
  {
    if i < |ys| {
      ItemsRead(registry, r, ys, i + 1);
    }
  }

  // ----- splitting and merging the values

  function Kinds(vs: seq<Obj>): Blob {
    if vs == [] then [] else Kinds(Init(vs)) + [if IsPrimitive(Last(vs)) then 0 else 1]
  }

  /** Each value is marked by the part it goes into: primitives other than None into one, everything
      else into the other. */
  lemma {:induction false} KindsOf(vs: seq<Obj>, i: nat)
    requires i < |vs|
    ensures |Kinds(vs)| == |vs|
    ensures Kinds(vs)[i] == if vs[i].Primitive? && vs[i].prim != NoneP then 0 else 1
    ensures vs[i] in Picked(vs, vs[i].Primitive? && vs[i].prim != NoneP)
    ensures |Picked(vs, true)| + |Picked(vs, false)| == |vs|
  {
    if |vs| > 1 {
      KindsOf(Init(vs), if i < |vs| - 1 then i else 0);
    } else {
      assert Init(vs) == [];
    }
  }

  function Picked(vs: seq<Obj>, primitive: bool): seq<Obj> {
    if vs == [] then []
    else if IsPrimitive(Last(vs)) == primitive then Picked(Init(vs), primitive) + [Last(vs)]
    else Picked(Init(vs), primitive)
  }

  lemma KindsNext(vs: seq<Obj>, i: nat)
    requires i < |vs|
    ensures Kinds(vs[..i + 1]) == Kinds(vs[..i]) + [if IsPrimitive(vs[i]) then 0 else 1]
    ensures Picked(vs[..i + 1], true) ==
              if IsPrimitive(vs[i]) then Picked(vs[..i], true) + [vs[i]] else Picked(vs[..i], true)
    ensures Picked(vs[..i + 1], false) ==
              if IsPrimitive(vs[i]) then Picked(vs[..i], false) else Picked(vs[..i], false) + [vs[i]]
  {
    assert Init(vs[..i + 1]) == vs[..i] && Last(vs[..i + 1]) == vs[i];
  }

  method SplitValues(vs: seq<Obj>) returns (kinds: Blob, primitives: seq<Obj>, complexes: seq<Obj>)
    ensures kinds == Kinds(vs) && primitives == Picked(vs, true) && complexes == Picked(vs, false)
  {
    kinds, primitives, complexes := [], [], [];
    for i := 0 to |vs|
      invariant kinds == Kinds(vs[..i]) && primitives == Picked(vs[..i], true) && complexes == Picked(vs[..i], false)
    {
      KindsNext(vs, i);
      if IsPrimitive(vs[i]) {
        kinds, primitives := kinds + [0], primitives + [vs[i]];
      } else {
        kinds, complexes := kinds + [1], complexes + [vs[i]];
      }
    }
    assert vs[..|vs|] == vs;
  }

  lemma {:induction false} PickedPrefix(vs: seq<Obj>, n: nat, primitive: bool)
    requires n <= |vs|
    ensures Picked(vs[..n], primitive) <= Picked(vs, primitive)
    ensures |Kinds(vs)| == |vs| && Kinds(vs)[..n] == Kinds(vs[..n])
  {
    if n == |vs| {
      assert vs[..n] == vs;
      if n > 0 {
        PickedPrefix(Init(vs), n - 1, primitive);
      }
      assert Kinds(vs)[..n] == Kinds(vs);
    } else {
      assert Init(vs)[..n] == vs[..n];
      PickedPrefix(Init(vs), n, primitive);
    }
  }

  /** How many of the values before i are not primitives. */
  ghost function Rank(vs: seq<Obj>, i: nat): nat
    requires i <= |vs|
  {
    |Picked(vs[..i], false)|
  }

  /** The merge loop of `deserialize`: the values are filled in from the two lists in order; it
      raises where one of them is too short.  The primitives that were split off come back in
      their places, and the others are those of the list of the others. */
  method MergeValues(kinds: Blob, primitives: seq<Obj>, complexes: seq<Obj>, ghost vs: seq<Obj>)
    returns (r: Option<seq<Obj>>)
    requires kinds == Kinds(vs)
    ensures primitives == Picked(vs, true) && |complexes| == |Picked(vs, false)| ==>
              r.Some? && Merged(vs, complexes, r.value)
    ensures primitives == Picked(vs, true) && complexes == Picked(vs, false) ==> r == Some(vs)
  {
    PickedPrefix(vs, 0, true);
    ghost var split := primitives == Picked(vs, true) && |complexes| == |Picked(vs, false)|;
    var out: seq<Obj> := [];
    var p, c := 0, 0;
    for i := 0 to |kinds|
      invariant |out| == i && (split ==> p == |Picked(vs[..i], true)| && c == Rank(vs, i))
      invariant split ==> forall j :: 0 <= j < i ==> MergedAt(vs, complexes, j, out[j])
    {
      NextValue(vs, i);
      if kinds[i] == 0 {
        if p >= |primitives| {
          return None;
        }
        out := out + [primitives[p]];
        p := p + 1;
      } else {
        if c >= |complexes| {
          return None;
        }
        out := out + [complexes[c]];
        c := c + 1;
      }
    }
    if split && complexes == Picked(vs, false) {
      assert forall i :: 0 <= i < |vs| ==> MergedAt(vs, complexes, i, out[i]);
      assert out == vs;
    }
    return Some(out);
  }

  ghost predicate MergedAt(vs: seq<Obj>, complexes: seq<Obj>, i: nat, x: Obj)
    requires i < |vs|
  {
    if IsPrimitive(vs[i]) then x == vs[i]
    else
      && Rank(vs, i) < |complexes| && Rank(vs, i) < |Picked(vs, false)|
      && x == complexes[Rank(vs, i)] && vs[i] == Picked(vs, false)[Rank(vs, i)]
  }

  /** r has the primitives of vs in their places and the others filled in. */
  ghost predicate Merged(vs: seq<Obj>, complexes: seq<Obj>, r: seq<Obj>) {
    |r| == |vs| && forall i :: 0 <= i < |vs| ==> MergedAt(vs, complexes, i, r[i])
  }

  lemma NextValue(vs: seq<Obj>, i: nat)
    requires i < |vs|
    ensures |Kinds(vs)| == |vs| && Kinds(vs)[i] == if IsPrimitive(vs[i]) then 0 else 1
    ensures var picked, before := Picked(vs, IsPrimitive(vs[i])), Picked(vs[..i], IsPrimitive(vs[i]));
            |before| < |picked| && picked[|before|] == vs[i]
    ensures Picked(vs[..i + 1], IsPrimitive(vs[i])) == Picked(vs[..i], IsPrimitive(vs[i])) + [vs[i]]
    ensures Picked(vs[..i + 1], !IsPrimitive(vs[i])) == Picked(vs[..i], !IsPrimitive(vs[i]))
  {
    KindsNext(vs, i);
    PickedPrefix(vs, i + 1, IsPrimitive(vs[i]));
    assert Kinds(vs)[i] == Kinds(vs)[..i + 1][i];
  }

  // ----- operations and paths as arrays

  predicate FitsInt8(n: int) {
    -128 <= n < 128
  }

  function Int8(n: int): Byte
    requires FitsInt8(n)
  {
    if n < 0 then n + 256 else n
  }

  function UnInt8(b: int): int {
    if b < 128 then b else b - 256
  }

  /** An int8 array. */
  function OpBytes(ops: seq<int>): (r: Blob)
    requires forall i :: 0 <= i < |ops| ==> FitsInt8(ops[i])
    ensures |r| == |ops|
  {
    seq(|ops|, i requires 0 <= i < |ops| => Int8(ops[i]))
  }

  function OpsFrom(b: Blob): (r: seq<int>)
    ensures |r| == |b|
  {
    seq(|b|, i requires 0 <= i < |b| => UnInt8(b[i]))
  }

  lemma OpsRoundTrip(ops: seq<int>)
    requires forall i :: 0 <= i < |ops| ==> FitsInt8(ops[i])
    ensures OpsFrom(OpBytes(ops)) == ops
  {
    forall i | 0 <= i < |ops| ensures OpsFrom(OpBytes(ops))[i] == ops[i] {
    }
  }

  /** A uint32 array. */
  function PathBytes(paths: seq<nat>): (r: Blob)
    ensures |r| == 4 * |paths|
  {
    if paths == [] then [] else ToLe(paths[0], 4) + PathBytes(paths[1..])
  }

  function PathsFrom(b: Blob): seq<nat> {
    if |b| < 4 then [] else [FromLe(b[..4])] + PathsFrom(b[4..])
  }

  lemma {:induction false} PathsRoundTrip(paths: seq<nat>)
    requires forall i :: 0 <= i < |paths| ==> paths[i] < 0x1_0000_0000
    ensures PathsFrom(PathBytes(paths)) == paths
  {
    if paths != [] {
      var b := PathBytes(paths);
      assert b[..4] == ToLe(paths[0], 4) && b[4..] == PathBytes(paths[1..]);
      PowerValues();
      LeRoundTrip(paths[0], 4);
      PathsRoundTrip(paths[1..]);
    }
  }

  // ----- the whole patch

  predicate FitsUint32(n: nat) {
    n < 0x1_0000_0000
  }

  function Counted(b: Blob): Blob {
    ToLe(|b|, 4) + b
  }

  function NodeBytes(nodes: seq<PathTree.Entry>, c: Codecs): Blob {
    c.plain.enc(NodesRaw(nodes))
  }

  function PrimitiveBytes(vs: seq<Obj>, c: Codecs): Blob {
    PickedKind(vs, true);
    c.plain.enc(PrimitivesRaw(Picked(vs, true)))
  }

  function ObjectBytes(vs: seq<Obj>, c: Codecs): Blob {
    c.objects.enc(ToRaw(PlainList(Picked(vs, false))))
  }

  lemma {:induction false} PickedKind(vs: seq<Obj>, primitive: bool)
    ensures forall v :: v in Picked(vs, primitive) ==> v in vs && IsPrimitive(v) == primitive
  {
    if vs != [] {
      PickedKind(Init(vs), primitive);
    }
  }

  /** A patch whose numbers fit their fields; its cost is never 0. */
  predicate Storable(p: StoredPatch, nodes: seq<PathTree.Entry>, c: Codecs) {
    && FitsInt64(p.from) && FitsInt64(p.to) && FitsInt32(p.cost) && p.cost != 0
    && |p.ops| == |p.paths| == |p.values| && FitsUint32(|p.ops|)
    && (forall i :: 0 <= i < |p.ops| ==> FitsInt8(p.ops[i]) && FitsUint32(p.paths[i]))
    && FitsUint32(|NodeBytes(nodes, c)|) && FitsUint32(|PrimitiveBytes(p.values, c)|)
    && FitsUint32(|ObjectBytes(p.values, c)|)
  }

  ghost function Header(p: StoredPatch): (r: Blob)
    requires FitsInt64(p.from) && FitsInt64(p.to) && FitsInt32(p.cost)
    ensures |r| == 24
  {
    Int64(p.from) + Int64(p.to) + Int32(p.cost) + ToLe(|p.ops|, 4)
  }

  ghost function Arrays(p: StoredPatch): Blob
    requires forall i :: 0 <= i < |p.ops| ==> FitsInt8(p.ops[i])
  {
    OpBytes(p.ops) + PathBytes(p.paths) + Kinds(p.values)
  }

  ghost function ValueBytes(p: StoredPatch, c: Codecs): Blob {
    Counted(PrimitiveBytes(p.values, c)) + Counted(ObjectBytes(p.values, c))
  }

  /** The bytes of a patch. */
  ghost predicate Encodes(b: Blob, p: StoredPatch, nodes: seq<PathTree.Entry>, c: Codecs) {
    Storable(p, nodes, c) && b == Header(p) + Counted(NodeBytes(nodes, c)) + Arrays(p) + ValueBytes(p, c)
  }

  /** `serialize`. */
  method Serialize(p: StoredPatch, nodes: seq<PathTree.Entry>, c: Codecs) returns (b: Blob)
    requires Storable(p, nodes, c)
    ensures Encodes(b, p, nodes, c)
  {
    b := Int64(p.from) + Int64(p.to) + Int32(p.cost) + ToLe(|p.ops|, 4);
    b := b + Counted(NodeBytes(nodes, c));
    var kinds, primitives, complexes := SplitValues(p.values);
    b := b + (OpBytes(p.ops) + PathBytes(p.paths) + kinds);
    PickedKind(p.values, true);
    b := b + (Counted(c.plain.enc(PrimitivesRaw(primitives))) + Counted(c.objects.enc(ToRaw(PlainList(complexes)))));
  }

  method ReadCounted(reader: BinaryReader, ghost b: Blob, ghost rest: Blob) returns (r: Blob)
    requires FitsUint32(|b|) && reader.pos <= |reader.data| && reader.data[reader.pos..] == Counted(b) + rest
    modifies reader
    ensures r == b && reader.pos <= |reader.data| && reader.data[reader.pos..] == rest
  {
    Assoc(ToLe(|b|, 4), b, rest);
    var n := reader.Take(4, ToLe(|b|, 4), b + rest);
    PowerValues();
    LeRoundTrip(|b|, 4);
    r := reader.Take(FromLe(n), b, rest);
  }

  method ReadHeader(reader: BinaryReader, ghost p: StoredPatch, ghost rest: Blob)
    returns (from: int, to: int, cost: int, count: nat)
    requires FitsInt64(p.from) && FitsInt64(p.to) && FitsInt32(p.cost) && FitsUint32(|p.ops|)
    requires reader.pos <= |reader.data| && reader.data[reader.pos..] == Header(p) + rest
    modifies reader
    ensures from == p.from && to == p.to && cost == p.cost && count == |p.ops|
    ensures reader.pos <= |reader.data| && reader.data[reader.pos..] == rest
  {
    ghost var a, b, c, d := Int64(p.from), Int64(p.to), Int32(p.cost), ToLe(|p.ops|, 4);
    assert a + b + c + d + rest == a + (b + (c + (d + rest)));
    var x := reader.Take(8, a, b + (c + (d + rest)));
    var y := reader.Take(8, b, c + (d + rest));
    var z := reader.Take(4, c, d + rest);
    var n := reader.Take(4, d, rest);
    Int64RoundTrip(p.from);
    Int64RoundTrip(p.to);
    Int32RoundTrip(p.cost);
    PowerValues();
    LeRoundTrip(|p.ops|, 4);
    from, to, cost, count := UnInt64(x), UnInt64(y), UnInt32(z), FromLe(n);
  }

  method ReadArrays(reader: BinaryReader, count: nat, ghost p: StoredPatch, ghost rest: Blob)
    returns (ops: seq<int>, paths: seq<nat>, kinds: Blob)
    requires count == |p.ops| == |p.paths| == |p.values|
    requires forall i :: 0 <= i < |p.ops| ==> FitsInt8(p.ops[i]) && FitsUint32(p.paths[i])
    requires reader.pos <= |reader.data| && reader.data[reader.pos..] == Arrays(p) + rest
    modifies reader
    ensures ops == p.ops && paths == p.paths && kinds == Kinds(p.values)
    ensures reader.pos <= |reader.data| && reader.data[reader.pos..] == rest
  {
    ghost var a, b, c := OpBytes(p.ops), PathBytes(p.paths), Kinds(p.values);
    PickedPrefix(p.values, 0, true);
    assert a + b + c + rest == a + (b + (c + rest));
    var x := reader.Take(count, a, b + (c + rest));
    var y := reader.Take(count * 4, b, c + rest);
    kinds := reader.Take(count, c, rest);
    OpsRoundTrip(p.ops);
    PathsRoundTrip(p.paths);
    ops, paths := OpsFrom(x), PathsFrom(y);
  }

  /** The raw forms survive the packers, and the values are of registered classes. */
  ghost predicate Readable(p: StoredPatch, nodes: seq<PathTree.Entry>, c: Codecs) {
    PickedKind(p.values, true);
    && Kept(c.plain, NodesRaw(nodes)) && Kept(c.plain, PrimitivesRaw(Picked(p.values, true)))
    && Kept(c.objects, ToRaw(PlainList(Picked(p.values, false))))
    && (forall v :: v in p.values ==> Typed(c.registry, v))
  }

  /** What `deserialize` gives back of a readable patch: the times, the cost, the operations, the
      paths and the new nodes, and exactly those values in which no plain list starts with the
      marker; it raises only if there is another value. */
  ghost predicate GivesBack(p: StoredPatch, nodes: seq<PathTree.Entry>, r: Option<(StoredPatch, seq<PathTree.Entry>)>) {
    && (r == Some((p, nodes)) <==> forall v :: v in p.values ==> Unambiguous(v))
    && (r.Some? ==> r.value.0 == p.(values := r.value.0.values) && r.value.1 == nodes)
    && (r.Some? ==> |r.value.0.values| == |p.values|)
    && (r.Some? ==> forall i :: 0 <= i < |p.values| ==>
          (r.value.0.values[i] == p.values[i] <==> Unambiguous(p.values[i])))
  }

  /** `deserialize`. */
  method Deserialize(b: Blob, c: Codecs, ghost p: StoredPatch, ghost nodes: seq<PathTree.Entry>)
    returns (r: Option<(StoredPatch, seq<PathTree.Entry>)>)
    requires Encodes(b, p, nodes, c)
    ensures Readable(p, nodes, c) ==> GivesBack(p, nodes, r)
  {
    var head, x, kinds, y, z := ReadParts(b, c, p, nodes);
    var vs := ReadValues(kinds, y, z, c, p, nodes);
    NodesBack(nodes);
    var newNodes := NodesFrom(c.plain.dec(x));
    if vs.None? || newNodes.None? {
      return None;
    }
    if Readable(p, nodes, c) {
      SameValues(p.values, vs.value);
    }
    r := Some((head.(values := vs.value), newNodes.value));
  }

  /** The parts of a stored patch; the values still as their kinds and two blobs. */
  method ReadParts(b: Blob, c: Codecs, ghost p: StoredPatch, ghost nodes: seq<PathTree.Entry>)
    returns (head: StoredPatch, x: Blob, kinds: Blob, y: Blob, z: Blob)
    requires Encodes(b, p, nodes, c)
    ensures head == p.(values := []) && x == NodeBytes(nodes, c) && kinds == Kinds(p.values)
    ensures y == PrimitiveBytes(p.values, c) && z == ObjectBytes(p.values, c)
  {
    var reader := new BinaryReader(b);
    assert b[0..] == b;
    Sections(Header(p), Counted(NodeBytes(nodes, c)), Arrays(p), ValueBytes(p, c));
    var from, to, cost, count := ReadHeader(reader, p, Counted(NodeBytes(nodes, c)) + (Arrays(p) + ValueBytes(p, c)));
    x := ReadCounted(reader, NodeBytes(nodes, c), Arrays(p) + ValueBytes(p, c));
    var ops, paths;
    ops, paths, kinds := ReadArrays(reader, count, p, ValueBytes(p, c));
    y, z := ReadBlobs(reader, p, c);
    head := StoredPatch(from, to, if cost == 0 then (if count == 0 then 1 else count) else cost, ops, paths, []);
  }

  lemma Sections(a: Blob, b: Blob, c: Blob, d: Blob)
    ensures a + b + c + d == a + (b + (c + d))
  {
  }

  /** The two blobs of the values, at the end of the patch. */
  method ReadBlobs(reader: BinaryReader, ghost p: StoredPatch, c: Codecs) returns (y: Blob, z: Blob)
    requires FitsUint32(|PrimitiveBytes(p.values, c)|) && FitsUint32(|ObjectBytes(p.values, c)|)
    requires reader.pos <= |reader.data| && reader.data[reader.pos..] == ValueBytes(p, c)
    modifies reader
    ensures y == PrimitiveBytes(p.values, c) && z == ObjectBytes(p.values, c)
  {
    y := ReadCounted(reader, PrimitiveBytes(p.values, c), Counted(ObjectBytes(p.values, c)));
    assert reader.data[reader.pos..] == Counted(ObjectBytes(p.values, c)) + [];
    z := ReadCounted(reader, ObjectBytes(p.values, c), []);
  }

  lemma SameValues(vs: seq<Obj>, r: seq<Obj>)
    requires SameWhereClear(vs, r)
    ensures r == vs <==> forall v :: v in vs ==> Unambiguous(v)
  {
    if forall v :: v in vs ==> Unambiguous(v) {
      forall i | 0 <= i < |vs| ensures r[i] == vs[i] {
        assert vs[i] in vs;
      }
    }
  }

  /** The values of `deserialize`, from their kinds and their two blobs. */
  method ReadValues(kinds: Blob, y: Blob, z: Blob, c: Codecs, ghost p: StoredPatch,
                    ghost nodes: seq<PathTree.Entry>) returns (r: Option<seq<Obj>>)
    requires kinds == Kinds(p.values) && y == PrimitiveBytes(p.values, c) && z == ObjectBytes(p.values, c)
    ensures Readable(p, nodes, c) ==>
              && (r.None? ==> exists v :: v in p.values && !Unambiguous(v))
              && (r.Some? ==> SameWhereClear(p.values, r.value))
  {
    var primitives := PrimitivesFrom(c.plain.dec(y));
    var complexes := ObjectsFrom(c.registry, c.objects.dec(z));
    if Readable(p, nodes, c) {
      ReadBack(c, p, nodes, primitives, complexes);
    }
    if primitives.None? || complexes.None? {
      return None;
    }
    r := MergeValues(kinds, primitives.value, complexes.value, p.values);
    if Readable(p, nodes, c) {
      ClearExactly(c, p, nodes, complexes.value, r.value);
    }
  }

  ghost predicate SameWhereClear(vs: seq<Obj>, r: seq<Obj>) {
    |r| == |vs| && forall i :: 0 <= i < |vs| ==> (r[i] == vs[i] <==> Unambiguous(vs[i]))
  }

  /** The other values, read one by one. */
  ghost predicate ReadOneByOne(registry: Registry, others: seq<Obj>, complexes: Option<seq<Obj>>) {
    && (complexes.Some? ==> |complexes.value| == |others|)
    && (complexes.Some? ==>
          forall i :: 0 <= i < |others| ==> FromRaw(registry, ToRaw(others[i])) == Some(complexes.value[i]))
    && (complexes.None? ==> exists i :: 0 <= i < |others| && FromRaw(registry, ToRaw(others[i])).None?)
  }

  lemma ReadBack(c: Codecs, p: StoredPatch, nodes: seq<PathTree.Entry>, primitives: Option<seq<Obj>>,
                 complexes: Option<seq<Obj>>)
    requires Readable(p, nodes, c)
    requires primitives == PrimitivesFrom(c.plain.dec(PrimitiveBytes(p.values, c)))
    requires complexes == ObjectsFrom(c.registry, c.objects.dec(ObjectBytes(p.values, c)))
    ensures primitives == Some(Picked(p.values, true))
    ensures ReadOneByOne(c.registry, Picked(p.values, false), complexes)
    ensures complexes.None? ==> exists v :: v in p.values && !Unambiguous(v)
  {
    var others := Picked(p.values, false);
    PickedKind(p.values, true);
    PickedKind(p.values, false);
    PrimitivesBack(Picked(p.values, true));
    ObjectsItems(c.registry, others);
    if complexes.None? {
      var i :| 0 <= i < |others| && FromRaw(c.registry, ToRaw(others[i])).None?;
      assert others[i] in others;
      RoundTrip(c.registry, others[i]);
    }
  }

  lemma ClearExactly(c: Codecs, p: StoredPatch, nodes: seq<PathTree.Entry>, complexes: seq<Obj>, r: seq<Obj>)
    requires Readable(p, nodes, c) && ReadOneByOne(c.registry, Picked(p.values, false), Some(complexes))
    requires Merged(p.values, complexes, r)
    ensures SameWhereClear(p.values, r)
  {
    forall i | 0 <= i < |r| ensures r[i] == p.values[i] <==> Unambiguous(p.values[i]) {
      assert p.values[i] in p.values && MergedAt(p.values, complexes, i, r[i]);
      RoundTrip(c.registry, p.values[i]);
    }
  }

  /** `extract_tree_nodes`: the new nodes alone, from their fixed offset behind the header. */
  method ExtractTreeNodes(b: Blob, c: Codecs, ghost p: StoredPatch, ghost nodes: seq<PathTree.Entry>)
    returns (r: Option<seq<PathTree.Entry>>)
    requires Encodes(b, p, nodes, c)
    ensures Kept(c.plain, NodesRaw(nodes)) ==> r == Some(nodes)
  {
    var offset := 24;
    ghost var nb := NodeBytes(nodes, c);
    AtOffset(b, Header(p), nb, Arrays(p) + ValueBytes(p, c));
    NodesBack(nodes);
    var n := FromLe(b[offset..offset + 4]);
    r := NodesFrom(c.plain.dec(b[offset + 4..offset + 4 + n]));
  }

  lemma AtOffset(b: Blob, header: Blob, nb: Blob, rest: Blob)
    requires |header| == 24 && FitsUint32(|nb|) && b == header + Counted(nb) + rest
    ensures |b| >= 28 + |nb| && FromLe(b[24..28]) == |nb| && b[28..28 + |nb|] == nb
  {
    assert b[24..28] == ToLe(|nb|, 4);
    PowerValues();
    LeRoundTrip(|nb|, 4);
    assert b[28..28 + |nb|] == nb;
  }
}
