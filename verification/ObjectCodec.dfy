/** Game objects and their raw form of nested lists.  A registered type is written as a list
    that starts with a marker; a plain list that starts with the marker by accident is taken
    for one. */
module ObjectCodec {
  import opened Values

  /** How a registered class is written. */
  datatype Category = Dataclass(fields: nat) | ListClass | DictClass | ScalarClass | PointClass

  type Registry = map<int, Category>

  datatype Pair = Pair(key: Obj, value: Obj)

  /** Datetimes, timedeltas and enums are scalars: one primitive. */
  datatype Obj =
    | Primitive(prim: Prim)
    | PlainList(items: seq<Obj>)
    | PlainDict(pairs: seq<Pair>)
    | Record(id: int, attrs: seq<Obj>)
    | TypedList(id: int, items: seq<Obj>)
    | TypedDict(id: int, pairs: seq<Pair>)
    | Scalar(id: int, payload: Prim)
    | Point(id: int, x: Prim, y: Prim)

  datatype Raw = RPrim(prim: Prim) | RList(items: seq<Raw>) | RDict(entries: seq<Raw>)

  const MARKER := IntP(-1)

  /** What compares equal to the marker. */
  predicate IsMarker(r: Raw) {
    r == RPrim(MARKER) || r == RPrim(RealP(-1.0))
  }

  /** Every registered object is of a class whose category and number of attributes fit. */
  ghost predicate Typed(reg: Registry, o: Obj)
    decreases o
  {
    match o
    case Primitive(_) => true
    case PlainList(xs) => forall i :: 0 <= i < |xs| ==> Typed(reg, xs[i])
    case PlainDict(ps) => forall i :: 0 <= i < |ps| ==> Typed(reg, ps[i].key) && Typed(reg, ps[i].value)
    case Record(id, xs) =>
      id in reg && reg[id] == Dataclass(|xs|) && forall i :: 0 <= i < |xs| ==> Typed(reg, xs[i])
    case TypedList(id, xs) => id in reg && reg[id].ListClass? && forall i :: 0 <= i < |xs| ==> Typed(reg, xs[i])
    case TypedDict(id, ps) =>
      && id in reg && reg[id].DictClass?
      && forall i :: 0 <= i < |ps| ==> Typed(reg, ps[i].key) && Typed(reg, ps[i].value)
    case Scalar(id, _) => id in reg && reg[id].ScalarClass?
    case Point(id, _, _) => id in reg && reg[id].PointClass?
  }

  /** No plain list of length two or more starts with the marker. */
  ghost predicate Unambiguous(o: Obj)
    decreases o
  {
    match o
    case Primitive(_) => true
    case PlainList(xs) =>
      && !(|xs| >= 2 && xs[0].Primitive? && IsMarker(RPrim(xs[0].prim)))
      && forall i :: 0 <= i < |xs| ==> Unambiguous(xs[i])
    case PlainDict(ps) => forall i :: 0 <= i < |ps| ==> Unambiguous(ps[i].key) && Unambiguous(ps[i].value)
    case Record(_, xs) => forall i :: 0 <= i < |xs| ==> Unambiguous(xs[i])
    case TypedList(_, xs) => forall i :: 0 <= i < |xs| ==> Unambiguous(xs[i])
    case TypedDict(_, ps) => forall i :: 0 <= i < |ps| ==> Unambiguous(ps[i].key) && Unambiguous(ps[i].value)
    case Scalar(_, _) => true
    case Point(_, _, _) => true
  }

  // ----- writing

  function Tagged(id: int, rest: seq<Raw>): Raw {
    RList([RPrim(MARKER), RPrim(IntP(id))] + rest)
  }

  /** `_to_raw`. */
  function ToRaw(o: Obj): Raw
    decreases o, 1
  {
    match o
    case Primitive(p) => RPrim(p)
    case PlainList(xs) => RList(ItemsToRaw(o, xs, 0))
    case PlainDict(ps) => RDict(PairsToRaw(o, ps, 0))
    case Record(id, xs) => Tagged(id, ItemsToRaw(o, xs, 0))
    case TypedList(id, xs) => Tagged(id, [RList(ItemsToRaw(o, xs, 0))])
    case TypedDict(id, ps) => Tagged(id, [RList(PairsToRaw(o, ps, 0))])
    case Scalar(id, p) => Tagged(id, [RPrim(p)])
    case Point(id, x, y) => Tagged(id, [RPrim(x), RPrim(y)])
  }

  function ItemsToRaw(o: Obj, xs: seq<Obj>, i: nat): (r: seq<Raw>)
    requires i <= |xs| && forall j :: 0 <= j < |xs| ==> xs[j] < o
    ensures |r| == |xs| - i
    decreases o, 0, |xs| - i
  {
    if i == |xs| then [] else [ToRaw(xs[i])] + ItemsToRaw(o, xs, i + 1)
  }

  function PairsToRaw(o: Obj, ps: seq<Pair>, i: nat): (r: seq<Raw>)
    requires i <= |ps| && forall j :: 0 <= j < |ps| ==> ps[j].key < o && ps[j].value < o
    ensures |r| == |ps| - i
    decreases o, 0, |ps| - i
  {
    if i == |ps| then [] else [RList([ToRaw(ps[i].key), ToRaw(ps[i].value)])] + PairsToRaw(o, ps, i + 1)
  }

  // ----- reading

  /** `_from_raw`; None where it raises. */
  function FromRaw(reg: Registry, r: Raw): Option<Obj>
    decreases r, 1
  {
    match r
    case RPrim(p) => Some(Primitive(p))
    case RDict(es) =>
      (match PairsFromRaw(reg, r, es, 0)
       case None => None
       case Some(ps) => Some(PlainDict(ps)))
    case RList(xs) =>
      if |xs| >= 2 && IsMarker(xs[0]) then FromTagged(reg, r, xs)
      else match ItemsFromRaw(reg, r, xs, 0)
        case None => None
        case Some(items) => Some(PlainList(items))
  }

  /** `_from_raw_registered`. */
  function FromTagged(reg: Registry, r: Raw, xs: seq<Raw>): (o: Option<Obj>)
    requires |xs| >= 2 && forall j :: 0 <= j < |xs| ==> xs[j] < r
    ensures o.Some? ==> !o.value.PlainList? && !o.value.Primitive?
    decreases r, 0, |xs|
  {
    if !xs[1].RPrim? || !xs[1].prim.IntP? || xs[1].prim.i !in reg then None
    else
      var id := xs[1].prim.i;
      match reg[id]
      case Dataclass(n) =>
        if |xs| < n + 2 then None
        else (match ItemsFromRaw(reg, r, xs[2..2 + n], 0)
              case None => None
              case Some(items) => Some(Record(id, items)))
      case ListClass =>
        if |xs| < 3 || !xs[2].RList? then None
        else (match ItemsFromRaw(reg, xs[2], xs[2].items, 0)
              case None => None
              case Some(items) => Some(TypedList(id, items)))
      case DictClass =>
        if |xs| < 3 || !xs[2].RList? then None
        else (match PairsFromRaw(reg, xs[2], xs[2].items, 0)
              case None => None
              case Some(ps) => Some(TypedDict(id, ps)))
      case ScalarClass => if |xs| < 3 || !xs[2].RPrim? then None else Some(Scalar(id, xs[2].prim))
      case PointClass =>
        if |xs| < 4 || !xs[2].RPrim? || !xs[3].RPrim? then None else Some(Point(id, xs[2].prim, xs[3].prim))
  }

  function ItemsFromRaw(reg: Registry, r: Raw, ys: seq<Raw>, i: nat): (o: Option<seq<Obj>>)
    requires i <= |ys| && forall j :: 0 <= j < |ys| ==> ys[j] < r
    ensures o.Some? ==> |o.value| == |ys| - i
    decreases r, 0, |ys| - i
  {
    if i == |ys| then Some([])
    else match FromRaw(reg, ys[i])
      case None => None
      case Some(x) =>
        match ItemsFromRaw(reg, r, ys, i + 1)
        case None => None
        case Some(rest) => Some([x] + rest)
  }

  function PairsFromRaw(reg: Registry, r: Raw, ys: seq<Raw>, i: nat): (o: Option<seq<Pair>>)
    requires i <= |ys| && forall j :: 0 <= j < |ys| ==> ys[j] < r
    ensures o.Some? ==> |o.value| == |ys| - i
    decreases r, 0, |ys| - i
  {
    if i == |ys| then Some([])
    else if !ys[i].RList? || |ys[i].items| != 2 then None
    else
      var k, v := FromRaw(reg, ys[i].items[0]), FromRaw(reg, ys[i].items[1]);
      if k.None? || v.None? then None
      else match PairsFromRaw(reg, r, ys, i + 1)
        case None => None
        case Some(rest) => Some([Pair(k.value, v.value)] + rest)
  }

  // ----- the round trip

  ghost predicate AllClear(xs: seq<Obj>, i: nat) {
    forall j :: i <= j < |xs| ==> Unambiguous(xs[j])
  }

  ghost predicate PairsClear(ps: seq<Pair>, i: nat) {
    forall j :: i <= j < |ps| ==> Unambiguous(ps[j].key) && Unambiguous(ps[j].value)
  }

  lemma {:induction false} ItemsBack(reg: Registry, o: Obj, xs: seq<Obj>, i: nat, r: Raw, ys: seq<Raw>, k: nat)
    requires i <= |xs| && (forall j :: 0 <= j < |xs| ==> xs[j] < o && Typed(reg, xs[j]))
    requires k <= |ys| && (forall j :: 0 <= j < |ys| ==> ys[j] < r) && ys[k..] == ItemsToRaw(o, xs, i)
    ensures ItemsFromRaw(reg, r, ys, k) == Some(xs[i..]) <==> AllClear(xs, i)
    decreases o, 0, |xs| - i
  {
    if i == |xs| {
      assert xs[i..] == [];
    } else {
      RoundTrip(reg, xs[i]);
      assert ys[k] == ys[k..][0] == ToRaw(xs[i]);
      assert ys[k + 1..] == ys[k..][1..] == ItemsToRaw(o, xs, i + 1);
      ItemsBack(reg, o, xs, i + 1, r, ys, k + 1);
      assert xs[i..] == [xs[i]] + xs[i + 1..];
      ClearNext(xs, i);
      Split(ItemsFromRaw(reg, r, ys, k), FromRaw(reg, ys[k]), ItemsFromRaw(reg, r, ys, k + 1), xs[i], xs[i + 1..]);
    }
  }

  lemma ClearNext(xs: seq<Obj>, i: nat)
    requires i < |xs|
    ensures AllClear(xs, i) <==> Unambiguous(xs[i]) && AllClear(xs, i + 1)
  {
  }

  lemma Split<T>(all: Option<seq<T>>, head: Option<T>, tail: Option<seq<T>>, x: T, xs: seq<T>)
    requires all == if head.None? || tail.None? then None else Some([head.value] + tail.value)
    ensures all == Some([x] + xs) <==> head == Some(x) && tail == Some(xs)
  {
    if all == Some([x] + xs) {
      assert ([x] + xs)[0] == x && ([x] + xs)[1..] == xs;
      assert ([head.value] + tail.value)[0] == head.value && ([head.value] + tail.value)[1..] == tail.value;
    }
  }

  lemma {:induction false} PairsBack(reg: Registry, o: Obj, ps: seq<Pair>, i: nat, r: Raw, ys: seq<Raw>, k: nat)
    requires i <= |ps|
    requires forall j :: 0 <= j < |ps| ==>
               ps[j].key < o && ps[j].value < o && Typed(reg, ps[j].key) && Typed(reg, ps[j].value)
    requires k <= |ys| && (forall j :: 0 <= j < |ys| ==> ys[j] < r) && ys[k..] == PairsToRaw(o, ps, i)
    ensures PairsFromRaw(reg, r, ys, k) == Some(ps[i..]) <==> PairsClear(ps, i)
    decreases o, 0, |ps| - i
  {
    if i == |ps| {
      assert ps[i..] == [];
    } else {
      RoundTrip(reg, ps[i].key);
      RoundTrip(reg, ps[i].value);
      assert ys[k] == ys[k..][0];
      assert ys[k + 1..] == ys[k..][1..] == PairsToRaw(o, ps, i + 1);
      PairsBack(reg, o, ps, i + 1, r, ys, k + 1);
      assert ps[i..] == [ps[i]] + ps[i + 1..];
      PairsNext(ps, i);
      var a, b := FromRaw(reg, ys[k].items[0]), FromRaw(reg, ys[k].items[1]);
      var head := if a.None? || b.None? then None else Some(Pair(a.value, b.value));
      Split(PairsFromRaw(reg, r, ys, k), head, PairsFromRaw(reg, r, ys, k + 1), ps[i], ps[i + 1..]);
    }
  }

  lemma PairsNext(ps: seq<Pair>, i: nat)
    requires i < |ps|
    ensures PairsClear(ps, i) <==> Unambiguous(ps[i].key) && Unambiguous(ps[i].value) && PairsClear(ps, i + 1)
  {
  }

  lemma {:induction false} PlainListBack(reg: Registry, o: Obj)
    requires Typed(reg, o) && o.PlainList?
    ensures FromRaw(reg, ToRaw(o)) == Some(o) <==> Unambiguous(o)
    decreases o, 0, |o.items| + 1
  {
    var xs, ys := o.items, ItemsToRaw(o, o.items, 0);
    assert ys[0..] == ys && xs[0..] == xs;
    ItemsBack(reg, o, xs, 0, RList(ys), ys, 0);
    if |xs| >= 2 {
      assert ys[0] == ToRaw(xs[0]);
      MarkerHead(xs[0]);
    }
    assert Unambiguous(o) <==> AllClear(xs, 0) && !(|xs| >= 2 && IsMarker(ys[0]));
  }

  lemma {:induction false} PlainDictBack(reg: Registry, o: Obj)
    requires Typed(reg, o) && o.PlainDict?
    ensures FromRaw(reg, ToRaw(o)) == Some(o) <==> Unambiguous(o)
    decreases o, 0, |o.pairs| + 1
  {
    var ps, ys := o.pairs, PairsToRaw(o, o.pairs, 0);
    assert ys[0..] == ys && ps[0..] == ps;
    PairsBack(reg, o, ps, 0, RDict(ys), ys, 0);
    assert Unambiguous(o) <==> PairsClear(ps, 0);
  }

  lemma {:induction false} RecordBack(reg: Registry, o: Obj)
    requires Typed(reg, o) && o.Record?
    ensures FromRaw(reg, ToRaw(o)) == Some(o) <==> Unambiguous(o)
    decreases o, 0, |o.attrs| + 1
  {
    var xs, ys := o.attrs, ItemsToRaw(o, o.attrs, 0);
    var r := Tagged(o.id, ys);
    assert r.items[2..2 + |xs|] == ys && ys[0..] == ys && xs[0..] == xs;
    ItemsBack(reg, o, xs, 0, r, ys, 0);
    assert FromRaw(reg, r) == FromTagged(reg, r, r.items);
    assert Unambiguous(o) <==> AllClear(xs, 0);
  }

  lemma {:induction false} TypedListBack(reg: Registry, o: Obj)
    requires Typed(reg, o) && o.TypedList?
    ensures FromRaw(reg, ToRaw(o)) == Some(o) <==> Unambiguous(o)
    decreases o, 0, |o.items| + 1
  {
    var xs, ys := o.items, ItemsToRaw(o, o.items, 0);
    var r := Tagged(o.id, [RList(ys)]);
    assert r.items[2] == RList(ys) && ys[0..] == ys && xs[0..] == xs;
    ItemsBack(reg, o, xs, 0, RList(ys), ys, 0);
    assert FromRaw(reg, r) == FromTagged(reg, r, r.items);
    assert Unambiguous(o) <==> AllClear(xs, 0);
  }

  lemma {:induction false} TypedDictBack(reg: Registry, o: Obj)
    requires Typed(reg, o) && o.TypedDict?
    ensures FromRaw(reg, ToRaw(o)) == Some(o) <==> Unambiguous(o)
    decreases o, 0, |o.pairs| + 1
  {
    var ps, ys := o.pairs, PairsToRaw(o, o.pairs, 0);
    var r := Tagged(o.id, [RList(ys)]);
    assert r.items[2] == RList(ys) && ys[0..] == ys && ps[0..] == ps;
    PairsBack(reg, o, ps, 0, RList(ys), ys, 0);
    assert FromRaw(reg, r) == FromTagged(reg, r, r.items);
    assert Unambiguous(o) <==> PairsClear(ps, 0);
  }

  /** `_from_raw` undoes `_to_raw` on a value of registered types exactly when no plain list
      in it starts with the marker. */
  lemma {:induction false} RoundTrip(reg: Registry, o: Obj)
    requires Typed(reg, o)
    ensures FromRaw(reg, ToRaw(o)) == Some(o) <==> Unambiguous(o)
    decreases o, 1
  {
    match o
    case Primitive(_) =>
    case PlainList(_) => PlainListBack(reg, o);
    case PlainDict(_) => PlainDictBack(reg, o);
    case Record(_, _) => RecordBack(reg, o);
    case TypedList(_, _) => TypedListBack(reg, o);
    case TypedDict(_, _) => TypedDictBack(reg, o);
    case Scalar(_, _) =>
    case Point(_, _, _) =>
  }

  lemma MarkerHead(o: Obj)
    ensures IsMarker(ToRaw(o)) <==> o.Primitive? && IsMarker(RPrim(o.prim))
  {
  }
}
