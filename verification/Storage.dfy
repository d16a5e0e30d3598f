/** The replay file: a byte buffer edited in place.

    Layout: metadata, initial state and path tree (the latter two compressed), the patch
    index, the data pool and the last state, each preceded by its length.  Appending writes
    over the last state and updates the index and the pool's length where they stand; the
    last state is written anew behind the pool when recording stops. */
module Storage {
  import opened Values
  import opened Bytes

  // ----- metadata

  datatype Metadata = Metadata(start: int, last: int, max: int, current: int, indexStart: int, fragmented: bool,
                               mapId: Blob)

  const META_SIZE := 61

  predicate FitsMeta(m: Metadata) {
    FitsInt32(m.start) && FitsInt32(m.last) && FitsInt32(m.max) && FitsInt32(m.current) && FitsInt32(m.indexStart)
  }

  function Zeros(n: nat): Blob {
    seq(n, i => 0)
  }

  /** The first 40 bytes, filled up with zeros. */
  function Pad40(s: Blob): (r: Blob)
    ensures |r| == 40
  {
    if |s| >= 40 then s[..40] else s + Zeros(40 - |s|)
  }

  function StripZeros(s: Blob): Blob {
    if s != [] && Last(s) == 0 then StripZeros(Init(s)) else s
  }

  function SerializeMeta(m: Metadata): (r: Blob)
    requires FitsMeta(m)
    ensures |r| == META_SIZE
  {
    Int32(m.start) + Int32(m.last) + Int32(m.max) + Int32(m.current) + Int32(m.indexStart)
    + [if m.fragmented then 1 else 0] + Pad40(m.mapId)
  }

  function DeserializeMeta(b: Blob): Metadata
    requires |b| == META_SIZE
  {
    Metadata(UnInt32(b[0..4]), UnInt32(b[4..8]), UnInt32(b[8..12]), UnInt32(b[12..16]), UnInt32(b[16..20]),
             b[20] != 0, StripZeros(b[21..]))
  }

  /** An identifier the fixed-width field can hold. */
  predicate FitsId(id: Blob) {
    |id| <= 40 && (id == [] || Last(id) != 0)
  }

  lemma {:induction false} StripPadded(s: Blob, n: nat)
    ensures StripZeros(s + Zeros(n)) == StripZeros(s)
  {
    if n == 0 {
      assert s + Zeros(n) == s;
    } else {
      assert Init(s + Zeros(n)) == s + Zeros(n - 1);
      StripPadded(s, n - 1);
    }
  }

  lemma {:induction false} StripBound(s: Blob)
    ensures |StripZeros(s)| <= |s|
    ensures StripZeros(s) == [] || Last(StripZeros(s)) != 0
  {
    if s != [] && Last(s) == 0 {
      StripBound(Init(s));
    }
  }

  lemma IdRoundTrip(id: Blob)
    ensures StripZeros(Pad40(id)) == id <==> FitsId(id)
  {
    StripBound(Pad40(id));
    if |id| <= 40 {
      StripPadded(id, 40 - |id|);
      assert Pad40(id) == id + Zeros(40 - |id|);
    }
  }

  /** Metadata comes back exactly when its identifier fits: longer ones are cut, trailing
      zeros are lost. */
  lemma MetaRoundTrip(m: Metadata)
    requires FitsMeta(m)
    ensures DeserializeMeta(SerializeMeta(m)) == m <==> FitsId(m.mapId)
  {
    var b := SerializeMeta(m);
    assert b[0..4] == Int32(m.start) && b[4..8] == Int32(m.last) && b[8..12] == Int32(m.max);
    assert b[12..16] == Int32(m.current) && b[16..20] == Int32(m.indexStart) && b[21..] == Pad40(m.mapId);
    Int32RoundTrip(m.start);
    Int32RoundTrip(m.last);
    Int32RoundTrip(m.max);
    Int32RoundTrip(m.current);
    Int32RoundTrip(m.indexStart);
    IdRoundTrip(m.mapId);
  }

  // ----- the patch index

  datatype Entry = Entry(offset: nat, size: nat)

  const ENTRY_SIZE := 12

  predicate FitsEntry(e: Entry) {
    e.offset < 0x1_0000_0000_0000_0000 && e.size < 0x1_0000_0000
  }

  /** The index as bytes: a uint64 and a uint32 per entry. */
  function EncodeIndex(es: seq<Entry>): (r: Blob)
    ensures |r| == ENTRY_SIZE * |es|
  {
    if es == [] then [] else ToLe(es[0].offset, 8) + ToLe(es[0].size, 4) + EncodeIndex(es[1..])
  }

  function DecodeIndex(b: Blob): (es: seq<Entry>)
    ensures |es| == |b| / ENTRY_SIZE
  {
    if |b| < ENTRY_SIZE then [] else [Entry(FromLe(b[..8]), FromLe(b[8..12]))] + DecodeIndex(b[12..])
  }

  lemma {:induction false} IndexRoundTrip(es: seq<Entry>)
    requires forall i :: 0 <= i < |es| ==> FitsEntry(es[i])
    ensures DecodeIndex(EncodeIndex(es)) == es
  {
    if es != [] {
      var b := EncodeIndex(es);
      assert b[..8] == ToLe(es[0].offset, 8) && b[8..12] == ToLe(es[0].size, 4) && b[12..] == EncodeIndex(es[1..]);
      PowerValues();
      LeRoundTrip(es[0].offset, 8);
      LeRoundTrip(es[0].size, 4);
      IndexRoundTrip(es[1..]);
    }
  }

  // ----- the data pool

  ghost function Concat(ps: seq<Blob>): Blob {
    if ps == [] then [] else Concat(Init(ps)) + Last(ps)
  }

  lemma {:induction false} ConcatPrefix(ps: seq<Blob>, n: nat)
    requires n <= |ps|
    ensures Concat(ps[..n]) <= Concat(ps)
  {
    if n == |ps| {
      assert ps[..n] == ps;
    } else {
      assert Init(ps)[..n] == ps[..n];
      ConcatPrefix(Init(ps), n);
    }
  }

  lemma ConcatNext(ps: seq<Blob>, n: nat)
    requires n < |ps|
    ensures Concat(ps[..n + 1]) == Concat(ps[..n]) + ps[n]
  {
    assert Init(ps[..n + 1]) == ps[..n] && Last(ps[..n + 1]) == ps[n];
  }

  /** The index says where each patch lies in the pool, in order; the rest of it is empty. */
  ghost predicate Indexes(es: seq<Entry>, ps: seq<Blob>) {
    && |ps| <= |es|
    && (forall i :: 0 <= i < |ps| ==> ps[i] != [] && es[i] == Entry(|Concat(ps[..i])|, |ps[i]|))
    && (forall i :: |ps| <= i < |es| ==> es[i] == Entry(0, 0))
  }

  lemma IndexesNext(es: seq<Entry>, ps: seq<Blob>, p: Blob)
    requires Indexes(es, ps) && |ps| < |es| && p != []
    ensures Indexes(es[|ps| := Entry(|Concat(ps)|, |p|)], ps + [p])
  {
    var es', ps' := es[|ps| := Entry(|Concat(ps)|, |p|)], ps + [p];
    forall i | 0 <= i < |ps'| ensures ps'[i] != [] && es'[i] == Entry(|Concat(ps'[..i])|, |ps'[i]|) {
      SameStart(ps, p, i);
    }
  }

  lemma SameStart(ps: seq<Blob>, p: Blob, i: nat)
    requires i <= |ps|
    ensures (ps + [p])[..i] == ps[..i] && ps[..|ps|] == ps
  {
  }

  /** The offset after the last entry is the end of the pool. */
  lemma EndOfPool(es: seq<Entry>, ps: seq<Blob>)
    requires Indexes(es, ps) && |ps| > 0
    ensures |Concat(ps)| == es[|ps| - 1].offset + es[|ps| - 1].size
  {
    ConcatNext(ps, |ps| - 1);
    assert ps[..|ps|] == ps;
  }

  lemma {:induction false} ConcatAppend(a: seq<Blob>, b: seq<Blob>)
    ensures Concat(a + b) == Concat(a) + Concat(b)
  {
    if b == [] {
      assert a + b == a;
    } else {
      assert Init(a + b) == a + Init(b) && Last(a + b) == Last(b);
      ConcatAppend(a, Init(b));
      assert Concat(a) + Concat(Init(b)) + Last(b) == Concat(a) + (Concat(Init(b)) + Last(b));
    }
  }

  lemma IndexFits(es: seq<Entry>, ps: seq<Blob>)
    requires Indexes(es, ps) && FitsInt32(|Concat(ps)|)
    ensures forall i :: 0 <= i < |es| ==> FitsEntry(es[i])
  {
    forall i | 0 <= i < |ps| ensures FitsEntry(es[i]) {
      ConcatNext(ps, i);
      ConcatPrefix(ps, i + 1);
    }
  }

  /** The serialisation loop of an append: each new patch starts where the one before it
      ends.  It fails when the index is full. */
  method FillIndex(es: seq<Entry>, current: nat, nodes: seq<Blob>, ghost ps: seq<Blob>)
    returns (r: Option<seq<Entry>>, more: Blob, count: nat)
    requires Indexes(es, ps) && current == |ps| && forall i :: 0 <= i < |nodes| ==> nodes[i] != []
    ensures r.Some? <==> current + |nodes| <= |es|
    ensures r.Some? ==> Indexes(r.value, ps + nodes) && |r.value| == |es| && more == Concat(nodes)
    ensures r.Some? ==> count == current + |nodes|
    ensures r.None? ==> count == |es|
  {
    var filled := es;
    more := [];
    assert ps + nodes[..0] == ps;
    for i := 0 to |nodes|
      invariant current + i <= |es| == |filled| && Indexes(filled, ps + nodes[..i]) && more == Concat(nodes[..i])
    {
      if current + i >= |filled| {
        return None, more, current + i;
      }
      filled := FillNext(filled, current + i, nodes[i], ps + nodes[..i]);
      assert ps + nodes[..i] + [nodes[i]] == ps + nodes[..i + 1];
      ConcatNext(nodes, i);
      more := more + nodes[i];
    }
    assert nodes[..|nodes|] == nodes;
    return Some(filled), more, current + |nodes|;
  }

  method FillNext(es: seq<Entry>, k: nat, p: Blob, ghost ps: seq<Blob>) returns (r: seq<Entry>)
    requires Indexes(es, ps) && k == |ps| < |es| && p != []
    ensures Indexes(r, ps + [p]) && |r| == |es|
  {
    if k > 0 {
      EndOfPool(es, ps);
    }
    IndexesNext(es, ps, p);
    var offset := if k == 0 then 0 else es[k - 1].offset + es[k - 1].size;
    r := es[k := Entry(offset, |p|)];
  }

  lemma SliceAt(es: seq<Entry>, ps: seq<Blob>, i: nat)
    requires Indexes(es, ps) && i < |ps|
    ensures es[i].offset + es[i].size <= |Concat(ps)|
    ensures Concat(ps)[es[i].offset..es[i].offset + es[i].size] == ps[i]
  {
    ConcatNext(ps, i);
    ConcatPrefix(ps, i + 1);
    var a, b := Concat(ps[..i]), Concat(ps);
    assert b[..|a| + |ps[i]|] == a + ps[i];
  }

  /** The index bytes describe these patches. */
  ghost predicate IndexEncodes(index: Blob, ps: seq<Blob>) {
    Indexes(DecodeIndex(index), ps) && |index| == ENTRY_SIZE * |DecodeIndex(index)|
  }

  lemma Encodes(es: seq<Entry>, ps: seq<Blob>)
    requires Indexes(es, ps) && FitsInt32(|Concat(ps)|)
    ensures IndexEncodes(EncodeIndex(es), ps)
  {
    IndexFits(es, ps);
    IndexRoundTrip(es);
  }

  /** The new index bytes, the bytes to append and the new count, or failure when the index
      is full. */
  method Reindex(index: Blob, current: nat, nodes: seq<Blob>, ghost ps: seq<Blob>)
    returns (r: Option<Blob>, more: Blob, count: nat, ghost es: seq<Entry>)
    requires IndexEncodes(index, ps) && current == |ps| && forall i :: 0 <= i < |nodes| ==> nodes[i] != []
    ensures r.Some? <==> |ps| + |nodes| <= |index| / ENTRY_SIZE
    ensures count == if r.Some? then |ps| + |nodes| else |index| / ENTRY_SIZE
    ensures r.Some? ==> |r.value| == |index| && Concat(ps + nodes) == Concat(ps) + more && more == Concat(nodes)
    ensures r.Some? ==> Indexes(es, ps + nodes) && r.value == EncodeIndex(es)
    ensures r.Some? && FitsInt32(|Concat(ps + nodes)|) ==> IndexEncodes(r.value, ps + nodes)
  {
    var filled;
    filled, more, count := FillIndex(DecodeIndex(index), current, nodes, ps);
    if filled.None? {
      return None, more, count, [];
    }
    es := filled.value;
    ConcatAppend(ps, nodes);
    if FitsInt32(|Concat(ps + nodes)|) {
      Encodes(es, ps + nodes);
    }
    r := Some(EncodeIndex(filled.value));
  }

  /** The loop of `load_patches` and `load_path_tree`: slice the pool entry by entry up to
      the first empty one. */
  method SlicePool(es: seq<Entry>, pool: Blob, ghost ps: seq<Blob>) returns (r: seq<Blob>)
    requires Indexes(es, ps) && pool == Concat(ps)
    ensures r == ps
  {
    r := [];
    for i := 0 to |es|
      invariant i <= |ps| && r == ps[..i]
    {
      var e := es[i];
      if e.size == 0 {
        break;
      }
      SliceAt(es, ps, i);
      r := r + [pool[e.offset..e.offset + e.size]];
    }
    assert ps[..|ps|] == ps;
  }

  // ----- the buffer

  function Sized(b: Blob): Blob
    requires FitsInt32(|b|)
  {
    Int32(|b|) + b
  }

  /** A compressor and its inverse; decompressing may fail on other bytes. */
  datatype Codec = Codec(compress: Blob -> Blob, decompress: Blob -> Option<Blob>)

  ghost predicate Inverse(c: Codec) {
    forall b :: c.decompress(c.compress(b)) == Some(b)
  }

  /** The bytes before the index: metadata, initial state, path tree, the index's size. */
  ghost predicate IsFront(front: Blob, codec: Codec, meta: Blob, initial: Blob, tree: Blob, indexSize: nat) {
    var i, t := codec.compress(initial), codec.compress(tree);
    && |meta| == META_SIZE && FitsInt32(|i|) && FitsInt32(|t|) && FitsInt32(indexSize)
    && front == Sized(meta) + Sized(i) + Sized(t) + Int32(indexSize)
  }

  /** The buffer starts with these parts. */
  ghost predicate Laid(data: Blob, front: Blob, index: Blob, pool: Blob)
    requires FitsInt32(|pool|)
  {
    front + index + Int32(|pool|) + pool <= data
  }

  /** The parts are followed by a last state, given compressed. */
  ghost predicate LaidLast(data: Blob, front: Blob, index: Blob, pool: Blob, c: Blob)
    requires FitsInt32(|pool|) && FitsInt32(|c|)
  {
    front + index + Int32(|pool|) + pool + Sized(c) <= data
  }

  lemma PoolSize(data: Blob, front: Blob, index: Blob, pool: Blob, at: nat)
    requires FitsInt32(|pool|) && Laid(data, front, index, pool) && at == |front| + |index|
    ensures at + 4 + |pool| <= |data| && UnInt32(data[at..at + 4]) == |pool|
  {
    var body := front + index + Int32(|pool|) + pool;
    assert data[..|body|] == body;
    assert data[at..at + 4] == body[at..at + 4] == Int32(|pool|);
    Int32RoundTrip(|pool|);
  }

  /** Write a last state behind the pool. */
  method WriteLast(data: Blob, pos: nat, c: Blob, ghost front: Blob, ghost index: Blob, ghost pool: Blob)
    returns (r: Blob)
    requires FitsInt32(|pool|) && FitsInt32(|c|) && Laid(data, front, index, pool)
    requires pos == |front| + |index| + 4 + |pool|
    ensures LaidLast(r, front, index, pool, c) && Laid(r, front, index, pool)
  {
    ghost var body := front + index + Int32(|pool|) + pool;
    ghost var rest;
    r, rest := WriteBehind(data, pos, Int32(|c|) + c, body);
    Assoc(body, Int32(|c|) + c, rest);
  }

  /** The first two edits of an append: pool bytes behind the pool, then the index. */
  method AppendBytes(data: Blob, indexAt: nat, end: nat, more: Blob, index': Blob,
                     ghost front: Blob, ghost index: Blob, ghost pool: Blob) returns (r: Blob)
    requires FitsInt32(|pool|) && Laid(data, front, index, pool)
    requires |index'| == |index| && indexAt == |front| && end == |front| + |index| + 4 + |pool|
    ensures front + index' + Int32(|pool|) + (pool + more) <= r && Laid(r, front, index', pool)
  {
    ghost var size := Int32(|pool|);
    ghost var rest;
    r, rest := WriteBehind(data, end, more, front + index + size + pool);
    ghost var tail := pool + more + rest;
    Regroup(front, index, size, pool, more, rest);
    r := Overwrite(r, indexAt, index', front, index, size + tail);
    Assoc(front + index', size, tail);
    Assoc(front + index' + size, pool + more, rest);
    Assoc(front + index' + size, pool, more);
  }

  /** The third edit: the pool's size. */
  method SetPoolSize(data: Blob, at: nat, size': Blob, ghost front: Blob, ghost index: Blob, ghost pool: Blob,
                     ghost more: Blob)
    returns (r: Blob)
    requires FitsInt32(|pool|) && FitsInt32(|pool| + |more|) && size' == Int32(|pool| + |more|) && at == |front + index|
    requires front + index + Int32(|pool|) + (pool + more) <= data
    ensures Laid(r, front, index, pool + more)
  {
    ghost var size := Int32(|pool|);
    ghost var rest := data[|front + index + size + (pool + more)|..];
    assert data == front + index + size + (pool + more) + rest;
    Assoc(front + index + size, pool + more, rest);
    r := Overwrite(data, at, size', front + index, size, pool + more + rest);
    Assoc(front + index + size', pool + more, rest);
  }

  lemma Regroup(a: Blob, b: Blob, c: Blob, d: Blob, e: Blob, f: Blob)
    ensures a + b + c + d + e + f == a + b + (c + (d + e + f))
  {
  }

  /** The front behind the metadata. */
  ghost function Behind(codec: Codec, initial: Blob, tree: Blob, indexSize: nat): Blob
    requires FitsInt32(|codec.compress(initial)|) && FitsInt32(|codec.compress(tree)|) && FitsInt32(indexSize)
  {
    Sized(codec.compress(initial)) + Sized(codec.compress(tree)) + Int32(indexSize)
  }

  lemma FrontParts(front: Blob, codec: Codec, meta: Blob, initial: Blob, tree: Blob, indexSize: nat)
    requires IsFront(front, codec, meta, initial, tree, indexSize)
    ensures front == Int32(META_SIZE) + meta + Behind(codec, initial, tree, indexSize)
  {
  }

  lemma MetaParts(data: Blob, front: Blob, index: Blob, pool: Blob, m: Blob, behind: Blob) returns (rest: Blob)
    requires |m| == META_SIZE && front == Int32(META_SIZE) + m + behind && FitsInt32(|pool|)
    requires Laid(data, front, index, pool)
    ensures data == Int32(META_SIZE) + m + (behind + (index + Int32(|pool|) + pool + rest))
    ensures UnInt32(data[0..4]) == META_SIZE
  {
    var body := front + index + Int32(|pool|) + pool;
    rest := data[|body|..];
    assert data == data[..|body|] + rest;
    assert data == Int32(META_SIZE) + m + (behind + (index + Int32(|pool|) + pool + rest));
    assert data[0..4] == Int32(META_SIZE);
    Int32RoundTrip(META_SIZE);
  }

  lemma MetaLaid(data: Blob, front: Blob, index: Blob, pool: Blob, m: Blob, behind: Blob, rest: Blob)
    requires FitsInt32(|pool|) && front == Int32(META_SIZE) + m + behind
    requires data == Int32(META_SIZE) + m + (behind + (index + Int32(|pool|) + pool + rest))
    ensures Laid(data, front, index, pool)
  {
    assert data == front + index + Int32(|pool|) + pool + rest;
  }

  /** What a complete file holds. */
  datatype Contents = Contents(meta: Metadata, initial: Blob, tree: Blob, index: Blob, pool: Blob, last: Blob)

  class ReplayStorage {
    var data: Blob
    var meta: Metadata
    var index: Blob
    const codec: Codec

    // What has been recorded, and the metadata bytes that stand in the buffer.
    ghost var initial: Blob
    ghost var tree: Blob
    ghost var patches: seq<Blob>
    ghost var stored: Blob

    ghost var front: Blob
    ghost var pool: Blob

    ghost predicate FrontOk()
      reads this
    {
      IsFront(front, codec, stored, initial, tree, |index|) && meta.indexStart == |front|
    }

    ghost predicate IndexOk()
      reads this
    {
      pool == Concat(patches) && meta.current == |patches| && IndexEncodes(index, patches)
    }

    /** The buffer holds what has been recorded, the index included. */
    ghost predicate Valid()
      reads this
    {
      Inverse(codec) && FrontOk() && IndexOk() && FitsInt32(|pool|) && Laid(data, front, index, pool)
    }

    /** The buffer is complete, with this last state. */
    ghost predicate Closed(last: Blob)
      reads this
    {
      && Valid() && FitsMeta(meta) && stored == SerializeMeta(meta)
      && FitsInt32(|codec.compress(last)|)
      && LaidLast(data, front, index, pool, codec.compress(last))
    }

    /** `write_last_game_state`: behind the pool, over whatever is there. */
    method WriteLastGameState(last: Blob) returns (ok: bool)
      requires Valid()
      modifies `data
      ensures Valid()
      ensures ok <==> FitsInt32(|codec.compress(last)|)
      ensures ok ==> LaidLast(data, front, index, pool, codec.compress(last))
    {
      var c := codec.compress(last);
      if !FitsInt32(|c|) {
        return false;
      }
      var at: nat := meta.indexStart + |index|;
      PoolSize(data, front, index, pool, at);
      var pos: nat := at + UnInt32(data[at..at + 4]) + 4;
      data := WriteLast(data, pos, c, front, index, pool);
      return true;
    }

    /** `append_patches_to_disk`: the patches join the recorded ones, in order, unless the
        index is full or the pool outgrows its size field.  A full index leaves the bytes alone
        but counts the patches up to its end.  A pool that is too large is noticed last: index,
        count and bytes are then those of an append, only the pool's size is the old one. */
    method AppendPatches(nodes: seq<Blob>) returns (ok: bool, ghost es: seq<Entry>)
      requires Valid() && forall i :: 0 <= i < |nodes| ==> nodes[i] != []
      modifies this
      ensures ok <==> |old(patches)| + |nodes| <= |index| / ENTRY_SIZE && FitsInt32(|Concat(old(patches) + nodes)|)
      ensures |index| == |old(index)|
      ensures ok ==> Valid() && patches == old(patches) + nodes && initial == old(initial) && tree == old(tree)
      ensures ok ==> meta == old(meta).(current := |patches|)
      ensures |old(patches)| + |nodes| > |index| / ENTRY_SIZE ==>
                data == old(data) && index == old(index) && meta == old(meta).(current := |index| / ENTRY_SIZE)
      ensures !ok && |old(patches)| + |nodes| <= |index| / ENTRY_SIZE ==>
                && meta == old(meta).(current := |old(patches)| + |nodes|) && patches == old(patches)
                && index == EncodeIndex(es) && Indexes(es, old(patches) + nodes)
                && FrontOk() && pool == Concat(patches) && FitsInt32(|pool|)
                && front + index + Int32(|pool|) + (pool + Concat(nodes)) <= data
    {
      var index', more, count;
      index', more, count, es := Reindex(index, meta.current, nodes, patches);
      if index'.None? {
        meta := meta.(current := count);
        return false, es;
      }
      ok := Store(index'.value, more, count, patches + nodes);
    }

    /** What an append does once the index is computed. */
    method Store(index': Blob, more: Blob, count: nat, ghost all: seq<Blob>) returns (ok: bool)
      requires Valid() && |index'| == |index| && Concat(all) == pool + more && count == |all|
      requires FitsInt32(|Concat(all)|) ==> IndexEncodes(index', all)
      modifies `data, `index, `pool, `meta, `patches
      ensures ok <==> FitsInt32(|Concat(all)|)
      ensures index == index' && meta == old(meta).(current := count) && patches == (if ok then all else old(patches))
      ensures ok ==> Valid()
      ensures !ok ==>
                && FrontOk() && pool == Concat(patches) && FitsInt32(|pool|)
                && front + index + Int32(|pool|) + (pool + more) <= data
    {
      meta := meta.(current := count);
      ok := Commit(index', more);
      if ok {
        patches := all;
      }
    }

    /** The edits of the buffer; the last one fails if the pool outgrows its size field. */
    method Commit(index': Blob, more: Blob) returns (ok: bool)
      requires FrontOk() && FitsInt32(|pool|) && Laid(data, front, index, pool) && |index'| == |index|
      modifies `data, `index, `pool
      ensures ok <==> FitsInt32(|old(pool)| + |more|)
      ensures FrontOk() && index == index' && pool == (if ok then old(pool) + more else old(pool))
      ensures FitsInt32(|pool|) && Laid(data, front, index, pool)
      ensures !ok ==> front + index + Int32(|pool|) + (pool + more) <= data
    {
      var at: nat := meta.indexStart + |index'|;
      PoolSize(data, front, index, pool, at);
      var size: nat := UnInt32(data[at..at + 4]);
      data := AppendBytes(data, meta.indexStart, at + 4 + size, more, index', front, index, pool);
      index := index';
      if !FitsInt32(size + |more|) {
        return false;
      }
      data := SetPoolSize(data, at, Int32(size + |more|), front, index, pool, more);
      pool := pool + more;
      return true;
    }

    /** `update_metadata`: the header is overwritten where it stands. */
    method UpdateMetadata() returns (ok: bool)
      requires Valid()
      modifies `data, `stored, `front
      ensures Valid() && (ok <==> FitsMeta(meta)) && (ok ==> stored == SerializeMeta(meta))
    {
      if !FitsMeta(meta) {
        return false;
      }
      ghost var behind := Behind(codec, initial, tree, |index|);
      FrontParts(front, codec, stored, initial, tree, |index|);
      ghost var rest := MetaParts(data, front, index, pool, stored, behind);
      data := PutHeader(data, SerializeMeta(meta), stored, behind, index, pool, rest);
      stored := SerializeMeta(meta);
      front := Int32(META_SIZE) + stored + behind;
      NewFront(codec, stored, initial, tree, |index|);
      return true;
    }

    /** `collapse_append_mode`: metadata, then the last state.  It is refused when the
        segment is full. */
    method CollapseAppendMode(last: Blob) returns (ok: bool)
      requires Valid()
      modifies `data, `stored, `front
      ensures Valid()
      ensures ok <==> meta.current < meta.max && FitsMeta(meta) && FitsInt32(|codec.compress(last)|)
      ensures ok ==> Closed(last)
    {
      if meta.current >= meta.max {
        return false;
      }
      ok := UpdateMetadata();
      if ok {
        ok := WriteLastGameState(last);
      }
    }

    constructor (codec: Codec, meta: Metadata)
      ensures this.codec == codec && this.meta == meta
    {
      this.codec, this.meta, data, index := codec, meta, [], [];
      initial, tree, patches, stored, front, pool := [], [], [], [], [], [];
    }

    /** `write_all`: everything from scratch, the metadata last, into the place kept for it. */
    method WriteAll(initialB: Blob, treeB: Blob, indexB: Blob, poolB: Blob, lastB: Blob, ghost ps: seq<Blob>)
      returns (ok: bool)
      requires Inverse(codec) && IndexEncodes(indexB, ps) && poolB == Concat(ps) && meta.current == |ps|
      modifies this
      ensures ok <==> FitsFile(codec, old(meta), initialB, treeB, |indexB|, |poolB|, lastB)
      ensures ok ==> Closed(lastB) && initial == initialB && tree == treeB && patches == ps && index == indexB
      ensures ok ==> meta == old(meta).(indexStart := meta.indexStart)
    {
      var d, m;
      ghost var f;
      ok, d, m, f := Compose(codec, meta, initialB, treeB, indexB, poolB, lastB);
      if ok {
        Install(d, m, indexB, initialB, treeB, ps, f, lastB);
      }
    }

    method Install(d: Blob, m: Metadata, indexB: Blob, ghost initialB: Blob, ghost treeB: Blob, ghost ps: seq<Blob>,
                   ghost f: Blob, ghost lastB: Blob)
      requires Inverse(codec) && IndexEncodes(indexB, ps) && m.current == |ps|
      requires m.indexStart == |f| && FitsMeta(m) && IsFront(f, codec, SerializeMeta(m), initialB, treeB, |indexB|)
      requires FitsInt32(|Concat(ps)|) && Laid(d, f, indexB, Concat(ps))
      requires FitsInt32(|codec.compress(lastB)|) && LaidLast(d, f, indexB, Concat(ps), codec.compress(lastB))
      modifies this
      ensures Closed(lastB) && initial == initialB && tree == treeB && patches == ps && index == indexB && meta == m
    {
      data, meta, index := d, m, indexB;
      initial, tree, patches, pool, stored, front := initialB, treeB, ps, Concat(ps), SerializeMeta(m), f;
    }
  }

  /** Every size and number of a file fits its field. */
  predicate FitsFile(codec: Codec, meta: Metadata, initial: Blob, tree: Blob, indexSize: nat, poolSize: nat,
                     last: Blob) {
    var i, t := |codec.compress(initial)|, |codec.compress(tree)|;
    && FitsInt32(i) && FitsInt32(t) && FitsInt32(indexSize) && FitsInt32(poolSize) && FitsInt32(|codec.compress(last)|)
    && FitsMeta(meta.(indexStart := META_SIZE + i + t + 16))
  }

  /** The bytes of a whole file; it fails when a size outgrows its field. */
  method Compose(codec: Codec, meta: Metadata, initial: Blob, tree: Blob, index: Blob, pool: Blob, last: Blob)
    returns (ok: bool, data: Blob, meta': Metadata, ghost front: Blob)
    ensures ok <==> FitsFile(codec, meta, initial, tree, |index|, |pool|, last)
    ensures ok ==> meta' == meta.(indexStart := |front|) && FitsMeta(meta')
    ensures ok ==> IsFront(front, codec, SerializeMeta(meta'), initial, tree, |index|)
    ensures ok ==> FitsInt32(|pool|) && FitsInt32(|codec.compress(last)|)
    ensures ok ==> Laid(data, front, index, pool) && LaidLast(data, front, index, pool, codec.compress(last))
  {
    var i, t, l := codec.compress(initial), codec.compress(tree), codec.compress(last);
    data, meta', front := [], meta, [];
    if !(FitsInt32(|i|) && FitsInt32(|t|) && FitsInt32(|index|) && FitsInt32(|pool|) && FitsInt32(|l|)) {
      return false, data, meta', front;
    }
    var behind := Sized(i) + Sized(t) + Int32(|index|);
    meta' := meta.(indexStart := 4 + META_SIZE + |behind|);
    if !FitsMeta(meta') {
      return false, data, meta', front;
    }
    var m := SerializeMeta(meta');
    front := Int32(META_SIZE) + m + behind;
    NewFront(codec, m, initial, tree, |index|);
    data := Assemble(m, behind, index, pool, l);
    ok := true;
  }

  /** The whole file, with the header put into the place kept for it at the end. */
  method Assemble(m: Blob, behind: Blob, index: Blob, pool: Blob, l: Blob) returns (data: Blob)
    requires |m| == META_SIZE && FitsInt32(|pool|) && FitsInt32(|l|)
    ensures Laid(data, Int32(META_SIZE) + m + behind, index, pool)
    ensures LaidLast(data, Int32(META_SIZE) + m + behind, index, pool, l)
  {
    data := Int32(META_SIZE) + Zeros(META_SIZE) + (behind + (index + Int32(|pool|) + pool + Sized(l)));
    data := PutHeader(data, m, Zeros(META_SIZE), behind, index, pool, Sized(l));
    AssembledLast(m, behind, index, pool, l);
  }

  lemma AssembledLast(m: Blob, behind: Blob, index: Blob, pool: Blob, l: Blob)
    requires |m| == META_SIZE && FitsInt32(|pool|) && FitsInt32(|l|)
    ensures LaidLast(Int32(META_SIZE) + m + (behind + (index + Int32(|pool|) + pool + Sized(l))),
                     Int32(META_SIZE) + m + behind, index, pool, l)
  {
    assert Int32(META_SIZE) + m + (behind + (index + Int32(|pool|) + pool + Sized(l))) ==
           (Int32(META_SIZE) + m + behind) + index + Int32(|pool|) + pool + Sized(l);
  }

  method PutHeader(data: Blob, m: Blob, ghost was: Blob, ghost behind: Blob, ghost index: Blob, ghost pool: Blob,
                   ghost rest: Blob)
    returns (r: Blob)
    requires |m| == |was| == META_SIZE && FitsInt32(|pool|)
    requires data == Int32(META_SIZE) + was + (behind + (index + Int32(|pool|) + pool + rest))
    ensures r == Int32(META_SIZE) + m + (behind + (index + Int32(|pool|) + pool + rest))
    ensures Laid(r, Int32(META_SIZE) + m + behind, index, pool)
  {
    r := Overwrite(data, 4, m, Int32(META_SIZE), was, behind + (index + Int32(|pool|) + pool + rest));
    MetaLaid(r, Int32(META_SIZE) + m + behind, index, pool, m, behind, rest);
  }

  // ----- reading a file

  /** One part after the other. */
  lemma FileParts(data: Blob, front: Blob, codec: Codec, m: Blob, initial: Blob, tree: Blob, index: Blob, pool: Blob,
                  c: Blob)
    returns (rest: Blob)
    requires IsFront(front, codec, m, initial, tree, |index|) && FitsInt32(|pool|) && FitsInt32(|c|)
    requires LaidLast(data, front, index, pool, c)
    ensures data == Sized(m) + (Sized(codec.compress(initial)) + (Sized(codec.compress(tree)) +
                    (Sized(index) + (Sized(pool) + (Sized(c) + rest)))))
  {
    var body := front + index + Int32(|pool|) + pool + Sized(c);
    rest := data[|body|..];
    assert data == data[..|body|] + rest;
    FrontRegrouped(Sized(m), Sized(codec.compress(initial)), Sized(codec.compress(tree)),
                   Int32(|index|), index, Int32(|pool|), pool, Sized(c), rest);
  }

  lemma FrontRegrouped(a: Blob, b: Blob, c: Blob, d: Blob, e: Blob, f: Blob, g: Blob, h: Blob, k: Blob)
    ensures (a + b + c + d) + e + f + g + h + k == a + (b + (c + ((d + e) + ((f + g) + (h + k)))))
  {
  }

  /** `read_all`: a file closed with a last state gives back everything recorded, and the
      metadata if its identifier fits. */
  method ReadAll(data: Blob, codec: Codec, ghost s: ReplayStorage, ghost last: Blob) returns (r: Option<Contents>)
    requires s.Closed(last) && s.data == data && s.codec == codec
    ensures r.Some?
    ensures r.value.initial == s.initial && r.value.tree == s.tree && r.value.last == last
    ensures r.value.index == s.index && IndexEncodes(r.value.index, s.patches) && r.value.pool == Concat(s.patches)
    ensures r.value.meta == s.meta <==> FitsId(s.meta.mapId)
  {
    var reader := new BinaryReader(data);
    ghost var i, t, c := codec.compress(s.initial), codec.compress(s.tree), codec.compress(last);
    ghost var rest := FileParts(data, s.front, codec, s.stored, s.initial, s.tree, s.index, s.pool, c);
    assert data[0..] == data;
    var m := ReadPart(reader, s.stored, Sized(i) + (Sized(t) + (Sized(s.index) + (Sized(s.pool) + (Sized(c) + rest)))));
    var initial := ReadPart(reader, i, Sized(t) + (Sized(s.index) + (Sized(s.pool) + (Sized(c) + rest))));
    var tree := ReadPart(reader, t, Sized(s.index) + (Sized(s.pool) + (Sized(c) + rest)));
    var index := ReadPart(reader, s.index, Sized(s.pool) + (Sized(c) + rest));
    var pool := ReadPart(reader, s.pool, Sized(c) + rest);
    var final := ReadPart(reader, c, rest);
    MetaRoundTrip(s.meta);
    r := Some(Contents(DeserializeMeta(m.value), codec.decompress(initial.value).value,
                       codec.decompress(tree.value).value,
                       index.value, pool.value, codec.decompress(final.value).value));
  }

  method ReadPart(reader: BinaryReader, ghost b: Blob, ghost rest: Blob) returns (r: Option<Blob>)
    requires FitsInt32(|b|) && reader.pos <= |reader.data| && reader.data[reader.pos..] == Sized(b) + rest
    modifies reader
    ensures r == Some(b) && reader.pos <= |reader.data| && reader.data[reader.pos..] == rest
  {
    assert reader.data[reader.pos..] == Int32(|b|) + b + rest;
    r := reader.ReadSized();
  }

  lemma NewFront(codec: Codec, m: Blob, initial: Blob, tree: Blob, indexSize: nat)
    requires |m| == META_SIZE
    requires FitsInt32(|codec.compress(initial)|) && FitsInt32(|codec.compress(tree)|) && FitsInt32(indexSize)
    ensures IsFront(Int32(META_SIZE) + m + Behind(codec, initial, tree, indexSize), codec, m, initial, tree, indexSize)
  {
    assert Int32(META_SIZE) + m + Behind(codec, initial, tree, indexSize) ==
           Sized(m) + Sized(codec.compress(initial)) + Sized(codec.compress(tree)) + Int32(indexSize);
  }

  // ----- a whole recording

  ghost function Flat(batches: seq<seq<Blob>>): seq<Blob> {
    if batches == [] then [] else Flat(Init(batches)) + Last(batches)
  }

  /** The patches fit the index, the pool its size field, the counter stays below the
      maximum, and the numbers and the last state fit their fields. */
  ghost predicate FitsRecording(meta: Metadata, codec: Codec, indexSize: nat, ps: seq<Blob>, last: Blob) {
    && |ps| <= indexSize / ENTRY_SIZE && FitsInt32(|Concat(ps)|)
    && |ps| < meta.max && FitsMeta(meta.(current := |ps|)) && FitsInt32(|codec.compress(last)|)
  }

  lemma {:induction false} FlatPrefix(batches: seq<seq<Blob>>, n: nat)
    requires n <= |batches|
    ensures Flat(batches[..n]) <= Flat(batches)
  {
    if n == |batches| {
      assert batches[..n] == batches;
    } else {
      assert Init(batches)[..n] == batches[..n];
      FlatPrefix(Init(batches), n);
    }
  }

  /** What is appended first takes no more room than all of it. */
  lemma FitsPart(ps: seq<Blob>, batches: seq<seq<Blob>>, n: nat)
    requires n <= |batches|
    ensures |ps + Flat(batches[..n])| <= |ps + Flat(batches)|
    ensures |Concat(ps + Flat(batches[..n]))| <= |Concat(ps + Flat(batches))|
  {
    FlatPrefix(batches, n);
    var part, all := ps + Flat(batches[..n]), ps + Flat(batches);
    assert all[..|part|] == part;
    ConcatPrefix(all, |part|);
  }

  /** One batch, after those before it; it fails only if the whole series does not fit. */
  method AppendBatch(s: ReplayStorage, batches: seq<seq<Blob>>, i: nat, ghost ps: seq<Blob>) returns (ok: bool)
    requires s.Valid() && i < |batches| && forall j :: 0 <= j < |batches[i]| ==> batches[i][j] != []
    requires s.patches == ps + Flat(batches[..i])
    modifies s
    ensures !ok ==>
              |ps + Flat(batches)| > |old(s.index)| / ENTRY_SIZE || !FitsInt32(|Concat(ps + Flat(batches))|)
    ensures |s.index| == |old(s.index)|
    ensures ok ==> s.Valid() && s.patches == ps + Flat(batches[..i + 1])
    ensures ok ==>
              && s.initial == old(s.initial) && s.tree == old(s.tree)
              && s.meta == old(s.meta).(current := |s.patches|)
  {
    FlatNext(ps, batches, i);
    FitsPart(ps, batches, i + 1);
    ghost var es;
    ok, es := s.AppendPatches(batches[i]);
  }

  /** Any series of append batches and the collapse: it succeeds exactly when every step fits,
      and the file is then complete with all patches in the order of the appends. */
  method RecordBatches(s: ReplayStorage, batches: seq<seq<Blob>>, last: Blob) returns (ok: bool)
    requires s.Valid() && forall i, j :: 0 <= i < |batches| && 0 <= j < |batches[i]| ==> batches[i][j] != []
    modifies s
    ensures ok <==> FitsRecording(old(s.meta), s.codec, |old(s.index)|, old(s.patches) + Flat(batches), last)
    ensures ok ==> s.Closed(last) && s.initial == old(s.initial) && s.tree == old(s.tree)
    ensures ok ==> s.patches == old(s.patches) + Flat(batches) && s.meta == old(s.meta).(current := |s.patches|)
  {
    assert s.patches == s.patches + Flat(batches[..0]);
    for i := 0 to |batches|
      invariant s.Valid() && s.initial == old(s.initial) && s.tree == old(s.tree)
      invariant s.patches == old(s.patches) + Flat(batches[..i])
      invariant |s.index| == |old(s.index)| && s.meta == old(s.meta).(current := |s.patches|)
    {
      ok := AppendBatch(s, batches, i, old(s.patches));
      if !ok {
        return false;
      }
    }
    assert batches[..|batches|] == batches;
    ok := s.CollapseAppendMode(last);
  }

  /** A complete file, read: the initial state and path tree unchanged, the last state, and
      exactly the serialised patches in order. */
  method ReadPatches(s: ReplayStorage, ghost last: Blob) returns (r: Contents, read: seq<Blob>)
    requires s.Closed(last)
    ensures r.initial == s.initial && r.tree == s.tree && r.last == last && read == s.patches
    ensures FitsId(s.meta.mapId) ==> r.meta == s.meta && r.meta.current == |read|
  {
    var contents := ReadAll(s.data, s.codec, s, last);
    r := contents.value;
    read := SlicePool(DecodeIndex(r.index), r.pool, s.patches);
  }

  /** Both together: as long as every step fits, the reader gets what was recorded. */
  method RecordAndReadBack(s: ReplayStorage, batches: seq<seq<Blob>>, last: Blob)
    returns (r: Option<Contents>, read: seq<Blob>)
    requires s.Valid() && forall i, j :: 0 <= i < |batches| && 0 <= j < |batches[i]| ==> batches[i][j] != []
    modifies s
    ensures r.Some? <==> FitsRecording(old(s.meta), s.codec, |old(s.index)|, old(s.patches) + Flat(batches), last)
    ensures r.Some? ==>
              && r.value.initial == old(s.initial) && r.value.tree == old(s.tree) && r.value.last == last
              && read == old(s.patches) + Flat(batches)
              && (FitsId(s.meta.mapId) ==> r.value.meta == s.meta && r.value.meta.current == |read|)
  {
    var ok := RecordBatches(s, batches, last);
    if !ok {
      return None, [];
    }
    var contents;
    contents, read := ReadPatches(s, last);
    r := Some(contents);
  }

  lemma FlatNext(ps: seq<Blob>, batches: seq<seq<Blob>>, i: nat)
    requires i < |batches|
    ensures ps + Flat(batches[..i]) + batches[i] == ps + Flat(batches[..i + 1])
  {
    assert Init(batches[..i + 1]) == batches[..i];
  }
}
