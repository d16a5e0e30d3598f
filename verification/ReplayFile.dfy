/** From recorded states to bytes and back to a replay one can jump in: each comparison becomes
    two stored patches, the first of which lists the new path-tree nodes; the file is read, the
    path tree rebuilt from those lists, and the patches become edges again. */
module ReplayFile {
  import opened Values
  import opened Bytes
  import opened ObjectCodec
  import opened PatchCodec
  import opened PatchGraph
  import opened Jump
  import opened Recording
  import PathTree
  import PathIndex
  import Storage
  import Diff

  /** How values are written as objects and objects seen as values. */
  datatype Reading = Reading(form: Value -> Obj, view: Obj -> Value)

  function Code(k: OpKind): (c: int)
    ensures 1 <= c <= 3
  {
    match k
    case Add => 1
    case Replace => 2
    case Remove => 3
  }

  function KindOf(c: int): OpKind {
    if c == 1 then Add else if c == 2 then Replace else Remove
  }

  /** The stored form of a patch, given the indices of its paths. */
  function StoredOf(p: Patch, paths: seq<nat>, rd: Reading): (sp: StoredPatch)
    ensures |sp.ops| == |sp.values| == |p.ops| && sp.paths == paths
  {
    StoredPatch(p.from, p.to, p.cost, seq(|p.ops|, i requires 0 <= i < |p.ops| => Code(p.ops[i].kind)), paths,
                seq(|p.ops|, i requires 0 <= i < |p.ops| => rd.form(p.ops[i].value)))
  }

  /** The patch a stored one stands for, if its indices are nodes of the tree. */
  function PatchOf(tree: PathTree.Tree, sp: StoredPatch, rd: Reading): (p: Patch)
    requires PathTree.Valid(tree) && sp.cost >= 1 && |sp.ops| == |sp.paths| == |sp.values|
    requires forall i :: 0 <= i < |sp.paths| ==> sp.paths[i] in tree.nodes
  {
    Patch(sp.from, sp.to, sp.cost,
          seq(|sp.ops|, i requires 0 <= i < |sp.ops| =>
            Op(0, KindOf(sp.ops[i]), PathTree.PathOf(tree, sp.paths[i]), rd.view(sp.values[i]))))
  }

  /** The indices are those of the patch's paths. */
  ghost predicate At(tree: PathTree.Tree, p: Patch, paths: seq<nat>) {
    && PathTree.Valid(tree) && |paths| == |p.ops|
    && forall i :: 0 <= i < |paths| ==> paths[i] in tree.nodes && PathTree.PathOf(tree, paths[i]) == p.ops[i].path
  }

  ghost predicate Timeless(p: Patch) {
    forall i :: 0 <= i < |p.ops| ==> p.ops[i].at == 0
  }

  lemma StoredBack(tree: PathTree.Tree, p: Patch, paths: seq<nat>, rd: Reading)
    requires At(tree, p, paths) && Timeless(p) && p.cost >= 1
    requires forall i :: 0 <= i < |p.ops| ==> rd.view(rd.form(p.ops[i].value)) == p.ops[i].value
    ensures PatchOf(tree, StoredOf(p, paths, rd), rd) == p
  {
    var r := PatchOf(tree, StoredOf(p, paths, rd), rd);
    forall i | 0 <= i < |p.ops| ensures r.ops[i] == p.ops[i] {
      assert KindOf(Code(p.ops[i].kind)) == p.ops[i].kind;
    }
  }

  // ----- what was written

  /** One stored patch: what it stands for, the indices of its paths, the nodes it lists. */
  datatype Line = Line(patch: Patch, paths: seq<nat>, nodes: seq<PathTree.Entry>)

  ghost predicate Written(tree: PathTree.Tree, l: Line, b: Blob, c: Codecs, rd: Reading) {
    At(tree, l.patch, l.paths) && Encodes(b, StoredOf(l.patch, l.paths, rd), l.nodes, c)
  }

  ghost predicate AllWritten(tree: PathTree.Tree, lines: seq<Line>, bs: seq<Blob>, c: Codecs, rd: Reading) {
    |bs| == |lines| && forall i :: 0 <= i < |lines| ==> Written(tree, lines[i], bs[i], c, rd)
  }

  /** Every number of the line fits its field. */
  ghost predicate LineFits(l: Line, c: Codecs, rd: Reading) {
    Storable(StoredOf(l.patch, l.paths, rd), l.nodes, c)
  }

  ghost predicate AllFit(lines: seq<Line>, c: Codecs, rd: Reading) {
    forall i :: 0 <= i < |lines| ==> LineFits(lines[i], c, rd)
  }

  ghost function NodesOf(lines: seq<Line>): (r: seq<seq<PathTree.Entry>>)
    ensures |r| == |lines| && forall i :: 0 <= i < |lines| ==> r[i] == lines[i].nodes
  {
    seq(|lines|, i requires 0 <= i < |lines| => lines[i].nodes)
  }

  /** The edges, in the order of the lines. */
  ghost function GraphOf(lines: seq<Line>): Patches {
    if lines == [] then map[]
    else var p := Last(lines).patch; GraphOf(Init(lines))[(p.from, p.to) := p]
  }

  ghost function Vertices(lines: seq<Line>): set<int> {
    if lines == [] then {} else Vertices(Init(lines)) + {Last(lines).patch.from, Last(lines).patch.to}
  }

  /** What the libraries and the object serialiser give back of a line. */
  ghost predicate Carried(l: Line, c: Codecs, rd: Reading) {
    && Readable(StoredOf(l.patch, l.paths, rd), l.nodes, c) && Timeless(l.patch)
    && forall i :: 0 <= i < |l.patch.ops| ==>
         && rd.view(rd.form(l.patch.ops[i].value)) == l.patch.ops[i].value
         && Unambiguous(rd.form(l.patch.ops[i].value))
  }

  ghost predicate AllCarried(lines: seq<Line>, c: Codecs, rd: Reading) {
    forall i :: 0 <= i < |lines| ==> Carried(lines[i], c, rd)
  }

  lemma WrittenLater(t: PathTree.Tree, added: seq<PathTree.Entry>, t': PathTree.Tree, lines: seq<Line>, bs: seq<Blob>,
                     c: Codecs, rd: Reading)
    requires PathTree.Journals(t, added, t') && AllWritten(t, lines, bs, c, rd)
    ensures AllWritten(t', lines, bs, c, rd)
  {
    forall i | 0 <= i < |lines| ensures Written(t', lines[i], bs[i], c, rd) {
      assert Written(t, lines[i], bs[i], c, rd);
    }
  }

  // ----- writing

  /** The bytes of one patch; None where a number does not fit its field. */
  method WritePatch(p: Patch, nodes: seq<PathTree.Entry>, tree: PathTree.Tree, c: Codecs, rd: Reading)
    returns (r: Option<Blob>, ghost l: Line)
    requires PathTree.Valid(tree) && InTree(tree, p)
    ensures l.patch == p && l.nodes == nodes && At(tree, p, l.paths)
    ensures r.Some? ==> Written(tree, l, r.value, c, rd)
    ensures r.Some? <==> LineFits(l, c, rd)
  {
    var ps := seq(|p.ops|, i requires 0 <= i < |p.ops| => p.ops[i].path);
    forall q | q in ps ensures PathTree.HasPath(tree, q) {
      var i :| 0 <= i < |ps| && ps[i] == q;
      assert p.ops[i] in p.ops;
    }
    var paths := PathIndex.Indices(tree, ps);
    l := Line(p, paths, nodes);
    AtIndices(tree, p, paths, ps);
    var sp := StoredOf(p, paths, rd);
    if !Storable(sp, nodes, c) {
      return None, l;
    }
    var b := Serialize(sp, nodes, c);
    r := Some(b);
  }

  lemma AtIndices(tree: PathTree.Tree, p: Patch, paths: seq<nat>, ps: seq<Path>)
    requires PathTree.Valid(tree) && |ps| == |p.ops| && forall i :: 0 <= i < |ps| ==> ps[i] == p.ops[i].path
    requires (forall v :: v in paths ==> v in tree.nodes) && PathIndex.PathsOf(tree, paths) == ps
    ensures At(tree, p, paths)
  {
    forall i | 0 <= i < |paths| ensures paths[i] in tree.nodes && PathTree.PathOf(tree, paths[i]) == p.ops[i].path {
      assert paths[i] in paths;
      assert PathIndex.PathsOf(tree, paths)[i] == ps[i];
    }
  }

  /** The patch leads from the state recorded at a to the one at b. */
  ghost predicate Edge(recorded: map<int, Value>, p: Patch, a: int, b: int) {
    p.from == a && p.to == b && Priced(p) && Timeless(p) && Carries(recorded, p)
  }

  /** The lines of one comparison join two recorded times, both ways. */
  ghost predicate Pair(recorded: map<int, Value>, lines: seq<Line>, a: int, b: int) {
    |lines| == 2 && Edge(recorded, lines[0].patch, a, b) && Edge(recorded, lines[1].patch, b, a)
  }

  /** One comparison; its operations carry no times. */
  method StepPatches(times: seq<int>, states: seq<Value>, n: nat, ghost schema: string -> set<Key>)
    returns (p: Patch, q: Patch)
    requires |times| == |states| && 0 < n < |times| && Rising(times) && Recordable(states, schema)
    ensures Edge(History(times, states), p, times[n - 1], times[n])
    ensures Edge(History(times, states), q, times[n], times[n - 1])
    ensures Diff.Mirror(p.ops, q.ops)
  {
    p, q := RecordStep(times, states, n, schema);
    assert forall i :: 0 <= i < |p.ops| ==> p.ops[i] in p.ops;
    assert forall i :: 0 <= i < |q.ops| ==> q.ops[i] in q.ops;
  }

  /** One step of `que_append_patch`: fill the path tree, write both patches; the new nodes stand
      with the first. */
  method WriteBoth(b: PathTree.Builder, p: Patch, q: Patch, c: Codecs, rd: Reading)
    returns (r: Option<seq<Blob>>, ghost lines: seq<Line>)
    requires PathTree.Valid(b.tree) && Diff.Mirror(p.ops, q.ops)
    modifies b
    ensures |lines| == 2 && lines[0].patch == p && lines[1].patch == q && lines[1].nodes == []
    ensures PathTree.Journals(old(b.tree), lines[0].nodes, b.tree)
    ensures (r.Some? <==> AllFit(lines, c, rd)) && (r.Some? ==> AllWritten(b.tree, lines, r.value, c, rd))
  {
    var added := FillTree(b, p, q, map[]);
    ghost var k, l;
    var x, y;
    x, k := WritePatch(p, added, b.tree, c, rd);
    y, l := WritePatch(q, [], b.tree, c, rd);
    lines := [k, l];
    BothFit(k, l, c, rd);
    if x.None? || y.None? {
      return None, lines;
    }
    BothWritten(b.tree, k, l, x.value, y.value, c, rd);
    r := Some([x.value, y.value]);
  }

  lemma BothFit(k: Line, l: Line, c: Codecs, rd: Reading)
    ensures AllFit([k, l], c, rd) <==> LineFits(k, c, rd) && LineFits(l, c, rd)
  {
    assert [k, l][0] == k && [k, l][1] == l;
  }

  lemma BothWritten(tree: PathTree.Tree, k: Line, l: Line, x: Blob, y: Blob, c: Codecs, rd: Reading)
    requires Written(tree, k, x, c, rd) && Written(tree, l, y, c, rd)
    ensures AllWritten(tree, [k, l], [x, y], c, rd)
  {
  }

  // ----- the edges of a history

  /** What the lines written up to the first n states amount to. */
  ghost predicate Recorded(times: seq<int>, states: seq<Value>, lines: seq<Line>, n: nat)
    requires |times| == |states| && n <= |times|
  {
    && Means(History(times, states), GraphOf(lines)) && Linked(times, GraphOf(lines), Vertices(lines), n)
    && Costly(lines) && Keys(GraphOf(lines))
  }

  lemma GraphTwo(lines: seq<Line>, more: seq<Line>)
    requires |more| == 2
    ensures var p, q := more[0].patch, more[1].patch;
            && GraphOf(lines + more) == GraphOf(lines)[(p.from, p.to) := p][(q.from, q.to) := q]
            && Vertices(lines + more) == Vertices(lines) + {p.from, p.to} + {q.from, q.to}
  {
    assert Init(lines + more) == lines + [more[0]] && Init(lines + [more[0]]) == lines;
  }

  lemma RecordedNext(times: seq<int>, states: seq<Value>, lines: seq<Line>, more: seq<Line>, n: nat)
    requires |times| == |states| && 0 < n < |times| && Recorded(times, states, lines, n)
    requires Pair(History(times, states), more, times[n - 1], times[n])
    ensures Recorded(times, states, lines + more, n + 1)
  {
    GraphTwo(lines, more);
    LinkedNext(times, GraphOf(lines), Vertices(lines), n, more[0].patch, more[1].patch);
    MeansPair(History(times, states), GraphOf(lines), more[0].patch, more[1].patch);
    CostlyMore(lines, more);
  }

  ghost predicate Keys(patches: Patches) {
    forall k :: k in patches ==> patches[k].from == k.0 && patches[k].to == k.1 && Priced(patches[k])
  }

  lemma MeansPair(recorded: map<int, Value>, patches: Patches, p: Patch, q: Patch)
    requires Means(recorded, patches) && Keys(patches)
    requires Carries(recorded, p) && Priced(p) && Carries(recorded, q) && Priced(q)
    ensures var after := patches[(p.from, p.to) := p][(q.from, q.to) := q]; Means(recorded, after) && Keys(after)
  {
  }

  lemma CostlyMore(lines: seq<Line>, more: seq<Line>)
    requires Costly(lines) && Costly(more)
    ensures Costly(lines + more)
  {
  }

  lemma {:induction false} FlattenMore(a: seq<Line>, b: seq<Line>)
    ensures PathTree.Flatten(NodesOf(a + b)) == PathTree.Flatten(NodesOf(a)) + PathTree.Flatten(NodesOf(b))
  {
    assert NodesOf(a + b) == NodesOf(a) + NodesOf(b);
    PathTree.FlattenAppend(NodesOf(a), NodesOf(b));
  }

  lemma FlattenPair(more: seq<Line>)
    requires |more| == 2 && more[1].nodes == []
    ensures PathTree.Flatten(NodesOf(more)) == more[0].nodes
  {
    var ns := NodesOf(more);
    var one: seq<seq<PathTree.Entry>> := [more[0].nodes];
    assert Init(ns) == one && Last(ns) == [] && Init(one) == [] && Last(one) == more[0].nodes;
    assert PathTree.Flatten(one) == more[0].nodes;
  }

  /** The whole recording: the stored patches of every step, and what they stand for. */
  method WriteHistory(times: seq<int>, states: seq<Value>, c: Codecs, rd: Reading, ghost schema: string -> set<Key>)
    returns (r: Option<seq<seq<Blob>>>, ghost tree: PathTree.Tree, ghost lines: seq<Line>)
    requires |times| == |states| > 0 && Rising(times) && Recordable(states, schema)
    ensures (r.Some? <==> AllFit(lines, c, rd)) && (r.Some? ==> Recorded(times, states, lines, |times|))
    ensures r.Some? ==> PathTree.Journals(PathTree.ROOT, PathTree.Flatten(NodesOf(lines)), tree)
    ensures r.Some? ==> AllWritten(tree, lines, Storage.Flat(r.value), c, rd)
  {
    var b := new PathTree.Builder();
    PathTree.RootValid();
    lines := [];
    var batches: seq<seq<Blob>> := [];
    for n := 1 to |times|
      invariant fresh(b) && Recorded(times, states, lines, n)
      invariant PathTree.Journals(PathTree.ROOT, PathTree.Flatten(NodesOf(lines)), b.tree)
      invariant AllWritten(b.tree, lines, Storage.Flat(batches), c, rd) && AllFit(lines, c, rd)
    {
      var p, q := StepPatches(times, states, n, schema);
      ghost var before := b.tree;
      ghost var more;
      var w;
      w, more := WriteBoth(b, p, q, c, rd);
      FitMore(lines, more, c, rd);
      if w.None? {
        return None, b.tree, lines + more;
      }
      WroteNext(before, b.tree, lines, more, batches, w.value, c, rd);
      RecordedNext(times, states, lines, more, n);
      lines, batches := lines + more, batches + [w.value];
    }
    tree := b.tree;
    r := Some(batches);
  }

  lemma FitMore(lines: seq<Line>, more: seq<Line>, c: Codecs, rd: Reading)
    requires AllFit(lines, c, rd)
    ensures AllFit(lines + more, c, rd) <==> AllFit(more, c, rd)
  {
    if AllFit(lines + more, c, rd) {
      forall i | 0 <= i < |more| ensures LineFits(more[i], c, rd) {
        assert (lines + more)[|lines| + i] == more[i];
      }
    }
  }

  lemma WroteNext(t: PathTree.Tree, t': PathTree.Tree, lines: seq<Line>, more: seq<Line>, batches: seq<seq<Blob>>,
                  w: seq<Blob>, c: Codecs, rd: Reading)
    requires PathTree.Journals(PathTree.ROOT, PathTree.Flatten(NodesOf(lines)), t)
    requires |more| == 2 && more[1].nodes == [] && PathTree.Journals(t, more[0].nodes, t')
    requires AllWritten(t, lines, Storage.Flat(batches), c, rd) && AllWritten(t', more, w, c, rd)
    ensures PathTree.Journals(PathTree.ROOT, PathTree.Flatten(NodesOf(lines + more)), t')
    ensures AllWritten(t', lines + more, Storage.Flat(batches + [w]), c, rd)
  {
    FlattenMore(lines, more);
    FlattenPair(more);
    PathTree.JournalsChain(PathTree.ROOT, PathTree.Flatten(NodesOf(lines)), t, more[0].nodes, t');
    WrittenLater(t, more[0].nodes, t', lines, Storage.Flat(batches), c, rd);
    assert Init(batches + [w]) == batches;
    WrittenMore(t', lines, more, Storage.Flat(batches), w, c, rd);
  }

  lemma WrittenMore(tree: PathTree.Tree, a: seq<Line>, b: seq<Line>, x: seq<Blob>, y: seq<Blob>, c: Codecs, rd: Reading)
    requires AllWritten(tree, a, x, c, rd) && AllWritten(tree, b, y, c, rd)
    ensures AllWritten(tree, a + b, x + y, c, rd)
  {
    forall i | 0 <= i < |a + b| ensures Written(tree, (a + b)[i], (x + y)[i], c, rd) {
      assert if i < |a| then Written(tree, a[i], x[i], c, rd) else Written(tree, b[i - |a|], y[i - |a|], c, rd);
    }
  }

  // ----- loading

  /** `load_path_tree` on a fragmented file: the nodes each patch lists, added to the root. */
  method LoadTree(bs: seq<Blob>, c: Codecs, ghost rd: Reading, ghost tree: PathTree.Tree, ghost lines: seq<Line>)
    returns (r: Option<PathTree.Tree>)
    requires AllWritten(tree, lines, bs, c, rd)
    requires PathTree.Journals(PathTree.ROOT, PathTree.Flatten(NodesOf(lines)), tree)
    ensures AllCarried(lines, c, rd) ==> r == Some(tree)
  {
    var journal := LoadJournal(bs, c, rd, tree, lines);
    if journal.None? {
      return None;
    }
    r := PathTree.LoadPathTree(journal.value);
  }

  method LoadJournal(bs: seq<Blob>, c: Codecs, ghost rd: Reading, ghost tree: PathTree.Tree, ghost lines: seq<Line>)
    returns (r: Option<seq<seq<PathTree.Entry>>>)
    requires AllWritten(tree, lines, bs, c, rd)
    ensures AllCarried(lines, c, rd) ==> r == Some(NodesOf(lines))
  {
    var journal: seq<seq<PathTree.Entry>> := [];
    for i := 0 to |bs|
      invariant |journal| == i
      invariant AllCarried(lines, c, rd) ==> forall j :: 0 <= j < i ==> journal[j] == lines[j].nodes
    {
      assert Written(tree, lines[i], bs[i], c, rd);
      var nodes := LoadNodes(bs[i], c, rd, tree, lines, i);
      if nodes.None? {
        return None;
      }
      journal := journal + [nodes.value];
    }
    assert AllCarried(lines, c, rd) ==> journal == NodesOf(lines);
    r := Some(journal);
  }

  method LoadNodes(b: Blob, c: Codecs, ghost rd: Reading, ghost tree: PathTree.Tree, ghost lines: seq<Line>,
                   ghost i: nat)
    returns (r: Option<seq<PathTree.Entry>>)
    requires i < |lines| && Written(tree, lines[i], b, c, rd)
    ensures AllCarried(lines, c, rd) ==> r == Some(lines[i].nodes)
  {
    ghost var sp := StoredOf(lines[i].patch, lines[i].paths, rd);
    r := ExtractTreeNodes(b, c, sp, lines[i].nodes);
    if AllCarried(lines, c, rd) {
      assert Carried(lines[i], c, rd);
    }
  }

  /** One stored patch as an edge; None where it cannot be read. */
  method LoadPatch(b: Blob, c: Codecs, rd: Reading, t: PathTree.Tree, ghost l: Line) returns (r: Option<Patch>)
    requires Written(t, l, b, c, rd)
    ensures r.Some? ==> r.value.cost >= 1
    ensures Carried(l, c, rd) && l.patch.cost >= 1 ==> r == Some(l.patch)
  {
    ghost var want := StoredOf(l.patch, l.paths, rd);
    var read := Deserialize(b, c, want, l.nodes);
    if Carried(l, c, rd) {
      CarriedBack(l, c, rd, read);
      if l.patch.cost >= 1 {
        StoredBack(t, l.patch, l.paths, rd);
      }
    }
    if read.None? {
      return None;
    }
    var sp := read.value.0;
    if sp.cost < 1 || |sp.ops| != |sp.paths| || |sp.ops| != |sp.values| || exists v :: v in sp.paths && v !in t.nodes {
      return None;
    }
    forall i | 0 <= i < |sp.paths| ensures sp.paths[i] in t.nodes {
      assert sp.paths[i] in sp.paths;
    }
    r := Some(PatchOf(t, sp, rd));
  }

  lemma CarriedBack(l: Line, c: Codecs, rd: Reading, read: Option<(StoredPatch, seq<PathTree.Entry>)>)
    requires Carried(l, c, rd) && GivesBack(StoredOf(l.patch, l.paths, rd), l.nodes, read)
    ensures read == Some((StoredOf(l.patch, l.paths, rd), l.nodes))
  {
    var sp := StoredOf(l.patch, l.paths, rd);
    forall v | v in sp.values ensures Unambiguous(v) {
      var i :| 0 <= i < |sp.values| && sp.values[i] == v;
      assert v == rd.form(l.patch.ops[i].value);
    }
  }

  /** `load_patches`: every stored patch becomes an edge. */
  method LoadEdges(bs: seq<Blob>, c: Codecs, rd: Reading, t: PathTree.Tree, ghost lines: seq<Line>)
    returns (r: Option<Graph>)
    requires AllWritten(t, lines, bs, c, rd)
    ensures r.Some? ==> fresh(r.value) && r.value.Edges()
    ensures AllCarried(lines, c, rd) && Costly(lines) ==>
              r.Some? && r.value.patches == GraphOf(lines) && r.value.pending == Vertices(lines)
  {
    ghost var good := AllCarried(lines, c, rd) && Costly(lines);
    var g := new Graph();
    for i := 0 to |bs|
      invariant fresh(g) && g.Edges()
      invariant good ==> g.patches == GraphOf(lines[..i]) && g.pending == Vertices(lines[..i])
    {
      assert Written(t, lines[i], bs[i], c, rd);
      var p := LoadPatch(bs[i], c, rd, t, lines[i]);
      if good {
        assert Carried(lines[i], c, rd);
      }
      if p.None? {
        return None;
      }
      EdgesNext(lines, i);
      g.AddEdgeAndVertices(p.value);
    }
    assert lines[..|lines|] == lines;
    r := Some(g);
  }

  lemma EdgesNext(lines: seq<Line>, i: nat)
    requires i < |lines|
    ensures var p := lines[i].patch;
            && GraphOf(lines[..i + 1]) == GraphOf(lines[..i])[(p.from, p.to) := p]
            && Vertices(lines[..i + 1]) == Vertices(lines[..i]) + {p.from, p.to}
  {
    assert Init(lines[..i + 1]) == lines[..i] && Last(lines[..i + 1]) == lines[i];
  }

  ghost predicate Costly(lines: seq<Line>) {
    forall i :: 0 <= i < |lines| ==> Priced(lines[i].patch)
  }

  // ----- the file

  function StateBytes(v: Value, c: Codecs, rd: Reading): Blob {
    c.objects.enc(ToRaw(rd.form(v)))
  }

  ghost predicate StateCarried(v: Value, c: Codecs, rd: Reading) {
    && PatchCodec.Kept(c.objects, ToRaw(rd.form(v))) && Typed(c.registry, rd.form(v)) && Unambiguous(rd.form(v))
    && rd.view(rd.form(v)) == v
  }

  /** The storage holds the recorded history. */
  ghost predicate Holds(st: Storage.ReplayStorage, last: Blob, times: seq<int>, states: seq<Value>, c: Codecs,
                        rd: Reading, tree: PathTree.Tree, lines: seq<Line>)
    requires |times| == |states| > 0
    reads st
  {
    && st.Closed(last) && st.initial == StateBytes(states[0], c, rd) && st.meta.start == times[0]
    && AllWritten(tree, lines, st.patches, c, rd) && Recorded(times, states, lines, |times|)
    && PathTree.Journals(PathTree.ROOT, PathTree.Flatten(NodesOf(lines)), tree)
  }

  /** A new file without patches, with room for max of them. */
  method EmptyFile(codec: Storage.Codec, meta: Storage.Metadata, initial: Blob, max: nat)
    returns (r: Option<Storage.ReplayStorage>)
    requires Storage.Inverse(codec) && meta.current == 0
    ensures r.Some? <==> Storage.FitsFile(codec, meta, initial, [], Storage.ENTRY_SIZE * max, 0, initial)
    ensures r.Some? ==>
              && fresh(r.value) && r.value.Valid() && r.value.patches == [] && r.value.initial == initial
              && r.value.codec == codec && |r.value.index| == Storage.ENTRY_SIZE * max
              && r.value.meta == meta.(indexStart := r.value.meta.indexStart)
  {
    var es := seq(max, i => Storage.Entry(0, 0));
    var index := Storage.EncodeIndex(es);
    Storage.IndexRoundTrip(es);
    var st := new Storage.ReplayStorage(codec, meta);
    var ok := st.WriteAll(initial, [], index, [], initial, []);
    r := if ok then Some(st) else None;
  }

  /** Record a history and write it.  It succeeds exactly when every stored patch, the empty file
      and the file with all patches fit their fields. */
  method Save(times: seq<int>, states: seq<Value>, codec: Storage.Codec, meta: Storage.Metadata, max: nat, c: Codecs,
              rd: Reading, ghost schema: string -> set<Key>)
    returns (r: Option<Storage.ReplayStorage>, last: Blob, ghost tree: PathTree.Tree, ghost lines: seq<Line>,
             ghost bs: seq<Blob>, ghost indexStart: int)
    requires |times| == |states| > 0 && Rising(times) && Recordable(states, schema)
    requires Storage.Inverse(codec) && meta.start == times[0] && meta.current == 0
    ensures r.Some? <==>
              && AllFit(lines, c, rd)
              && Storage.FitsFile(codec, meta, StateBytes(states[0], c, rd), [], Storage.ENTRY_SIZE * max, 0,
                                  StateBytes(states[0], c, rd))
              && Storage.FitsRecording(meta.(indexStart := indexStart), codec, Storage.ENTRY_SIZE * max, bs, last)
    ensures AllFit(lines, c, rd) ==> AllWritten(tree, lines, bs, c, rd)
    ensures r.Some? ==>
              && fresh(r.value) && Holds(r.value, last, times, states, c, rd, tree, lines) && r.value.patches == bs
              && r.value.meta.mapId == meta.mapId
  {
    var batches;
    batches, tree, lines := WriteHistory(times, states, c, rd, schema);
    last, bs, indexStart := StateBytes(states[|states| - 1], c, rd), [], 0;
    if batches.None? {
      return None, last, tree, lines, bs, indexStart;
    }
    bs := Storage.Flat(batches.value);
    var st := EmptyFile(codec, meta, StateBytes(states[0], c, rd), max);
    if st.None? {
      return None, last, tree, lines, bs, indexStart;
    }
    indexStart := st.value.meta.indexStart;
    NoEmptyPatch(batches.value, tree, lines, c, rd);
    assert [] + bs == bs;
    var ok := Storage.RecordBatches(st.value, batches.value, last);
    r := if ok then st else None;
  }

  lemma {:induction false} FlatHas(batches: seq<seq<Blob>>, i: nat, j: nat)
    requires i < |batches| && j < |batches[i]|
    ensures batches[i][j] in Storage.Flat(batches)
  {
    if i < |batches| - 1 {
      FlatHas(Init(batches), i, j);
      assert Init(batches)[i] == batches[i];
    }
  }

  lemma NoEmptyPatch(batches: seq<seq<Blob>>, tree: PathTree.Tree, lines: seq<Line>, c: Codecs, rd: Reading)
    requires AllWritten(tree, lines, Storage.Flat(batches), c, rd)
    ensures forall i, j :: 0 <= i < |batches| && 0 <= j < |batches[i]| ==> batches[i][j] != []
  {
    forall i, j | 0 <= i < |batches| && 0 <= j < |batches[i]| ensures batches[i][j] != [] {
      FlatHas(batches, i, j);
      var k :| 0 <= k < |lines| && Storage.Flat(batches)[k] == batches[i][j];
      assert Written(tree, lines[k], batches[i][j], c, rd);
    }
  }

  /** Read the file and make it a segment one can jump in: it means the recorded history. */
  method Open(st: Storage.ReplayStorage, ghost last: Blob, c: Codecs, rd: Reading, ghost times: seq<int>,
              ghost states: seq<Value>, ghost schema: string -> set<Key>, ghost tree: PathTree.Tree,
              ghost lines: seq<Line>) returns (s: Segment)
    requires |times| == |states| > 0 && Rising(times) && Recordable(states, schema)
    requires Holds(st, last, times, states, c, rd, tree, lines) && Storage.FitsId(st.meta.mapId)
    requires AllCarried(lines, c, rd) && StateCarried(states[0], c, rd)
    ensures fresh(s) && fresh(s.graph) && s.Valid() && s.saved == []
    ensures s.recorded == History(times, states) && s.state == states[0] && s.time == times[0] == s.start
    ensures |times| > 1 ==> s.graph.stamps == times
  {
    var contents, read := Storage.ReadPatches(st, last);
    var t := LoadTree(read, c, rd, tree, lines);
    var g := LoadEdges(read, c, rd, t.value, lines);
    LinesInTree(tree, lines, read, c, rd);
    RoundTrip(c.registry, rd.form(states[0]));
    var state := rd.view(FromRaw(c.registry, c.objects.dec(contents.initial).value).value);
    s := MakeSegment(contents.meta.start, g.value, t.value, state, times, states, schema, lines);
  }

  lemma {:induction false} LinesInTree(tree: PathTree.Tree, lines: seq<Line>, bs: seq<Blob>, c: Codecs, rd: Reading)
    requires AllWritten(tree, lines, bs, c, rd)
    ensures AllInTree(tree, GraphOf(lines))
  {
    if lines != [] {
      assert AllWritten(tree, Init(lines), Init(bs), c, rd) by {
        forall i | 0 <= i < |lines| - 1 ensures Written(tree, Init(lines)[i], Init(bs)[i], c, rd) {
          assert Written(tree, lines[i], bs[i], c, rd);
        }
      }
      LinesInTree(tree, Init(lines), Init(bs), c, rd);
      assert Written(tree, lines[|lines| - 1], bs[|lines| - 1], c, rd);
      LineInTree(tree, Last(lines));
    }
  }

  lemma LineInTree(tree: PathTree.Tree, l: Line)
    requires At(tree, l.patch, l.paths)
    ensures InTree(tree, l.patch)
  {
    forall op | op in l.patch.ops ensures PathTree.HasPath(tree, op.path) {
      var i :| 0 <= i < |l.patch.ops| && l.patch.ops[i] == op;
      assert l.paths[i] in tree.nodes;
    }
  }

  method MakeSegment(start: int, g: Graph, t: PathTree.Tree, state: Value, ghost times: seq<int>,
                     ghost states: seq<Value>, ghost schema: string -> set<Key>, ghost lines: seq<Line>)
    returns (s: Segment)
    requires |times| == |states| > 0 && Rising(times) && Recordable(states, schema)
    requires start == times[0] && state == states[0] && PathTree.Valid(t) && AllInTree(t, GraphOf(lines))
    requires Recorded(times, states, lines, |times|)
    requires g.Edges() && g.patches == GraphOf(lines) && g.pending == Vertices(lines)
    modifies g
    ensures fresh(s) && s.graph == g && s.Valid() && s.saved == []
    ensures s.recorded == History(times, states) && s.state == states[0] && s.time == times[0] == s.start
    ensures |times| > 1 ==> s.graph.stamps == times
  {
    FinishGraph(g, times, states, lines);
    s := SegmentOf(start, g, t, state, times, states, schema);
  }

  /** From the file to any sequence of jumps: the state is the one recorded at the greatest
      recorded time not after the last target reached, unconditionally without merging, and else
      as long as every merged chain was good. */
  method OpenAndJump(st: Storage.ReplayStorage, ghost last: Blob, c: Codecs, rd: Reading, ghost times: seq<int>,
                     ghost states: seq<Value>, ghost schema: string -> set<Key>, ghost tree: PathTree.Tree,
                     ghost lines: seq<Line>, calls: seq<(int, bool)>, dijkstra: Dijkstra)
    returns (s: Segment, ghost steps: seq<Step>)
    requires |times| == |states| > 0 && Rising(times) && Recordable(states, schema) && Solves(dijkstra)
    requires Holds(st, last, times, states, c, rd, tree, lines) && Storage.FitsId(st.meta.mapId)
    requires AllCarried(lines, c, rd) && StateCarried(states[0], c, rd)
    ensures s.recorded == History(times, states) && Targets(calls, steps)
    ensures s.time == LastReached(times[0], steps, s)
    ensures AllGood(s.saved) ==> HoldsAt(s.recorded, s.Now(), s.time)
    ensures NoMerging(calls) ==> s.saved == [] && HoldsAt(s.recorded, s.Now(), s.time)
  {
    s := Open(st, last, c, rd, times, states, schema, tree, lines);
    steps := JumpFrom(s, calls, dijkstra);
  }

  /** Any sequence of jumps in a replay of one segment. */
  method JumpFrom(s: Segment, calls: seq<(int, bool)>, dijkstra: Dijkstra) returns (ghost steps: seq<Step>)
    requires s.Valid() && s.saved == [] && Solves(dijkstra)
    modifies s, s.graph
    ensures Targets(calls, steps) && s.time == LastReached(old(s.time), steps, s)
    ensures AllGood(s.saved) ==> HoldsAt(s.recorded, s.Now(), s.time)
    ensures NoMerging(calls) ==> s.saved == [] && HoldsAt(s.recorded, s.Now(), s.time)
  {
    var replay := new ReplayInterface([s], s.start, s);
    AllSegments(replay, s);
    ghost var first := replay.Views();
    steps := replay.JumpAll(calls, dijkstra);
    OnlySegment(replay, s, first, steps);
  }

  lemma AllSegments(replay: ReplayInterface, s: Segment)
    requires replay.segments == [s] && replay.startTime == s.start && replay.current == s && replay.time == s.time
    requires s.Valid() && s.saved == []
    ensures replay.Sound() && replay.AllKept()
  {
  }

  lemma OnlySegment(replay: ReplayInterface, s: Segment, first: seq<View>, steps: seq<Step>)
    requires replay.segments == [s] && AllReached(replay.segments, first, replay.Views(), steps)
    requires AllHold(replay.segments, replay.Views()) && |first| == 1 && first[0].saved == []
    ensures s.time == LastReached(first[0].time, steps, s)
    ensures AllGood(s.saved) ==> HoldsAt(s.recorded, s.Now(), s.time)
    ensures SameSaved(first, replay.Views()) ==> s.saved == [] && HoldsAt(s.recorded, s.Now(), s.time)
  {
    assert replay.Views()[0] == s.Now();
  }

  /** `finalize` on the edges of a history. */
  method FinishGraph(g: Graph, ghost times: seq<int>, ghost states: seq<Value>, ghost lines: seq<Line>)
    requires |times| == |states| > 0 && Rising(times) && Recorded(times, states, lines, |times|)
    requires g.Edges() && g.patches == GraphOf(lines) && g.pending == Vertices(lines)
    modifies g
    ensures g.Valid() && g.patches == GraphOf(lines) && Joined(g.stamps, g.patches)
    ensures (forall t :: t in g.stamps ==> t in times) && (g.stamps != [] ==> g.stamps[0] == times[0])
    ensures |times| > 1 ==> g.stamps == times
  {
    g.Finalize();
    StampsAre(times, GraphOf(lines), Vertices(lines), g.stamps);
  }
}
