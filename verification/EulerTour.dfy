/** The Euler tour of a rooted tree, as the path tree computes it with an explicit stack.

    The tour is specified by the trace of its events: a node is entered, revisited between
    two of its children (not after the last one) and left.  A step of the clock is one
    event, so `tin` and `tout` are positions in the trace, and the tour array is the trace
    without the leaving events. */
module EulerTour {

  /** Node 0 is the root; par[0] is not used. */
  datatype Tree = Tree(par: seq<nat>, kids: seq<seq<nat>>)

  ghost predicate ChildrenOf(t: Tree, u: nat)
    requires u < |t.kids|
  {
    && (forall c :: c in t.kids[u] <==> 0 < c < |t.par| && t.par[c] == u)
    && (forall i, j :: 0 <= i < j < |t.kids[u]| ==> t.kids[u][i] != t.kids[u][j])
  }

  /** Parents come before their children, and every node lists its children once each. */
  ghost predicate IsTree(t: Tree) {
    && 0 < |t.par| == |t.kids|
    && (forall v :: 0 < v < |t.par| ==> t.par[v] < v)
    && (forall u {:trigger ChildrenOf(t, u)} :: 0 <= u < |t.kids| ==> ChildrenOf(t, u))
  }

  predicate Node(t: Tree, v: int) {
    0 <= v < |t.par|
  }

  /** u is v or lies above it. */
  ghost predicate Anc(t: Tree, u: nat, v: nat)
    requires IsTree(t) && Node(t, v)
    decreases v
  {
    u == v || (v > 0 && Anc(t, u, t.par[v]))
  }

  function Depth(t: Tree, v: nat): nat
    requires forall w :: 0 < w < |t.par| ==> t.par[w] < w
    requires Node(t, v)
    decreases v
  {
    if v == 0 then 0 else Depth(t, t.par[v]) + 1
  }

  // ----- ancestors

  lemma {:induction false} AncRoot(t: Tree, v: nat)
    requires IsTree(t) && Node(t, v)
    ensures Anc(t, 0, v)
    decreases v
  {
    if v > 0 {
      AncRoot(t, t.par[v]);
    }
  }

  lemma {:induction false} AncBelow(t: Tree, u: nat, v: nat)
    requires IsTree(t) && Node(t, v) && Anc(t, u, v)
    ensures u <= v && Node(t, u) && Depth(t, u) <= Depth(t, v)
    ensures u != v ==> u < v && Depth(t, u) < Depth(t, v)
    decreases v
  {
    if u != v {
      AncBelow(t, u, t.par[v]);
    }
  }

  lemma {:induction false} AncTrans(t: Tree, u: nat, v: nat, w: nat)
    requires IsTree(t) && Node(t, w) && Anc(t, v, w) && Node(t, v) && Anc(t, u, v)
    ensures Anc(t, u, w)
    decreases w
  {
    if v != w {
      AncTrans(t, u, v, t.par[w]);
    }
  }

  /** The ancestors of a node form a chain. */
  lemma {:induction false} AncChain(t: Tree, u: nat, v: nat, w: nat)
    requires IsTree(t) && Node(t, w) && Anc(t, u, w) && Anc(t, v, w)
    ensures Node(t, u) && Node(t, v) && (Anc(t, u, v) || Anc(t, v, u))
    decreases w
  {
    AncBelow(t, u, w);
    AncBelow(t, v, w);
    if u != w && v != w {
      AncChain(t, u, v, t.par[w]);
    }
  }

  /** The child of u on the way down to v. */
  lemma {:induction false} AncChild(t: Tree, u: nat, v: nat) returns (c: nat)
    requires IsTree(t) && Node(t, v) && Anc(t, u, v) && u != v
    ensures 0 < c < |t.par| && t.par[c] == u && Anc(t, c, v)
    decreases v
  {
    if t.par[v] == u {
      c := v;
    } else {
      c := AncChild(t, u, t.par[v]);
    }
  }

  // ----- the trace

  datatype Event = Enter(node: nat) | Revisit(node: nat) | Leave(node: nat)

  ghost function Trace(t: Tree, u: nat): (r: seq<Event>)
    requires IsTree(t) && Node(t, u)
    ensures r != []
    decreases |t.par| - u, 1, 0
  {
    [Enter(u)] + Rest(t, u, 0) + [Leave(u)]
  }

  /** The visits of the children from the i-th on, with the revisits between them. */
  ghost function Rest(t: Tree, u: nat, i: nat): seq<Event>
    requires IsTree(t) && Node(t, u) && i <= |t.kids[u]|
    decreases |t.par| - u, 0, |t.kids[u]| - i
  {
    assert ChildrenOf(t, u);
    if i == |t.kids[u]| then []
    else
      assert t.kids[u][i] in t.kids[u];
      if i == |t.kids[u]| - 1 then Trace(t, t.kids[u][i])
      else Trace(t, t.kids[u][i]) + [Revisit(u)] + Rest(t, u, i + 1)
  }

  /** Which child of u is c. */
  ghost function ChildPos(t: Tree, u: nat, c: nat): (i: nat)
    requires IsTree(t) && Node(t, c) && c > 0 && t.par[c] == u
    ensures i < |t.kids[u]| && t.kids[u][i] == c
  {
    assert ChildrenOf(t, u) && c in t.kids[u];
    var i :| 0 <= i < |t.kids[u]| && t.kids[u][i] == c;
    i
  }

  lemma Child(t: Tree, u: nat, i: nat)
    requires IsTree(t) && Node(t, u) && i < |t.kids[u]|
    ensures u < t.kids[u][i] < |t.par| && t.par[t.kids[u][i]] == u
    ensures forall j :: 0 <= j < |t.kids[u]| && t.kids[u][j] == t.kids[u][i] ==> j == i
  {
    assert ChildrenOf(t, u);
    assert t.kids[u][i] in t.kids[u];
  }

  /** The trace of a node is about the nodes at or below it, only. */
  lemma {:induction false} TraceBelow(t: Tree, u: nat, e: Event)
    requires IsTree(t) && Node(t, u) && e in Trace(t, u)
    ensures Node(t, e.node) && Anc(t, u, e.node)
    decreases |t.par| - u, 1, 0
  {
    if e != Enter(u) && e != Leave(u) {
      assert e in Rest(t, u, 0);
      var i := RestBelow(t, u, 0, e);
      assert Anc(t, u, u);
    }
  }

  lemma {:induction false} RestBelow(t: Tree, u: nat, i: nat, e: Event) returns (j: nat)
    requires IsTree(t) && Node(t, u) && i <= |t.kids[u]| && e in Rest(t, u, i)
    ensures Node(t, e.node) && Anc(t, u, e.node)
    ensures e != Revisit(u) ==> i <= j < |t.kids[u]| && Anc(t, t.kids[u][j], e.node)
    decreases |t.par| - u, 0, |t.kids[u]| - i
  {
    Child(t, u, i);
    var c := t.kids[u][i];
    if e in Trace(t, c) {
      TraceBelow(t, c, e);
      AncTrans(t, u, c, e.node);
      j := i;
    } else if e == Revisit(u) {
      j := i;
    } else {
      j := RestBelow(t, u, i + 1, e);
    }
  }

  /** How often an event happens. */
  ghost function Count(s: seq<Event>, e: Event): nat {
    if s == [] then 0 else Count(s[..|s| - 1], e) + if s[|s| - 1] == e then 1 else 0
  }

  lemma {:induction false} CountAppend(a: seq<Event>, b: seq<Event>, e: Event)
    ensures Count(a + b, e) == Count(a, e) + Count(b, e)
  {
    if b == [] {
      assert a + b == a;
    } else {
      var n := |b| - 1;
      assert (a + b)[..|a + b| - 1] == a + b[..n];
      CountAppend(a, b[..n], e);
    }
  }

  lemma {:induction false} CountNone(s: seq<Event>, e: Event)
    ensures Count(s, e) == 0 <==> e !in s
  {
    if s != [] {
      CountNone(s[..|s| - 1], e);
      assert s == s[..|s| - 1] + [s[|s| - 1]];
    }
  }

  predicate Ends(e: Event, v: nat) {
    e == Enter(v) || e == Leave(v)
  }

  /** Two children of a node have nothing below them in common. */
  lemma Apart(t: Tree, u: nat, i: nat, j: nat, v: nat)
    requires IsTree(t) && Node(t, u) && i < |t.kids[u]| && j < |t.kids[u]| && i != j && Node(t, v)
    requires Anc(t, t.kids[u][i], v)
    ensures !Anc(t, t.kids[u][j], v)
  {
    Child(t, u, i);
    Child(t, u, j);
    var c, d := t.kids[u][i], t.kids[u][j];
    if Anc(t, d, v) {
      AncChain(t, c, d, v);
      if Anc(t, c, d) {
        assert Anc(t, c, u);
        AncBelow(t, c, u);
      } else {
        assert Anc(t, d, u);
        AncBelow(t, d, u);
      }
      assert false;
    }
  }

  /** How often an entering or leaving event happens, node by node. */
  ghost function Visits(t: Tree, u: nat, e: Event): nat
    requires IsTree(t) && Node(t, u)
    decreases |t.par| - u, 1, 0
  {
    (if Ends(e, u) then 1 else 0) + VisitsRest(t, u, 0, e)
  }

  ghost function VisitsRest(t: Tree, u: nat, i: nat, e: Event): nat
    requires IsTree(t) && Node(t, u) && i <= |t.kids[u]|
    decreases |t.par| - u, 0, |t.kids[u]| - i
  {
    if i == |t.kids[u]| then 0
    else
      Child(t, u, i);
      Visits(t, t.kids[u][i], e) + VisitsRest(t, u, i + 1, e)
  }

  lemma {:induction false} VisitsOnce(t: Tree, u: nat, v: nat, e: Event)
    requires IsTree(t) && Node(t, u) && Node(t, v) && Ends(e, v)
    ensures Visits(t, u, e) == if Anc(t, u, v) then 1 else 0
    decreases |t.par| - u, 1, 0
  {
    if Anc(t, u, v) && u != v {
      var c := AncChild(t, u, v);
      VisitsBelow(t, u, 0, ChildPos(t, u, c), v, e);
    } else {
      VisitsElsewhere(t, u, 0, v, e);
    }
  }

  /** Below u, v is met by way of its j-th child. */
  lemma {:induction false} VisitsBelow(t: Tree, u: nat, i: nat, j: nat, v: nat, e: Event)
    requires IsTree(t) && Node(t, u) && Node(t, v) && Ends(e, v)
    requires i <= |t.kids[u]| && j < |t.kids[u]| && Anc(t, t.kids[u][j], v)
    ensures VisitsRest(t, u, i, e) == if i <= j then 1 else 0
    decreases |t.par| - u, 0, |t.kids[u]| - i
  {
    if i < |t.kids[u]| {
      Child(t, u, i);
      VisitsOnce(t, t.kids[u][i], v, e);
      if i != j {
        Apart(t, u, j, i, v);
      }
      VisitsBelow(t, u, i + 1, j, v, e);
    }
  }

  /** A node not strictly below u is not met below u. */
  lemma {:induction false} VisitsElsewhere(t: Tree, u: nat, i: nat, v: nat, e: Event)
    requires IsTree(t) && Node(t, u) && Node(t, v) && Ends(e, v)
    requires i <= |t.kids[u]| && (u == v || !Anc(t, u, v))
    ensures VisitsRest(t, u, i, e) == 0
    decreases |t.par| - u, 0, |t.kids[u]| - i
  {
    if i < |t.kids[u]| {
      Child(t, u, i);
      var c := t.kids[u][i];
      VisitsOnce(t, c, v, e);
      if Anc(t, c, v) {
        AncTrans(t, u, c, v);
        AncBelow(t, c, v);
        assert false;
      }
      VisitsElsewhere(t, u, i + 1, v, e);
    }
  }

  lemma {:induction false} CountTrace(t: Tree, u: nat, e: Event)
    requires IsTree(t) && Node(t, u) && !e.Revisit?
    ensures Count(Trace(t, u), e) == Visits(t, u, e)
    decreases |t.par| - u, 1, 0
  {
    CountAppend([Enter(u)] + Rest(t, u, 0), [Leave(u)], e);
    CountAppend([Enter(u)], Rest(t, u, 0), e);
    CountRest(t, u, 0, e);
  }

  lemma {:induction false} CountRest(t: Tree, u: nat, i: nat, e: Event)
    requires IsTree(t) && Node(t, u) && !e.Revisit? && i <= |t.kids[u]|
    ensures Count(Rest(t, u, i), e) == VisitsRest(t, u, i, e)
    decreases |t.par| - u, 0, |t.kids[u]| - i
  {
    if i < |t.kids[u]| {
      Child(t, u, i);
      CountTrace(t, t.kids[u][i], e);
      CountRest(t, u, i + 1, e);
      if i + 1 < |t.kids[u]| {
        CountAppend(Trace(t, t.kids[u][i]) + [Revisit(u)], Rest(t, u, i + 1), e);
        CountAppend(Trace(t, t.kids[u][i]), [Revisit(u)], e);
        CountNone([Revisit(u)], e);
      }
    }
  }

  /** Every node at or below u is entered once and left once. */
  lemma TraceOnce(t: Tree, u: nat, v: nat, e: Event)
    requires IsTree(t) && Node(t, u) && Node(t, v) && Ends(e, v)
    ensures Count(Trace(t, u), e) == if Anc(t, u, v) then 1 else 0
  {
    CountTrace(t, u, e);
    VisitsOnce(t, u, v, e);
  }

  // ----- the trace of a node is one piece of the trace of any node above it

  /** An event at which the tour array lists the node. */
  predicate Listed(e: Event, v: nat) {
    e == Enter(v) || e == Revisit(v)
  }

  lemma {:induction false} RestSlice(t: Tree, u: nat, i: nat, j: nat) returns (a: seq<Event>, b: seq<Event>)
    requires IsTree(t) && Node(t, u) && i <= j < |t.kids[u]|
    ensures Node(t, t.kids[u][j]) && Rest(t, u, i) == a + Trace(t, t.kids[u][j]) + b
    ensures i < j ==> a != [] && a[|a| - 1] == Revisit(u)
    ensures i == j ==> a == []
    decreases j - i
  {
    Child(t, u, i);
    if i == j {
      a := [];
      b := if i == |t.kids[u]| - 1 then [] else [Revisit(u)] + Rest(t, u, i + 1);
      assert Rest(t, u, i) == a + Trace(t, t.kids[u][j]) + b;
    } else {
      var a', b' := RestSlice(t, u, i + 1, j);
      a, b := Trace(t, t.kids[u][i]) + [Revisit(u)] + a', b';
      assert Rest(t, u, i) == a + Trace(t, t.kids[u][j]) + b;
    }
  }

  /** The piece, and what comes just before it: a visit of the parent. */
  lemma {:induction false} TraceSlice(t: Tree, u: nat, v: nat) returns (a: seq<Event>, b: seq<Event>)
    requires IsTree(t) && Node(t, v) && Anc(t, u, v)
    ensures Node(t, u) && Trace(t, u) == a + Trace(t, v) + b
    ensures u != v ==> a != [] && Listed(a[|a| - 1], t.par[v])
    decreases v
  {
    if u == v {
      a, b := [], [];
      assert Trace(t, u) == a + Trace(t, v) + b;
    } else {
      var p := t.par[v];
      var i := ChildPos(t, p, v);
      var a', b' := TraceSlice(t, u, p);
      var x, y := RestSlice(t, p, 0, i);
      a, b := a' + [Enter(p)] + x, y + [Leave(p)] + b';
      assert Trace(t, p) == [Enter(p)] + (x + Trace(t, v) + y) + [Leave(p)];
      assert Trace(t, u) == a + Trace(t, v) + b;
    }
  }

  lemma {:induction false} Once(s: seq<Event>, e: Event, i: nat, j: nat)
    requires Count(s, e) <= 1 && i < |s| && j < |s| && s[i] == e && s[j] == e
    ensures i == j
  {
    if i < j {
      Twice(s, e, i, j);
    } else if j < i {
      Twice(s, e, j, i);
    }
  }

  lemma Twice(s: seq<Event>, e: Event, i: nat, j: nat)
    requires i < j < |s| && s[i] == e && s[j] == e
    ensures Count(s, e) >= 2
  {
    assert s == s[..j] + s[j..];
    CountAppend(s[..j], s[j..], e);
    assert s[..j][i] == e && s[j..][0] == e;
    CountNone(s[..j], e);
    CountNone(s[j..], e);
  }

  // ----- what the tour arrays hold

  datatype Tour = Tour(euler: seq<nat>, tin: seq<int>, tout: seq<int>, depth: seq<int>, parent: seq<int>,
                       first: seq<int>)

  /** The tour array: the nodes of the listing events, in order. */
  ghost function Entries(s: seq<Event>): (r: seq<nat>)
    ensures |r| <= |s|
  {
    if s == [] then []
    else
      var e := s[|s| - 1];
      if e.Leave? then Entries(s[..|s| - 1]) else Entries(s[..|s| - 1]) + [e.node]
  }

  /** The arrays of node v agree with the trace. */
  ghost predicate Placed(t: Tree, r: Tour, v: nat)
    requires IsTree(t) && Node(t, v) && Sized(t, r)
  {
    && 0 <= r.tin[v] < |Trace(t, 0)| && Trace(t, 0)[r.tin[v]] == Enter(v)
    && 0 <= r.tout[v] < |Trace(t, 0)| && Trace(t, 0)[r.tout[v]] == Leave(v)
    && r.depth[v] == Depth(t, v)
    && r.parent[v] == (if v == 0 then -1 else t.par[v])
    && r.first[v] == |Entries(Trace(t, 0)[..r.tin[v]])|
  }

  predicate Sized(t: Tree, r: Tour) {
    |r.tin| == |r.tout| == |r.depth| == |r.parent| == |r.first| == |t.par|
  }

  /** r is the Euler tour of t. */
  ghost predicate TourOf(t: Tree, r: Tour) {
    && IsTree(t) && Sized(t, r)
    && (forall v {:trigger Placed(t, r, v)} :: 0 <= v < |t.par| ==> Placed(t, r, v))
    && r.euler == Entries(Trace(t, 0))
  }

  // ----- the interval test

  /** Where the trace of v lies. */
  lemma Piece(t: Tree, r: Tour, v: nat)
    requires TourOf(t, r) && Node(t, v)
    ensures 0 <= r.tin[v] <= r.tout[v] < |Trace(t, 0)| && r.tout[v] == r.tin[v] + |Trace(t, v)| - 1
    ensures Trace(t, 0)[r.tin[v]..r.tout[v] + 1] == Trace(t, v)
    ensures v > 0 ==> r.tin[v] > 0 && Listed(Trace(t, 0)[r.tin[v] - 1], t.par[v])
  {
    var T := Trace(t, 0);
    AncRoot(t, v);
    assert Placed(t, r, v);
    var a, b := TraceSlice(t, 0, v);
    var n := |Trace(t, v)|;
    assert T[|a|] == Enter(v) && T[|a| + n - 1] == Leave(v);
    TraceOnce(t, 0, v, Enter(v));
    TraceOnce(t, 0, v, Leave(v));
    Once(T, Enter(v), |a|, r.tin[v]);
    Once(T, Leave(v), |a| + n - 1, r.tout[v]);
    assert T[|a|..|a| + n] == Trace(t, v);
  }

  /** What happens while u is open concerns u and the nodes below it. */
  lemma DuringBelow(t: Tree, r: Tour, u: nat, i: nat)
    requires TourOf(t, r) && Node(t, u) && r.tin[u] <= i <= r.tout[u]
    ensures i < |Trace(t, 0)| && Node(t, Trace(t, 0)[i].node) && Anc(t, u, Trace(t, 0)[i].node)
  {
    Piece(t, r, u);
    var piece := Trace(t, u);
    assert piece[i - r.tin[u]] == Trace(t, 0)[i];
    TraceBelow(t, u, Trace(t, 0)[i]);
  }

  lemma BelowDuring(t: Tree, r: Tour, u: nat, v: nat)
    requires TourOf(t, r) && Node(t, u) && Node(t, v) && Anc(t, u, v)
    ensures r.tin[u] <= r.tin[v] <= r.tout[u]
  {
    TraceOnce(t, u, v, Enter(v));
    CountNone(Trace(t, u), Enter(v));
    var i :| 0 <= i < |Trace(t, u)| && Trace(t, u)[i] == Enter(v);
    Piece(t, r, u);
    EnteredAt(t, r, v, r.tin[u] + i);
  }

  lemma EnteredAt(t: Tree, r: Tour, v: nat, i: nat)
    requires TourOf(t, r) && Node(t, v) && i < |Trace(t, 0)| && Trace(t, 0)[i] == Enter(v)
    ensures r.tin[v] == i
  {
    assert Placed(t, r, v);
    AncRoot(t, v);
    TraceOnce(t, 0, v, Enter(v));
    Once(Trace(t, 0), Enter(v), i, r.tin[v]);
  }

  /** `tin[u] <= tin[v] <= tout[u]` holds exactly when u is v or an ancestor of v. */
  lemma IntervalIsAncestor(t: Tree, r: Tour, u: nat, v: nat)
    requires TourOf(t, r) && Node(t, u) && Node(t, v)
    ensures r.tin[u] <= r.tin[v] <= r.tout[u] <==> Anc(t, u, v)
  {
    if r.tin[u] <= r.tin[v] <= r.tout[u] {
      assert Placed(t, r, v);
      DuringBelow(t, r, u, r.tin[v]);
    }
    if Anc(t, u, v) {
      BelowDuring(t, r, u, v);
    }
  }

  /** Different nodes are entered at different times. */
  lemma TinInjective(t: Tree, r: Tour, u: nat, v: nat)
    requires TourOf(t, r) && Node(t, u) && Node(t, v) && r.tin[u] == r.tin[v]
    ensures u == v
  {
    assert Placed(t, r, u) && Placed(t, r, v);
  }

  // ----- the lowest common ancestor in the tour array

  ghost predicate IsLca(t: Tree, l: nat, u: nat, v: nat)
    requires IsTree(t) && Node(t, u) && Node(t, v)
  {
    && Node(t, l) && Anc(t, l, u) && Anc(t, l, v)
    && forall w: nat :: Anc(t, w, u) && Anc(t, w, v) ==> Anc(t, w, l)
  }

  lemma {:induction false} LcaExists(t: Tree, u: nat, v: nat) returns (l: nat)
    requires IsTree(t) && Node(t, u) && Node(t, v)
    ensures IsLca(t, l, u, v)
    decreases u
  {
    if Anc(t, u, v) {
      l := u;
    } else {
      AncRoot(t, v);
      l := LcaExists(t, t.par[u], v);
      forall w: nat | Anc(t, w, u) && Anc(t, w, v) ensures Anc(t, w, l) {
        assert w != u;
      }
    }
  }

  ghost function Pos(s: seq<Event>, i: nat): nat
    requires i <= |s|
  {
    |Entries(s[..i])|
  }

  lemma PosNext(s: seq<Event>, i: nat)
    requires i < |s|
    ensures Pos(s, i + 1) == Pos(s, i) + if s[i].Leave? then 0 else 1
    ensures !s[i].Leave? ==> Entries(s[..i + 1]) == Entries(s[..i]) + [s[i].node]
    ensures s[i].Leave? ==> Entries(s[..i + 1]) == Entries(s[..i])
  {
    assert s[..i + 1][..i] == s[..i];
  }

  lemma {:induction false} PosMonotone(s: seq<Event>, i: nat, j: nat)
    requires i <= j <= |s|
    ensures Pos(s, i) <= Pos(s, j)
    ensures Entries(s[..i]) <= Entries(s[..j])
    decreases j
  {
    if i < j {
      PosNext(s, j - 1);
      PosMonotone(s, i, j - 1);
    }
  }

  /** A listing event and its place in the tour array. */
  lemma EntryAt(s: seq<Event>, i: nat)
    requires i < |s| && !s[i].Leave?
    ensures Pos(s, i) < |Entries(s)| && Entries(s)[Pos(s, i)] == s[i].node
  {
    PosNext(s, i);
    PosMonotone(s, i + 1, |s|);
    assert s[..|s|] == s;
  }

  /** Every place of the tour array between two events comes from an event between them. */
  lemma {:induction false} EntryFrom(s: seq<Event>, i: nat, j: nat, e: nat) returns (k: nat)
    requires i <= j < |s| && Pos(s, i) <= e < Pos(s, j + 1)
    ensures i <= k <= j && !s[k].Leave? && Pos(s, k) == e
    decreases j
  {
    PosNext(s, j);
    if e == Pos(s, j) {
      k := j;
    } else {
      k := EntryFrom(s, i, j - 1, e);
    }
  }

  lemma EntriesBelow(t: Tree, r: Tour, l: nat, u: nat, v: nat, e: nat)
    requires TourOf(t, r) && Node(t, u) && Node(t, v) && Node(t, l) && Anc(t, l, u) && Anc(t, l, v)
    requires r.tin[u] <= r.tin[v] && r.first[u] <= e <= r.first[v]
    ensures e < |r.euler| && Node(t, r.euler[e]) && Anc(t, l, r.euler[e])
  {
    var T := Trace(t, 0);
    assert Placed(t, r, u) && Placed(t, r, v) && Placed(t, r, l);
    PosNext(T, r.tin[v]);
    var k := EntryFrom(T, r.tin[u], r.tin[v], e);
    EntryAt(T, k);
    BelowDuring(t, r, l, u);
    BelowDuring(t, r, l, v);
    DuringBelow(t, r, l, k);
  }

  /** Between two nodes the tour visits their lowest common ancestor. */
  lemma LcaVisited(t: Tree, r: Tour, l: nat, u: nat, v: nat) returns (e: nat)
    requires TourOf(t, r) && Node(t, u) && Node(t, v) && IsLca(t, l, u, v) && r.tin[u] <= r.tin[v]
    ensures r.first[u] <= e <= r.first[v] && e < |r.euler| && r.euler[e] == l
  {
    var T := Trace(t, 0);
    assert Placed(t, r, u) && Placed(t, r, v);
    var i: nat;
    if l == v {
      BelowDuring(t, r, v, u);
      i := r.tin[v];
    } else {
      var c := AncChild(t, l, v);
      Piece(t, r, c);
      BelowDuring(t, r, c, v);
      if r.tin[c] <= r.tin[u] {
        IntervalIsAncestor(t, r, c, u);
        AncBelow(t, c, l);
        assert false;
      }
      i := r.tin[c] - 1;
    }
    PosMonotone(T, r.tin[u], i);
    PosMonotone(T, i, r.tin[v]);
    EntryAt(T, i);
    e := Pos(T, i);
  }

  /** p is a place of the tour array within lo..hi whose node is least deep there. */
  ghost predicate Shallowest(r: Tour, lo: int, hi: int, p: int) {
    && 0 <= lo <= p < hi <= |r.euler| && r.euler[p] < |r.depth|
    && forall q :: lo <= q < hi ==> r.euler[q] < |r.depth| && r.depth[r.euler[p]] <= r.depth[r.euler[q]]
  }

  /** The shallowest entry between the first visits of two nodes is their lowest common
      ancestor. */
  lemma ShallowestIsLca(t: Tree, r: Tour, u: nat, v: nat, p: nat)
    requires TourOf(t, r) && Node(t, u) && Node(t, v) && r.tin[u] <= r.tin[v]
    requires Shallowest(r, r.first[u], r.first[v] + 1, p)
    ensures IsLca(t, r.euler[p], u, v)
  {
    var l := LcaExists(t, u, v);
    EntriesBelow(t, r, l, u, v, p);
    var e := LcaVisited(t, r, l, u, v);
    assert Placed(t, r, l) && Placed(t, r, r.euler[p]);
    AncBelow(t, l, r.euler[p]);
  }

  /** The tour array lists nodes of the tree, and first visits lie in it in order of entry. */
  lemma FirstInTour(t: Tree, r: Tour, u: nat, v: nat)
    requires TourOf(t, r) && Node(t, u) && Node(t, v)
    ensures 0 <= r.first[v] < |r.euler|
    ensures r.tin[u] <= r.tin[v] <==> r.first[u] <= r.first[v]
  {
    var T := Trace(t, 0);
    assert Placed(t, r, u) && Placed(t, r, v);
    EntryAt(T, r.tin[v]);
    if r.tin[u] <= r.tin[v] {
      PosMonotone(T, r.tin[u], r.tin[v]);
    } else {
      PosNext(T, r.tin[v]);
      PosMonotone(T, r.tin[v] + 1, r.tin[u]);
    }
  }

  lemma TourNodes(t: Tree, r: Tour, e: nat)
    requires TourOf(t, r) && e < |r.euler|
    ensures Node(t, r.euler[e])
  {
    var T := Trace(t, 0);
    assert T[..|T|] == T;
    assert T[..0] == [];
    var k := EntryFrom(T, 0, |T| - 1, e);
    EntryAt(T, k);
    TraceBelow(t, 0, T[k]);
  }

  // ----- the stack machine

  datatype Frame = Frame(node: nat, depth: nat, state: nat)

  /** The events a stack frame stands for. */
  ghost function Work(t: Tree, f: Frame): (r: seq<Event>)
    requires IsTree(t) && Node(t, f.node)
    ensures r != []
  {
    if f.state == 0 then Trace(t, f.node) else if f.state == 1 then [Leave(f.node)] else [Revisit(f.node)]
  }

  ghost predicate GoodFrame(t: Tree, f: Frame) {
    IsTree(t) && Node(t, f.node) && (f.state == 0 ==> f.depth == Depth(t, f.node))
  }

  ghost predicate GoodStack(t: Tree, stack: seq<Frame>) {
    IsTree(t) && forall i {:trigger GoodFrame(t, stack[i])} :: 0 <= i < |stack| ==> GoodFrame(t, stack[i])
  }

  /** What is still to happen: the top frame's work comes first. */
  ghost function Pending(t: Tree, stack: seq<Frame>): seq<Event>
    requires GoodStack(t, stack)
  {
    if stack == [] then []
    else
      assert GoodFrame(t, stack[|stack| - 1]);
      assert GoodStack(t, stack[..|stack| - 1]) by {
        assert forall i :: 0 <= i < |stack| - 1 ==> GoodFrame(t, stack[i]);
      }
      Work(t, stack[|stack| - 1]) + Pending(t, stack[..|stack| - 1])
  }

  lemma Push(t: Tree, stack: seq<Frame>, f: Frame)
    requires GoodStack(t, stack) && GoodFrame(t, f)
    ensures GoodStack(t, stack + [f]) && Pending(t, stack + [f]) == Work(t, f) + Pending(t, stack)
  {
    assert (stack + [f])[..|stack|] == stack;
    assert forall i :: 0 <= i < |stack| ==> GoodFrame(t, stack[i]);
  }

  lemma Pop(t: Tree, stack: seq<Frame>)
    requires GoodStack(t, stack) && stack != []
    ensures GoodFrame(t, stack[|stack| - 1]) && GoodStack(t, stack[..|stack| - 1])
    ensures Pending(t, stack) == Work(t, stack[|stack| - 1]) + Pending(t, stack[..|stack| - 1])
  {
    assert GoodFrame(t, stack[|stack| - 1]);
    assert forall i :: 0 <= i < |stack| - 1 ==> GoodFrame(t, stack[i]);
  }

  /** What the frames pushed for the children from the j-th on stand for. */
  ghost function Queued(t: Tree, u: nat, j: nat): seq<Event>
    requires IsTree(t) && Node(t, u) && j <= |t.kids[u]|
  {
    if 0 < j < |t.kids[u]| then [Revisit(u)] + Rest(t, u, j) else Rest(t, u, j)
  }

  lemma QueuedStep(t: Tree, u: nat, j: nat)
    requires IsTree(t) && Node(t, u) && j < |t.kids[u]|
    ensures Node(t, t.kids[u][j]) && Rest(t, u, j) == Trace(t, t.kids[u][j]) + Queued(t, u, j + 1)
  {
    Child(t, u, j);
  }

  lemma Assoc(a: seq<Event>, b: seq<Event>, c: seq<Event>)
    ensures a + b + c == a + (b + c)
  {
  }

  lemma PushKid(t: Tree, u: nat, d: nat, j: nat, stack: seq<Frame>, below: seq<Event>)
    requires IsTree(t) && Node(t, u) && d == Depth(t, u) && j < |t.kids[u]| && GoodStack(t, stack)
    requires Pending(t, stack) == Queued(t, u, j + 1) + below
    ensures var f := Frame(t.kids[u][j], d + 1, 0);
            GoodStack(t, stack + [f]) && Pending(t, stack + [f]) == Rest(t, u, j) + below
  {
    Child(t, u, j);
    QueuedStep(t, u, j);
    Push(t, stack, Frame(t.kids[u][j], d + 1, 0));
    Assoc(Trace(t, t.kids[u][j]), Queued(t, u, j + 1), below);
  }

  lemma PushRevisit(t: Tree, u: nat, d: nat, j: nat, stack: seq<Frame>, below: seq<Event>)
    requires IsTree(t) && Node(t, u) && 0 < j < |t.kids[u]| && GoodStack(t, stack)
    requires Pending(t, stack) == Rest(t, u, j) + below
    ensures var f := Frame(u, d, 2);
            GoodStack(t, stack + [f]) && Pending(t, stack + [f]) == Queued(t, u, j) + below
  {
    Push(t, stack, Frame(u, d, 2));
    Assoc([Revisit(u)], Rest(t, u, j), below);
  }

  /** c is one of the children from the j-th on. */
  predicate FromOn(kids: seq<nat>, j: nat, c: nat)
    requires j <= |kids|
  {
    c in kids[j..]
  }

  lemma FromOnStep(kids: seq<nat>, j: nat)
    requires j < |kids|
    ensures forall c :: FromOn(kids, j, c) <==> c == kids[j] || FromOn(kids, j + 1, c)
  {
    assert kids[j..] == [kids[j]] + kids[j + 1..];
  }

  /** The push loop of one visit: the children last to first, a revisit between two. */
  method PushChildren(t: Tree, u: nat, d: nat, stack: seq<Frame>, parent: array<int>) returns (r: seq<Frame>)
    requires IsTree(t) && Node(t, u) && d == Depth(t, u) && GoodStack(t, stack) && parent.Length == |t.par|
    modifies parent
    ensures GoodStack(t, r) && Pending(t, r) == Rest(t, u, 0) + Pending(t, stack)
    ensures forall c :: 0 <= c < parent.Length ==> parent[c] == if c > 0 && t.par[c] == u then u else old(parent[c])
  {
    r := stack;
    var kids := t.kids[u];
    var j := |kids|;
    ghost var below := Pending(t, stack);
    assert Queued(t, u, j) + below == below;
    while j > 0
      invariant 0 <= j <= |kids| && GoodStack(t, r)
      invariant Pending(t, r) == Queued(t, u, j) + below
      invariant forall c :: 0 <= c < parent.Length ==> parent[c] == if FromOn(kids, j, c) then u else old(parent[c])
    {
      j := j - 1;
      FromOnStep(kids, j);
      Child(t, u, j);
      parent[kids[j]] := u;
      PushKid(t, u, d, j, r, below);
      r := r + [Frame(kids[j], d + 1, 0)];
      if j > 0 {
        PushRevisit(t, u, d, j, r, below);
        r := r + [Frame(u, d, 2)];
      }
    }
    assert ChildrenOf(t, u);
    assert kids[0..] == kids;
  }

  // ----- filling the arrays

  /** The arrays hold what event i of the trace so far put there. */
  ghost predicate Kept(t: Tree, done: seq<Event>, r: Tour, i: nat)
    requires IsTree(t) && Sized(t, r) && i < |done|
  {
    var v := done[i].node;
    && Node(t, v)
    && (done[i].Enter? ==> r.tin[v] == i && r.depth[v] == Depth(t, v) && r.first[v] == Pos(done, i))
    && (done[i].Leave? ==> r.tout[v] == i)
  }

  ghost predicate Recorded(t: Tree, done: seq<Event>, r: Tour) {
    && IsTree(t) && Sized(t, r)
    && r.euler == Entries(done)
    && (forall i {:trigger Kept(t, done, r, i)} :: 0 <= i < |done| ==> Kept(t, done, r, i))
    && (forall v :: 0 <= v < |t.par| && Enter(v) !in done ==> r.first[v] == -1)
    && (forall c :: 0 < c < |t.par| && Enter(t.par[c]) in done ==> r.parent[c] == t.par[c])
    && r.parent[0] == -1
  }

  /** The next event of the whole tour has not happened yet. */
  lemma NotYet(t: Tree, done: seq<Event>, e: Event, rest: seq<Event>)
    requires IsTree(t) && done + ([e] + rest) == Trace(t, 0) && !e.Revisit?
    ensures Node(t, e.node) && e !in done
  {
    assert Trace(t, 0)[|done|] == e;
    TraceBelow(t, 0, e);
    TraceOnce(t, 0, e.node, e);
    CountAppend(done, [e] + rest, e);
    CountNone(done, e);
    CountNone([e] + rest, e);
  }

  /** Earlier entries stay as they were. */
  lemma KeptOn(t: Tree, done: seq<Event>, r: Tour, e: Event, r': Tour, i: nat)
    requires Recorded(t, done, r) && Sized(t, r') && i < |done|
    requires forall v :: 0 <= v < |t.par| && Enter(v) != e ==>
               r'.tin[v] == r.tin[v] && r'.depth[v] == r.depth[v] && r'.first[v] == r.first[v]
    requires forall v :: 0 <= v < |t.par| && Leave(v) != e ==> r'.tout[v] == r.tout[v]
    requires !e.Revisit? ==> e !in done
    ensures Kept(t, done + [e], r', i)
  {
    assert Kept(t, done, r, i);
    assert (done + [e])[..i] == done[..i];
    assert done[i] in done;
  }

  lemma EntriesSnoc(done: seq<Event>, e: Event)
    ensures Entries(done + [e]) == if e.Leave? then Entries(done) else Entries(done) + [e.node]
    ensures Pos(done + [e], |done|) == |Entries(done)|
  {
    assert (done + [e])[..|done|] == done;
  }

  lemma RecordEnter(t: Tree, done: seq<Event>, r: Tour, u: nat, r': Tour)
    requires Recorded(t, done, r) && Node(t, u) && Enter(u) !in done && |r'.parent| == |r.parent|
    requires r' == Tour(r.euler + [u], r.tin[u := |done|], r.tout, r.depth[u := Depth(t, u)], r'.parent,
                        r.first[u := |r.euler|])
    requires forall c :: 0 <= c < |t.par| ==> r'.parent[c] == if c > 0 && t.par[c] == u then u else r.parent[c]
    ensures Recorded(t, done + [Enter(u)], r')
  {
    EntriesSnoc(done, Enter(u));
    forall i | 0 <= i < |done + [Enter(u)]| ensures Kept(t, done + [Enter(u)], r', i) {
      if i < |done| {
        KeptOn(t, done, r, Enter(u), r', i);
      }
    }
  }

  lemma RecordLeave(t: Tree, done: seq<Event>, r: Tour, u: nat)
    requires Recorded(t, done, r) && Node(t, u) && Leave(u) !in done
    ensures Recorded(t, done + [Leave(u)], r.(tout := r.tout[u := |done|]))
  {
    var r' := r.(tout := r.tout[u := |done|]);
    EntriesSnoc(done, Leave(u));
    forall i | 0 <= i < |done + [Leave(u)]| ensures Kept(t, done + [Leave(u)], r', i) {
      if i < |done| {
        KeptOn(t, done, r, Leave(u), r', i);
      }
    }
  }

  lemma RecordRevisit(t: Tree, done: seq<Event>, r: Tour, u: nat)
    requires Recorded(t, done, r) && Node(t, u)
    ensures Recorded(t, done + [Revisit(u)], r.(euler := r.euler + [u]))
  {
    var r' := r.(euler := r.euler + [u]);
    EntriesSnoc(done, Revisit(u));
    forall i | 0 <= i < |done + [Revisit(u)]| ensures Kept(t, done + [Revisit(u)], r', i) {
      if i < |done| {
        KeptOn(t, done, r, Revisit(u), r', i);
      }
    }
  }

  lemma RecordedAll(t: Tree, r: Tour)
    requires IsTree(t) && Recorded(t, Trace(t, 0), r)
    ensures TourOf(t, r)
  {
    var T := Trace(t, 0);
    forall v | 0 <= v < |t.par| ensures Placed(t, r, v) {
      AncRoot(t, v);
      TraceOnce(t, 0, v, Enter(v));
      TraceOnce(t, 0, v, Leave(v));
      CountNone(T, Enter(v));
      CountNone(T, Leave(v));
      var i :| 0 <= i < |T| && T[i] == Enter(v);
      var j :| 0 <= j < |T| && T[j] == Leave(v);
      assert Kept(t, T, r, i) && Kept(t, T, r, j);
      if v > 0 {
        TraceOnce(t, 0, t.par[v], Enter(t.par[v]));
        AncRoot(t, t.par[v]);
        CountNone(T, Enter(t.par[v]));
      }
    }
  }

  lemma OpenWork(t: Tree, u: nat, below: seq<Event>)
    requires IsTree(t) && Node(t, u)
    ensures [Enter(u)] + (Rest(t, u, 0) + ([Leave(u)] + below)) == Trace(t, u) + below
  {
  }

  /** The arrays of the path tree while the tour fills them. */
  class TourArrays {
    var euler: seq<nat>
    var time: int
    const tin: array<int>
    const tout: array<int>
    const depth: array<int>
    const parent: array<int>
    const first: array<int>

    ghost predicate Valid(n: nat) {
      && tin.Length == tout.Length == depth.Length == parent.Length == first.Length == n
      && tin != tout && tin != depth && tin != parent && tin != first
      && tout != depth && tout != parent && tout != first
      && depth != parent && depth != first && parent != first
    }

    /** The arrays as they stand. */
    function Snapshot(): Tour
      reads this, tin, tout, depth, parent, first
    {
      Tour(euler, tin[..], tout[..], depth[..], parent[..], first[..])
    }

    constructor (n: nat)
      ensures Valid(n) && time == 0
      ensures fresh(tin) && fresh(tout) && fresh(depth) && fresh(parent) && fresh(first)
      ensures euler == [] && forall v :: 0 <= v < n ==> parent[v] == -1 && first[v] == -1
    {
      euler, time := [], 0;
      tin, tout, depth := new int[n](_ => 0), new int[n](_ => 0), new int[n](_ => 0);
      parent, first := new int[n](_ => -1), new int[n](_ => -1);
    }

    method EnterNode(u: nat, d: nat)
      requires Valid(tin.Length) && u < tin.Length && first[u] == -1
      modifies this, tin, depth, first
      ensures time == old(time) + 1
      ensures Snapshot() == Tour(old(euler) + [u], old(tin[..])[u := old(time)], old(tout[..]), old(depth[..])[u := d],
                                 old(parent[..]), old(first[..])[u := |old(euler)|])
    {
      tin[u] := time;
      depth[u] := d;
      euler := euler + [u];
      if first[u] == -1 {
        first[u] := |euler| - 1;
      }
      time := time + 1;
    }

    method LeaveNode(u: nat)
      requires Valid(tin.Length) && u < tin.Length
      modifies this, tout
      ensures time == old(time) + 1
      ensures Snapshot() == old(Snapshot()).(tout := old(tout[..])[u := old(time)])
    {
      tout[u] := time;
      time := time + 1;
    }

    method RevisitNode(u: nat)
      modifies this
      ensures time == old(time) + 1
      ensures Snapshot() == old(Snapshot()).(euler := old(euler) + [u])
    {
      euler := euler + [u];
      time := time + 1;
    }

    /** The state-0 branch of the loop. */
    method Open(t: Tree, u: nat, d: nat, stack: seq<Frame>, ghost done: seq<Event>) returns (r: seq<Frame>)
      requires Valid(|t.par|) && Recorded(t, done, Snapshot()) && time == |done|
      requires Node(t, u) && d == Depth(t, u) && GoodStack(t, stack) && Enter(u) !in done
      modifies this, tin, depth, first, parent
      ensures Recorded(t, done + [Enter(u)], Snapshot()) && time == |done| + 1
      ensures GoodStack(t, r) && [Enter(u)] + Pending(t, r) == Trace(t, u) + Pending(t, stack)
    {
      ghost var r0 := Snapshot();
      assert first[u] == r0.first[u];
      EnterNode(u, d);
      Push(t, stack, Frame(u, d, 1));
      r := PushChildren(t, u, d, stack + [Frame(u, d, 1)], parent);
      RecordEnter(t, done, r0, u, Snapshot());
      OpenWork(t, u, Pending(t, stack));
    }

    /** One round of the loop: the event on top of the stack happens. */
    method Step(t: Tree, stack: seq<Frame>, ghost done: seq<Event>) returns (r: seq<Frame>, ghost e: Event)
      requires Valid(|t.par|) && Recorded(t, done, Snapshot()) && time == |done|
      requires stack != [] && GoodStack(t, stack) && done + Pending(t, stack) == Trace(t, 0)
      modifies this, tin, tout, depth, first, parent
      ensures Recorded(t, done + [e], Snapshot()) && time == |done| + 1
      ensures GoodStack(t, r) && Pending(t, stack) == [e] + Pending(t, r)
    {
      var f := stack[|stack| - 1];
      NextEvent(t, stack, done);
      r := stack[..|stack| - 1];
      if f.state == 0 {
        e := Enter(f.node);
        r := Open(t, f.node, f.depth, r, done);
      } else if f.state == 1 {
        e := Leave(f.node);
        RecordLeave(t, done, Snapshot(), f.node);
        LeaveNode(f.node);
      } else {
        e := Revisit(f.node);
        RecordRevisit(t, done, Snapshot(), f.node);
        RevisitNode(f.node);
      }
    }
  }

  /** The top frame's first event is next; nodes are not entered or left a second time. */
  lemma NextEvent(t: Tree, stack: seq<Frame>, done: seq<Event>)
    requires stack != [] && GoodStack(t, stack) && done + Pending(t, stack) == Trace(t, 0)
    ensures GoodFrame(t, stack[|stack| - 1]) && GoodStack(t, stack[..|stack| - 1])
    ensures var f, below := stack[|stack| - 1], Pending(t, stack[..|stack| - 1]);
            && (f.state == 0 ==> Pending(t, stack) == Trace(t, f.node) + below && Enter(f.node) !in done)
            && (f.state == 1 ==> Pending(t, stack) == [Leave(f.node)] + below && Leave(f.node) !in done)
            && (f.state > 1 ==> Pending(t, stack) == [Revisit(f.node)] + below)
  {
    Pop(t, stack);
    var f, below := stack[|stack| - 1], Pending(t, stack[..|stack| - 1]);
    if f.state == 0 {
      var rest := Rest(t, f.node, 0) + [Leave(f.node)] + below;
      assert Trace(t, f.node) + below == [Enter(f.node)] + rest;
      NotYet(t, done, Enter(f.node), rest);
    } else if f.state == 1 {
      NotYet(t, done, Leave(f.node), below);
    }
  }

  /** `precompute_euler_tour`. */
  method PrecomputeEulerTour(t: Tree) returns (r: Tour)
    requires IsTree(t)
    ensures TourOf(t, r)
  {
    var arrays := new TourArrays(|t.par|);
    var stack := [Frame(0, 0, 0)];
    ghost var done: seq<Event> := [];
    Push(t, [], Frame(0, 0, 0));
    assert [] + stack == stack;
    assert done + Pending(t, stack) == Trace(t, 0);
    while stack != []
      invariant GoodStack(t, stack) && done + Pending(t, stack) == Trace(t, 0)
      invariant arrays.Valid(|t.par|) && Recorded(t, done, arrays.Snapshot()) && arrays.time == |done|
      invariant fresh(arrays) && fresh(arrays.tin) && fresh(arrays.tout) && fresh(arrays.depth)
      invariant fresh(arrays.parent) && fresh(arrays.first)
      decreases |Pending(t, stack)|
    {
      ghost var e: Event;
      stack, e := arrays.Step(t, stack, done);
      Assoc(done, [e], Pending(t, stack));
      done := done + [e];
    }
    r := arrays.Snapshot();
    assert done == Trace(t, 0);
    RecordedAll(t, r);
  }
}
