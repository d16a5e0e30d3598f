/** Range minima over the tour array by a sparse table, and the lowest common ancestor they
    give. */
module SparseTable {
  import opened EulerTour
  import opened Powers

  /** k is the binary logarithm of n, rounded down. */
  ghost predicate IsLog(n: nat, k: nat) {
    Pow2(k) <= n < 2 * Pow2(k)
  }

  lemma LogMonotone(m: nat, j: nat, n: nat, k: nat)
    requires IsLog(m, j) && IsLog(n, k) && m <= n
    ensures j <= k
  {
    if k < j {
      Pow2Monotone(k + 1, j);
    }
  }

  ghost predicate LogTable(log: seq<nat>, n: nat) {
    |log| == n + 1 && log[0] == 0 && forall i :: 1 <= i <= n ==> IsLog(i, log[i])
  }

  method FillLog(n: nat) returns (log: seq<nat>)
    ensures LogTable(log, n)
  {
    var a := new nat[n + 1](_ => 0);
    var i := 2;
    while i < n + 1
      invariant 2 <= i && a[0] == 0 && (n >= 1 ==> a[1] == 0)
      invariant forall j :: 1 <= j < i && j <= n ==> IsLog(j, a[j])
    {
      assert IsLog(i / 2, a[i / 2]);
      a[i] := a[i / 2] + 1;
      i := i + 1;
    }
    log := a[..];
  }

  /** Row k: for every window of length 2^k, the place of a shallowest entry in it. */
  ghost predicate Row(r: Tour, k: nat, row: seq<nat>) {
    |row| == |r.euler| && forall i :: 0 <= i && i + Pow2(k) <= |r.euler| ==> Shallowest(r, i, i + Pow2(k), row[i])
  }

  ghost predicate Table(r: Tour, log: seq<nat>, st: seq<seq<nat>>) {
    && LogTable(log, |r.euler|)
    && |st| == log[|r.euler|] + 1
    && forall k :: 0 <= k < |st| ==> Row(r, k, st[k])
  }

  ghost predicate InTour(r: Tour) {
    forall i :: 0 <= i < |r.euler| ==> r.euler[i] < |r.depth|
  }

  /** The shallower of the best places of two overlapping windows is best for both. */
  lemma Join(r: Tour, a: nat, b: nat, c: nat, d: nat, p: nat, q: nat)
    requires Shallowest(r, a, b, p) && Shallowest(r, c, d, q) && a <= c <= b <= d
    ensures r.depth[r.euler[p]] <= r.depth[r.euler[q]] ==> Shallowest(r, a, d, p)
    ensures r.depth[r.euler[q]] <= r.depth[r.euler[p]] ==> Shallowest(r, a, d, q)
  {
  }

  method FirstRow(r: Tour) returns (row: seq<nat>)
    requires InTour(r)
    ensures Row(r, 0, row)
  {
    var n := |r.euler|;
    var a := new nat[n](_ => 0);
    for i := 0 to n
      invariant forall j :: 0 <= j < i ==> a[j] == j
    {
      a[i] := i;
    }
    row := a[..];
  }

  method NextRow(r: Tour, k: nat, prev: seq<nat>) returns (row: seq<nat>)
    requires InTour(r) && k > 0 && Row(r, k - 1, prev) && Pow2(k) <= |r.euler|
    ensures Row(r, k, row)
  {
    var n, span := |r.euler|, Pow2(k - 1);
    var cells := new nat[n](_ => 0);
    for i := 0 to n - Pow2(k) + 1
      invariant forall j :: 0 <= j < i ==> Shallowest(r, j, j + Pow2(k), cells[j])
    {
      var a, b := prev[i], prev[i + span];
      Join(r, i, i + span, i + span, i + 2 * span, a, b);
      cells[i] := if r.depth[r.euler[a]] <= r.depth[r.euler[b]] then a else b;
    }
    row := cells[..];
  }

  /** `precompute_rmq`. */
  method PrecomputeRmq(r: Tour) returns (log: seq<nat>, st: seq<seq<nat>>)
    requires InTour(r)
    ensures Table(r, log, st)
  {
    var n := |r.euler|;
    log := FillLog(n);
    var row := FirstRow(r);
    st := [row];
    for k := 1 to log[n] + 1
      invariant |st| == k && forall j :: 0 <= j < k ==> Row(r, j, st[j])
    {
      assert n > 0 && IsLog(n, log[n]);
      Pow2Monotone(k, log[n]);
      row := NextRow(r, k, st[k - 1]);
      st := st + [row];
    }
  }

  /** `precompute`: the tour and its table. */
  method Precompute(t: Tree) returns (r: Tour, log: seq<nat>, st: seq<seq<nat>>)
    requires IsTree(t)
    ensures TourOf(t, r) && Table(r, log, st)
  {
    r := PrecomputeEulerTour(t);
    forall i | 0 <= i < |r.euler| ensures r.euler[i] < |r.depth| {
      TourNodes(t, r, i);
    }
    log, st := PrecomputeRmq(r);
  }

  /** The two-window query for the nodes u and v. */
  method QueryLca(ghost t: Tree, r: Tour, log: seq<nat>, st: seq<seq<nat>>, u: nat, v: nat) returns (l: nat)
    requires TourOf(t, r) && Table(r, log, st) && Node(t, u) && Node(t, v)
    ensures IsLca(t, l, u, v)
  {
    var left, right := r.first[u], r.first[v];
    FirstInTour(t, r, u, v);
    FirstInTour(t, r, v, u);
    if left > right {
      left, right := right, left;
    }
    var length := right - left + 1;
    var k := log[length];
    LogMonotone(length, k, |r.euler|, log[|r.euler|]);
    var other := right - Pow2(k) + 1;
    var a, b := st[k][left], st[k][other];
    assert Row(r, k, st[k]);
    Join(r, left, left + Pow2(k), other, right + 1, a, b);
    l := if r.depth[r.euler[a]] < r.depth[r.euler[b]] then r.euler[a] else r.euler[b];
    ghost var p := if r.depth[r.euler[a]] < r.depth[r.euler[b]] then a else b;
    if r.first[u] <= r.first[v] {
      ShallowestIsLca(t, r, u, v, p);
    } else {
      ShallowestIsLca(t, r, v, u, p);
    }
  }
}
