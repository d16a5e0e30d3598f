/** The segments of a timeline: closing, creating, and looking one up by time. */
module Timeline {
  import opened Values
  import opened Sorting

  /** A segment under its key (start, end); an open one has no end.  `last` is the time of
      its latest patch. */
  datatype Segment = Segment(start: int, end: Option<int>, version: int, last: int)

  /** The test of `find_segment`: a segment's start does not belong to it. */
  predicate Spans(start: int, end: Option<int>, t: int) {
    start < t && (end.None? || end.value >= t)
  }

  predicate Covers(s: Segment, t: int) {
    Spans(s.start, s.end, t)
  }

  predicate Before(a: Segment, b: Segment) {
    a.end.Some? && a.end.value <= b.start
  }

  predicate Apart(a: Segment, b: Segment) {
    Before(a, b) || Before(b, a)
  }

  ghost predicate Disjoint(segs: seq<Segment>) {
    forall i, j :: 0 <= i < j < |segs| ==> Apart(segs[i], segs[j])
  }

  /** No two segments cover one instant. */
  lemma AtMostOne(segs: seq<Segment>, i: nat, j: nat, t: int)
    requires Disjoint(segs) && i < |segs| && j < |segs| && Covers(segs[i], t) && Covers(segs[j], t)
    ensures i == j
  {
  }

  /** What `find_segment` answers: a segment that covers t, if there is one. */
  ghost predicate Answers(segs: seq<Segment>, t: int, r: Option<Segment>) {
    && (r.Some? ==> r.value in segs && Covers(r.value, t))
    && (r.None? ==> forall s :: s in segs ==> !Covers(s, t))
  }

  /** Whatever order the map is iterated in, the answer is the same. */
  lemma OrderDoesNotMatter(segs: seq<Segment>, other: seq<Segment>, t: int, a: Option<Segment>, b: Option<Segment>)
    requires Disjoint(segs) && forall s :: s in segs <==> s in other
    requires Answers(segs, t, a) && Answers(other, t, b)
    ensures a == b
  {
    if a.Some? && b.Some? {
      var i :| 0 <= i < |segs| && segs[i] == a.value;
      assert b.value in segs;
      var j :| 0 <= j < |segs| && segs[j] == b.value;
      AtMostOne(segs, i, j, t);
    }
  }

  // ----- the check on writing and loading

  /** Two keys that cannot be compared: one start, but one end is missing and the other not. */
  predicate Clash(a: Segment, b: Segment) {
    a.start == b.start && a.end.None? != b.end.None?
  }

  ghost predicate Comparable(segs: seq<Segment>) {
    forall i, j :: 0 <= i < j < |segs| ==> !Clash(segs[i], segs[j])
  }

  ghost predicate Forward(segs: seq<Segment>) {
    forall s :: s in segs && s.end.Some? ==> s.start <= s.end.value
  }

  /** The order of comparable keys, by start and then by end. */
  predicate KeyBefore(a: Segment, b: Segment) {
    a.start < b.start || (a.start == b.start && (a.end.Some? && b.end.Some? ==> a.end.value <= b.end.value))
  }

  ghost predicate KeySorted(segs: seq<Segment>) {
    forall i, j :: 0 <= i < j < |segs| ==> KeyBefore(segs[i], segs[j])
  }

  /** Sorting the keys; it raises if two of one start cannot be compared. */
  method SortKeys(segs: seq<Segment>) returns (r: Option<seq<Segment>>)
    ensures r.Some? <==> Comparable(segs)
    ensures r.Some? ==> multiset(r.value) == multiset(segs) && KeySorted(r.value)
  {
    var ordered: seq<Segment> := [];
    for i := 0 to |segs|
      invariant multiset(ordered) == multiset(segs[..i]) && KeySorted(ordered) && Comparable(segs[..i])
    {
      SameElements(ordered, segs[..i]);
      for j := 0 to i
        invariant forall k :: 0 <= k < j ==> !Clash(segs[k], segs[i])
      {
        if Clash(segs[j], segs[i]) {
          return None;
        }
      }
      assert segs[..i + 1] == segs[..i] + [segs[i]];
      ordered := InsertKey(ordered, segs[i], segs[..i]);
    }
    assert segs[..|segs|] == segs;
    return Some(ordered);
  }

  method InsertKey(ordered: seq<Segment>, s: Segment, ghost segs: seq<Segment>) returns (r: seq<Segment>)
    requires KeySorted(ordered) && (forall x :: x in ordered <==> x in segs)
    requires forall k :: 0 <= k < |segs| ==> !Clash(segs[k], s)
    ensures multiset(r) == multiset(ordered) + multiset{s} && KeySorted(r)
  {
    var n := |ordered|;
    while n > 0 && !KeyBefore(ordered[n - 1], s)
      invariant 0 <= n <= |ordered| && forall j :: n <= j < |ordered| ==> KeyBefore(s, ordered[j])
    {
      n := n - 1;
    }
    r := ordered[..n] + [s] + ordered[n..];
    InsertedAt(ordered, s, n);
    forall j | 0 <= j < n ensures KeyBefore(ordered[j], s) {
      assert ordered[j] in ordered && ordered[n - 1] in ordered;
      assert j < n - 1 ==> KeyBefore(ordered[j], ordered[n - 1]);
    }
  }

  /** Each segment ends before the next one starts, and starts later. */
  ghost predicate Chain(segs: seq<Segment>) {
    forall i, j :: 0 <= i < j < |segs| ==> Before(segs[i], segs[j]) && segs[i].start < segs[j].start
  }

  /** Sorting changes nothing in a chain. */
  lemma {:induction false} ChainSorted(segs: seq<Segment>, ordered: seq<Segment>)
    requires Chain(segs) && KeySorted(ordered) && multiset(ordered) == multiset(segs)
    ensures ordered == segs
  {
    assert |multiset(ordered)| == |ordered| && |multiset(segs)| == |segs|;
    if segs != [] {
      SameLast(segs, ordered);
      SameInit(segs, ordered);
      ChainSorted(Init(segs), Init(ordered));
      assert segs == Init(segs) + [Last(segs)] && ordered == Init(ordered) + [Last(ordered)];
    }
  }

  lemma SameInit(a: seq<Segment>, b: seq<Segment>)
    requires a != [] && b != [] && Last(a) == Last(b) && multiset(a) == multiset(b)
    ensures multiset(Init(a)) == multiset(Init(b))
  {
    assert a == Init(a) + [Last(a)] && b == Init(b) + [Last(b)];
    assert multiset(Init(a)) == multiset(a) - multiset{Last(a)};
    assert multiset(Init(b)) == multiset(b) - multiset{Last(b)};
  }

  lemma SameLast(segs: seq<Segment>, ordered: seq<Segment>)
    requires Chain(segs) && KeySorted(ordered) && multiset(ordered) == multiset(segs) && segs != [] && ordered != []
    ensures Last(ordered) == Last(segs)
  {
    var s, o := Last(segs), Last(ordered);
    SameElements(segs, ordered);
    assert s in ordered && o in segs;
    var i :| 0 <= i < |ordered| && ordered[i] == s;
    var k :| 0 <= k < |segs| && segs[k] == o;
    assert i == |ordered| - 1 || KeyBefore(ordered[i], ordered[|ordered| - 1]);
    assert k == |segs| - 1 || segs[k].start < segs[|segs| - 1].start;
  }

  lemma ChainComparable(segs: seq<Segment>)
    requires Chain(segs)
    ensures Comparable(segs)
  {
  }

  /** `_validate_segments_non_overlapping`: sort by (start, end), then compare neighbours.  On
      keys that do not end before they start it passes if and only if the segments are apart
      in time and their keys can be compared. */
  method ValidateNonOverlapping(segs: seq<Segment>) returns (ok: bool)
    ensures Forward(segs) ==> (ok <==> Disjoint(segs) && Comparable(segs))
    ensures Chain(segs) ==> ok
  {
    if segs == [] {
      return true;
    }
    if Chain(segs) {
      ChainComparable(segs);
    }
    var sorted := SortKeys(segs);
    if sorted.None? {
      return false;
    }
    var ordered := sorted.value;
    SameElements(segs, ordered);
    if Chain(segs) {
      ChainSorted(segs, ordered);
    }
    var prev := ordered[0];
    for i := 1 to |ordered|
      invariant prev == ordered[i - 1]
      invariant forall j :: 0 < j < i ==> Before(ordered[j - 1], ordered[j])
    {
      if prev.end.None? || ordered[i].start < prev.end.value {
        if Forward(segs) && Disjoint(segs) {
          Neighbours(segs, ordered, i);
        }
        return false;
      }
      prev := ordered[i];
    }
    ok := true;
    if Forward(segs) {
      ChainDisjoint(ordered);
      DisjointPermutation(ordered, segs);
    }
  }

  /** Sorted neighbours that are apart lie in this order, even if one is empty. */
  lemma Neighbours(segs: seq<Segment>, ordered: seq<Segment>, i: nat)
    requires multiset(ordered) == multiset(segs) && KeySorted(ordered) && 0 < i < |ordered|
    requires Disjoint(segs) && Comparable(segs) && Forward(segs)
    ensures Before(ordered[i - 1], ordered[i])
  {
    var a, b := ordered[i - 1], ordered[i];
    SameElements(ordered, segs);
    DisjointPermutation(segs, ordered);
    assert a in ordered && b in ordered;
    var k :| 0 <= k < |segs| && segs[k] == a;
    var l :| 0 <= l < |segs| && segs[l] == b;
    assert !Clash(a, b);
    assert Apart(a, b) && KeyBefore(a, b);
  }

  lemma {:induction false} ChainBefore(segs: seq<Segment>, i: nat, j: nat)
    requires i < j < |segs| && forall k :: 0 < k < |segs| ==> Before(segs[k - 1], segs[k])
    requires Forward(segs)
    ensures Before(segs[i], segs[j])
  {
    assert Before(segs[j - 1], segs[j]);
    if i < j - 1 {
      ChainBefore(segs, i, j - 1);
      assert segs[j - 1] in segs;
    }
  }

  lemma ChainDisjoint(segs: seq<Segment>)
    requires Forward(segs) && forall k :: 0 < k < |segs| ==> Before(segs[k - 1], segs[k])
    ensures Disjoint(segs)
  {
    forall i, j | 0 <= i < j < |segs| ensures Apart(segs[i], segs[j]) {
      ChainBefore(segs, i, j);
    }
  }

  /** A segment apart from itself is empty; only such ones can occur twice. */
  lemma DisjointPermutation(a: seq<Segment>, b: seq<Segment>)
    requires Disjoint(a) && multiset(a) == multiset(b)
    ensures Disjoint(b)
  {
    SameElements(a, b);
    forall i, j | 0 <= i < j < |b| ensures Apart(b[i], b[j]) {
      assert b[i] in b && b[j] in b;
      var k :| 0 <= k < |a| && a[k] == b[i];
      var l :| 0 <= l < |a| && a[l] == b[j];
      if k != l {
        assert if k < l then Apart(a[k], a[l]) else Apart(a[l], a[k]);
      } else {
        Twins(a, b, i, j);
      }
    }
  }

  lemma Twins(a: seq<Segment>, b: seq<Segment>, i: nat, j: nat)
    requires Disjoint(a) && multiset(a) == multiset(b) && i < j < |b| && b[i] == b[j]
    ensures Apart(b[i], b[j])
  {
    TwicePlus(b, i, j);
    if forall k, l :: 0 <= k < l < |a| ==> !(a[k] == b[i] && a[l] == b[i]) {
      AtMostOnce(a, b[i]);
    } else {
      var k, l :| 0 <= k < l < |a| && a[k] == b[i] && a[l] == b[i];
      assert Apart(a[k], a[l]);
    }
  }

  lemma {:induction false} AtMostOnce(a: seq<Segment>, s: Segment)
    requires forall k, l :: 0 <= k < l < |a| ==> !(a[k] == s && a[l] == s)
    ensures multiset(a)[s] <= 1
  {
    if a != [] {
      assert a == Init(a) + [Last(a)];
      AtMostOnce(Init(a), s);
      if Last(a) == s {
        assert s !in Init(a);
        assert s !in multiset(Init(a));
      }
    }
  }

  // ----- what a timeline is asked to do

  /** An append (with or without a patch), or the closing of the last segment. */
  datatype Event = Append(version: int, t: int, hasPatch: bool) | Close

  /** `int(timestamp())`: times are in milliseconds after the epoch, the last time of a segment is
      cut to whole seconds. */
  function Sec(t: int): (r: int)
    ensures r <= t < r + 1000 && r % 1000 == 0
  {
    t - t % 1000
  }

  /** The time of the latest append. */
  ghost function Clock(log: seq<Event>): int {
    if log == [] then 0 else if Last(log).Append? then Last(log).t else Clock(Init(log))
  }

  /** Each append is later than the one before it. */
  ghost predicate Stamped(log: seq<Event>) {
    log == [] || (Stamped(Init(log)) && (Last(log).Append? ==> Last(log).t > Clock(Init(log)) >= 0))
  }

  /** The last segment under a bounded key. */
  ghost function CloseLast(segs: seq<Segment>): seq<Segment> {
    if segs == [] then [] else Init(segs) + [ClosedForm(Last(segs))]
  }

  ghost predicate LastOpenFor(segs: seq<Segment>, version: int) {
    segs != [] && Last(segs).end.None? && Last(segs).version == version
  }

  /** The segments after the events. */
  ghost function Blocks(log: seq<Event>): seq<Segment> {
    if log == [] then [] else After(Blocks(Init(log)), Last(log))
  }

  ghost function After(segs: seq<Segment>, e: Event): seq<Segment> {
    match e
    case Close => CloseLast(segs)
    case Append(v, t, hasPatch) =>
      if !LastOpenFor(segs, v) then CloseLast(segs) + [Segment(t, None, v, Sec(t))]
      else if hasPatch then Init(segs) + [Last(segs).(last := Sec(t))]
      else segs
  }

  /** In the order of their starts, each one but the last closed before the next one starts. */
  ghost predicate Ordered(segs: seq<Segment>, clock: int) {
    && (forall i, j :: 0 <= i < j < |segs| ==> Before(segs[i], segs[j]) && segs[i].start < segs[j].start)
    && (forall i :: 0 <= i < |segs| ==> Recorded(segs[i], clock))
  }

  lemma {:induction false} BlocksOrdered(log: seq<Event>)
    requires Stamped(log)
    ensures Ordered(Blocks(log), Clock(log)) && Clock(log) >= 0
  {
    if log != [] {
      BlocksOrdered(Init(log));
      AfterOrdered(Blocks(Init(log)), Clock(Init(log)), Last(log));
    }
  }

  lemma AfterOrdered(segs: seq<Segment>, clock: int, e: Event)
    requires Ordered(segs, clock) && clock >= 0 && (e.Append? ==> e.t > clock)
    ensures Ordered(After(segs, e), if e.Append? then e.t else clock)
  {
    CloseOrdered(segs, clock);
    if e.Append? && LastOpenFor(segs, e.version) && e.hasPatch {
      LastOrdered(segs, clock, e.t);
    }
  }

  lemma CloseOrdered(segs: seq<Segment>, clock: int)
    requires Ordered(segs, clock)
    ensures Ordered(CloseLast(segs), clock) && AllClosed(CloseLast(segs)) && |CloseLast(segs)| == |segs|
    ensures forall i :: 0 <= i < |segs| ==> CloseLast(segs)[i] == ClosedForm(segs[i])
  {
    forall i | 0 <= i < |segs| - 1 ensures segs[i].end.Some? {
      assert Before(segs[i], segs[i + 1]);
    }
  }

  lemma LastOrdered(segs: seq<Segment>, clock: int, t: int)
    requires Ordered(segs, clock) && segs != [] && Last(segs).end.None? && t > clock
    ensures Ordered(Init(segs) + [Last(segs).(last := Sec(t))], t)
  {
    assert Recorded(segs[|segs| - 1], clock);
    SecRises(Last(segs).start, t);
  }

  lemma SecRises(a: int, b: int)
    requires a <= b
    ensures Sec(a) <= Sec(b)
  {
  }

  /** Whatever is appended and closed, at increasing times: no two segments cover one instant,
      the timeline passes the check on writing and loading, and only the latest can be open. */
  lemma BlocksApart(log: seq<Event>)
    requires Stamped(log)
    ensures Disjoint(Blocks(log)) && Chain(Blocks(log))
    ensures forall i :: 0 <= i < |Blocks(log)| - 1 ==> Blocks(log)[i].end.Some?
  {
    BlocksOrdered(log);
    var segs := Blocks(log);
    forall i | 0 <= i < |segs| - 1 ensures segs[i].end.Some? {
      assert Before(segs[i], segs[i + 1]);
    }
  }

  // ----- which times a timeline covers

  /** The events from i to k are appends of one version. */
  ghost predicate InOne(log: seq<Event>, i: int, k: int) {
    && 0 <= i <= k < |log| && log[i].Append?
    && forall x :: i <= x <= k ==> log[x].Append? && log[x].version == log[i].version
  }

  /** The segment s of the appends i to j: they are as many as possible, and its last time is that
      of append k, the last of them with a patch (or the first of them, if none has). */
  ghost predicate IsBlock(log: seq<Event>, s: Segment, i: int, j: int, k: int) {
    && InOne(log, i, j) && i <= k <= j
    && (i > 0 ==> !InOne(log, i - 1, j)) && (j + 1 < |log| ==> !InOne(log, i, j + 1))
    && s.version == log[i].version && s.start == log[i].t && s.last == Sec(log[k].t)
    && (k == i || log[k].hasPatch) && (forall x :: k < x <= j ==> !log[x].hasPatch)
    && s.end == (if j == |log| - 1 then None else Some(s.last))
  }

  /** An append leaves its version's segment open, as the last one. */
  lemma AppendOpens(log: seq<Event>)
    requires log != [] && Last(log).Append?
    ensures LastOpenFor(Blocks(log), Last(log).version)
  {
  }

  /** One event more: a segment's appends stay its appends. */
  lemma BlockStays(log: seq<Event>, n: nat, i: int, j: int, k: int) returns (j': int, k': int)
    requires log != [] && Stamped(log) && n < |Blocks(Init(log))|
    requires IsBlock(Init(log), Blocks(Init(log))[n], i, j, k)
    ensures n < |Blocks(log)| && j <= j' && IsBlock(log, Blocks(log)[n], i, j', k')
  {
    var segs, e := Blocks(Init(log)), Last(log);
    BlocksApart(Init(log));
    AfterAt(segs, e, n);
    if Continues(segs, e, n) {
      j', k' := |log| - 1, if e.hasPatch then |log| - 1 else k;
      BlockGrows(log, segs[n], i, j, k);
    } else {
      j', k' := j, k;
      if segs[n].end.Some? {
        BlockOver(log, segs[n], i, j, k);
      } else {
        BlockCut(log, segs[n], i, j, k);
      }
    }
  }

  /** The event is an append to the n-th segment. */
  ghost predicate Continues(segs: seq<Segment>, e: Event, n: nat)
    requires n < |segs|
  {
    n == |segs| - 1 && e.Append? && LastOpenFor(segs, e.version)
  }

  /** What an event makes of the n-th segment. */
  lemma AfterAt(segs: seq<Segment>, e: Event, n: nat)
    requires n < |segs| && forall i :: 0 <= i < |segs| - 1 ==> segs[i].end.Some?
    ensures n < |After(segs, e)|
    ensures Continues(segs, e, n) ==>
              segs[n].end.None? && segs[n].version == e.version
              && After(segs, e)[n] == if e.hasPatch then segs[n].(last := Sec(e.t)) else segs[n]
    ensures !Continues(segs, e, n) ==> After(segs, e)[n] == ClosedForm(segs[n])
    ensures !Continues(segs, e, n) && segs[n].end.None? && e.Append? ==> e.version != segs[n].version
  {
  }

  lemma InOneInit(log: seq<Event>, i: int, k: int)
    requires log != [] && k < |log| - 1
    ensures InOne(log, i, k) <==> InOne(Init(log), i, k)
  {
  }

  /** A segment that was closed before stays what it is. */
  lemma BlockOver(log: seq<Event>, s: Segment, i: int, j: int, k: int)
    requires log != [] && IsBlock(Init(log), s, i, j, k) && s.end.Some?
    ensures IsBlock(log, s, i, j, k)
  {
    InOneInit(log, i, j);
    InOneInit(log, i - 1, j);
    InOneInit(log, i, j + 1);
  }

  /** An open segment is closed under its last time by what does not continue it. */
  lemma BlockCut(log: seq<Event>, s: Segment, i: int, j: int, k: int)
    requires log != [] && IsBlock(Init(log), s, i, j, k) && s.end.None?
    requires Last(log).Append? ==> Last(log).version != s.version
    ensures IsBlock(log, ClosedForm(s), i, j, k)
  {
    InOneInit(log, i, j);
    InOneInit(log, i - 1, j);
  }

  /** An open segment goes on with an append of its version. */
  lemma BlockGrows(log: seq<Event>, s: Segment, i: int, j: int, k: int)
    requires log != [] && IsBlock(Init(log), s, i, j, k) && s.end.None?
    requires Last(log).Append? && Last(log).version == s.version
    ensures Last(log).hasPatch ==> IsBlock(log, s.(last := Sec(Last(log).t)), i, |log| - 1, |log| - 1)
    ensures !Last(log).hasPatch ==> IsBlock(log, s, i, |log| - 1, k)
  {
    InOneInit(log, i, j);
    InOneInit(log, i - 1, j);
    if i > 0 && InOne(log, i - 1, |log| - 1) {
      assert InOne(log, i - 1, j);
    }
  }

  /** Every segment is what a longest stretch of appends of one version made it. */
  lemma {:induction false} BlockOf(log: seq<Event>, n: nat) returns (i: int, j: int, k: int)
    requires Stamped(log) && n < |Blocks(log)|
    ensures IsBlock(log, Blocks(log)[n], i, j, k)
  {
    var before := Init(log);
    if n < |Blocks(before)| {
      i, j, k := BlockOf(before, n);
      j, k := BlockStays(log, n, i, j, k);
    } else {
      i, j, k := |log| - 1, |log| - 1, |log| - 1;
      if i > 0 && InOne(log, i - 1, i) {
        assert Last(before) == log[i - 1];
        AppendOpens(before);
      }
    }
  }

  /** Every append belongs to a segment. */
  lemma {:induction false} BlockAround(log: seq<Event>, x: nat) returns (n: nat, i: int, j: int, k: int)
    requires Stamped(log) && x < |log| && log[x].Append?
    ensures n < |Blocks(log)| && IsBlock(log, Blocks(log)[n], i, j, k) && i <= x <= j
  {
    if x == |log| - 1 {
      AppendOpens(log);
      n := |Blocks(log)| - 1;
      i, j, k := BlockOf(log, n);
    } else {
      n, i, j, k := BlockAround(Init(log), x);
      j, k := BlockStays(log, n, i, j, k);
    }
  }

  lemma {:induction false} Later(log: seq<Event>, i: nat, k: nat)
    requires Stamped(log) && i <= k < |log| && log[i].Append? && log[k].Append?
    ensures log[i].t <= log[k].t <= Clock(log)
  {
    if k < |log| - 1 {
      Later(Init(log), i, k);
    } else if i < k {
      Later(Init(log), i, i);
    }
  }

  /** Time t lies after append i and not after append k, which has a patch and continues i's
      version without a break; or everything from i on does. */
  ghost predicate Reached(log: seq<Event>, i: int, k: int, t: int) {
    InOne(log, i, k) && log[i].t < t && (k == |log| - 1 || (log[k].hasPatch && t <= Sec(log[k].t)))
  }

  /** Every time after an append up to the last later patch of the same stretch, in whole seconds,
      is covered by a segment of that version. */
  lemma Covered(log: seq<Event>, i: int, k: int, t: int) returns (n: nat)
    requires Stamped(log) && Reached(log, i, k, t)
    ensures n < |Blocks(log)| && Covers(Blocks(log)[n], t) && Blocks(log)[n].version == log[i].version
  {
    var i0, j0, k0;
    n, i0, j0, k0 := BlockAround(log, i);
    Later(log, i0, i);
    if k > j0 {
      assert InOne(log, i0, j0 + 1);
      assert false;
    }
    if j0 < |log| - 1 {
      Later(log, k, k0);
    }
  }

  /** And no other time is covered. */
  lemma CoveredExactly(log: seq<Event>, t: int)
    requires Stamped(log)
    ensures (exists s :: s in Blocks(log) && Covers(s, t)) <==> (exists i, k :: Reached(log, i, k, t))
  {
    if s :| s in Blocks(log) && Covers(s, t) {
      var n :| 0 <= n < |Blocks(log)| && Blocks(log)[n] == s;
      var i, j, k := BlockOf(log, n);
      assert Reached(log, i, if s.end.None? then j else k, t);
    }
    if i, k :| Reached(log, i, k, t) {
      var n := Covered(log, i, k, t);
      assert Blocks(log)[n] in Blocks(log);
    }
  }

  lemma FoundReached(log: seq<Event>, t: int, r: Option<Segment>)
    requires Stamped(log) && Answers(Blocks(log), t, r)
    ensures r.Some? <==> exists i, k :: Reached(log, i, k, t)
    ensures forall i, k :: Reached(log, i, k, t) ==> r.Some? && r.value.version == log[i].version
  {
    CoveredExactly(log, t);
    BlocksApart(log);
    forall i, k | Reached(log, i, k, t) ensures r.Some? && r.value.version == log[i].version {
      var n := Covered(log, i, k, t);
      assert Blocks(log)[n] in Blocks(log);
      var m :| 0 <= m < |Blocks(log)| && Blocks(log)[m] == r.value;
      AtMostOne(Blocks(log), n, m, t);
    }
  }

  // ----- appending

  /** What one more append means. */
  lemma Appended(log: seq<Event>, version: int, t: int, hasPatch: bool)
    requires Stamped(log) && t > Clock(log)
    ensures var more, segs := log + [Append(version, t, hasPatch)], Blocks(log);
            && Stamped(more) && Clock(more) == t && Blocks(more) == After(segs, Append(version, t, hasPatch))
    ensures forall i :: 0 <= i < |Blocks(log)| && Blocks(log)[i].end.None? ==> i == |Blocks(log)| - 1
    ensures Blocks(log + [Close]) == CloseLast(Blocks(log)) && Stamped(log + [Close])
  {
    BlocksOrdered(log);
    BlocksApart(log);
    assert Init(log + [Append(version, t, hasPatch)]) == log && Init(log + [Close]) == log;
  }

  /** What an append does to the segments.  Without an open segment of the version all others are
      closed and a new one starts at t.  With one, which is the last, a patch moves that segment's
      last time and nothing else; without a patch nothing changes. */
  ghost predicate AppendedTo(before: seq<Segment>, after: seq<Segment>, version: int, t: int, hasPatch: bool) {
    && (!OpenFor(before, version) ==>
          && |after| == |before| + 1 && Last(after) == Segment(t, None, version, Sec(t))
          && forall i :: 0 <= i < |before| ==> after[i] == ClosedForm(before[i]))
    && (OpenFor(before, version) && !hasPatch ==> after == before)
    && (OpenFor(before, version) && hasPatch ==>
          && Last(before).end.None? && Last(before).version == version
          && after == Init(before) + [Last(before).(last := Sec(t))])
  }

  lemma AfterAppend(segs: seq<Segment>, version: int, t: int, hasPatch: bool)
    requires forall i :: 0 <= i < |segs| && segs[i].end.None? ==> i == |segs| - 1
    ensures var after := After(segs, Append(version, t, hasPatch));
            AppendedTo(segs, after, version, t, hasPatch) && OpenFor(after, version)
  {
    var after := After(segs, Append(version, t, hasPatch));
    assert LastOpenFor(after, version) && Last(after) in after;
    assert LastOpenFor(segs, version) ==> Last(segs) in segs;
  }

  lemma InOpen(segs: seq<Segment>, i: nat, version: int, t: int, hasPatch: bool)
    requires i == |segs| - 1 && segs[i].end.None? && segs[i].version == version
    ensures After(segs, Append(version, t, hasPatch)) == if hasPatch then segs[i := segs[i].(last := Sec(t))] else segs
  {
  }

  class ReplayTimeline {
    var segments: seq<Segment>
    var clock: int
    ghost var log: seq<Event>

    /** The segments are those of the events so far. */
    ghost predicate Valid()
      reads this
    {
      Stamped(log) && clock == Clock(log) && segments == Blocks(log)
    }

    constructor ()
      ensures Valid() && segments == [] && clock == 0 && log == []
    {
      segments, clock, log := [], 0, [];
    }

    /** Writing and loading a timeline never refuses one that was recorded. */
    method Validate() returns (ok: bool)
      requires Valid()
      ensures ok
    {
      BlocksApart(log);
      ok := ValidateNonOverlapping(segments);
    }

    /** `close_last_segment`: the segment with the latest start gets its last time as end. */
    method CloseLastSegment()
      requires Valid()
      modifies `segments, `log
      ensures Valid() && log == old(log) + [Close]
      ensures |segments| == |old(segments)| && AllClosed(segments)
      ensures forall i :: 0 <= i < |segments| ==> segments[i] == ClosedForm(old(segments)[i])
    {
      var at: Option<nat> := None;
      var last := 0;
      BlocksOrdered(log);
      for i := 0 to |segments|
        invariant at.None? ==> i == 0 && last == 0
        invariant at.Some? ==> at.value == i - 1 && last == segments[at.value].start
      {
        assert i > 0 ==> segments[i - 1].start < segments[i].start;
        if segments[i].start > last {
          at, last := Some(i), segments[i].start;
        }
      }
      if at.Some? {
        var s := segments[at.value];
        ghost var before := segments;
        segments := segments[..at.value] + segments[at.value + 1..] + [s.(end := Some(s.last))];
        ClosedLast(before, clock, segments);
      }
      log := log + [Close];
      assert Init(log) == old(log);
    }

    /** `que_append_patch`: into the open segment of the version, or into a new one. */
    method QueAppendPatch(version: int, t: int, hasPatch: bool)
      requires Valid() && t > clock
      modifies this
      ensures Valid() && clock == t && log == old(log) + [Append(version, t, hasPatch)]
      ensures AppendedTo(old(segments), segments, version, t, hasPatch)
      ensures OpenFor(segments, version)
    {
      Appended(log, version, t, hasPatch);
      AfterAppend(segments, version, t, hasPatch);
      ghost var events := log;
      var i := FindOpen(version);
      if i.None? {
        CreateSegment(version, t);
      } else {
        if hasPatch {
          segments := segments[i.value := segments[i.value].(last := Sec(t))];
        }
        InOpen(old(segments), i.value, version, t, hasPatch);
      }
      clock, log := t, events + [Append(version, t, hasPatch)];
    }

    /** `_create_segment`: the latest segment is closed first. */
    method CreateSegment(version: int, t: int)
      requires Valid() && t > clock
      modifies `segments, `log
      ensures segments == CloseLast(old(segments)) + [Segment(t, None, version, Sec(t))]
    {
      Appended(log, version, t, false);
      CloseLastSegment();
      segments := segments + [Segment(t, None, version, Sec(t))];
    }

    /** `find_segment`: there is an answer exactly for the times reached by the appends so far, and
        it is of the version they were made for. */
    method FindSegment(t: int) returns (r: Option<Segment>)
      requires Valid()
      ensures Answers(segments, t, r)
      ensures r.Some? <==> exists i, k :: Reached(log, i, k, t)
      ensures forall i, k :: Reached(log, i, k, t) ==> r.Some? && r.value.version == log[i].version
    {
      r := None;
      for n := 0 to |segments|
        invariant r.None? && forall j :: 0 <= j < n ==> !Covers(segments[j], t)
      {
        if Covers(segments[n], t) {
          r := Some(segments[n]);
          break;
        }
      }
      FoundReached(log, t, r);
    }

    /** `_find_open_segment`. */
    method FindOpen(version: int) returns (r: Option<nat>)
      ensures r.Some? ==> r.value < |segments| && segments[r.value].end.None? && segments[r.value].version == version
      ensures r.None? ==> forall i :: 0 <= i < |segments| ==> !(segments[i].end.None? && segments[i].version == version)
    {
      for i := 0 to |segments|
        invariant forall j :: 0 <= j < i ==> !(segments[j].end.None? && segments[j].version == version)
      {
        if segments[i].end.None? && segments[i].version == version {
          return Some(i);
        }
      }
      return None;
    }
  }

  /** The segment under a bounded key; a closed one keeps its own. */
  function ClosedForm(s: Segment): Segment {
    if s.end.None? then s.(end := Some(s.last)) else s
  }

  ghost predicate Recorded(s: Segment, clock: int) {
    && 0 < s.start <= clock && Sec(s.start) <= s.last <= clock
    && (s.end.Some? ==> s.end.value == s.last)
  }

  ghost predicate OpenFor(segs: seq<Segment>, version: int) {
    exists s :: s in segs && s.end.None? && s.version == version
  }

  ghost predicate AllClosed(segs: seq<Segment>) {
    forall i :: 0 <= i < |segs| ==> segs[i].end.Some?
  }

  /** Taking the last segment out and putting its bounded form back. */
  lemma ClosedLast(segs: seq<Segment>, clock: int, after: seq<Segment>)
    requires segs != [] && Ordered(segs, clock)
    requires after == segs[..|segs| - 1] + segs[|segs|..] + [Last(segs).(end := Some(Last(segs).last))]
    ensures after == CloseLast(segs) && AllClosed(after)
    ensures forall i :: 0 <= i < |segs| ==> after[i] == ClosedForm(segs[i])
  {
    forall i | 0 <= i < |segs| - 1 ensures after[i] == segs[i] && segs[i].end.Some? {
      assert Before(segs[i], segs[i + 1]);
    }
  }
}
