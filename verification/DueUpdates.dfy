/** The observer's due-update queue: time buckets drained under two concurrency caps. */
module DueUpdates {
  import opened Values
  import opened Sorting

  /** One entry of the time-ordered map. */
  datatype Bucket = Bucket(time: int, ids: seq<int>)

  /** One scheduled update. */
  datatype Due = Due(time: int, id: int)

  type Queue = seq<Bucket>

  /** Buckets in order of time, none of them empty. */
  ghost predicate Ordered(q: Queue) {
    && (forall i, j :: 0 <= i < j < |q| ==> q[i].time < q[j].time)
    && (forall i :: 0 <= i < |q| ==> q[i].ids != [])
  }

  /** The entries of one bucket. */
  ghost function Timed(time: int, ids: seq<int>): (r: seq<Due>)
    ensures |r| == |ids| && forall i :: 0 <= i < |ids| ==> r[i] == Due(time, ids[i])
  {
    seq(|ids|, i requires 0 <= i < |ids| => Due(time, ids[i]))
  }

  /** All entries, earliest first, within a bucket in order of arrival. */
  ghost function Flat(q: Queue): seq<Due> {
    if q == [] then [] else Timed(q[0].time, q[0].ids) + Flat(q[1..])
  }

  lemma {:induction false} FlatAppend(a: Queue, b: Queue)
    ensures Flat(a + b) == Flat(a) + Flat(b)
  {
    if a == [] {
      assert a + b == b;
    } else {
      assert (a + b)[1..] == a[1..] + b;
      FlatAppend(a[1..], b);
    }
  }

  /** No entry is before the first bucket. */
  lemma {:induction false} FlatFrom(q: Queue, d: Due)
    requires Ordered(q) && d in Flat(q)
    ensures exists i :: 0 <= i < |q| && q[i].time == d.time
    ensures q[0].time <= d.time
  {
    if d in Timed(q[0].time, q[0].ids) {
    } else {
      FlatFrom(q[1..], d);
    }
  }

  /** A new entry goes behind everything not later. */
  ghost function Inserted(s: seq<Due>, d: Due): (r: seq<Due>) {
    if s == [] || s[0].time > d.time then [d] + s else [s[0]] + Inserted(s[1..], d)
  }

  lemma {:induction false} InsertedBetween(a: seq<Due>, d: Due, b: seq<Due>)
    requires (forall x :: x in a ==> x.time <= d.time) && (forall x :: x in b ==> x.time > d.time)
    ensures Inserted(a + b, d) == a + [d] + b
  {
    if a == [] {
      assert a + b == b;
      assert b != [] ==> b[0] in b;
    } else {
      assert a[0] in a && (a + b)[1..] == a[1..] + b;
      InsertedBetween(a[1..], d, b);
    }
  }

  lemma {:induction false} InsertedCount(s: seq<Due>, d: Due)
    ensures multiset(Inserted(s, d)) == multiset(s) + multiset{d}
  {
    if s != [] && s[0].time <= d.time {
      InsertedCount(s[1..], d);
      assert s == [s[0]] + s[1..];
    }
  }

  /** `entry(time).or_default().push_back(id)`. */
  method Push(q: Queue, time: int, id: int) returns (r: Queue)
    requires Ordered(q)
    ensures Ordered(r) && Flat(r) == Inserted(Flat(q), Due(time, id))
    ensures |q| <= |r| <= |q| + 1 && r[0].time == if q == [] || time < q[0].time then time else q[0].time
  {
    var i := 0;
    while i < |q| && q[i].time < time
      invariant 0 <= i <= |q| && forall j :: 0 <= j < i ==> q[j].time < time
    {
      i := i + 1;
    }
    if i < |q| && q[i].time == time {
      r := q[i := Bucket(time, q[i].ids + [id])];
      PushedInto(q, i, id);
    } else {
      r := q[..i] + [Bucket(time, [id])] + q[i..];
      PushedBefore(q, i, time, id);
    }
  }

  lemma {:induction false} FlatBounds(q: Queue, i: nat)
    requires Ordered(q) && i <= |q|
    ensures forall x :: x in Flat(q[..i]) ==> exists j :: 0 <= j < i && q[j].time == x.time
    ensures forall x :: x in Flat(q[i..]) ==> exists j :: i <= j < |q| && q[j].time == x.time
  {
    forall x | x in Flat(q[..i]) ensures exists j :: 0 <= j < i && q[j].time == x.time {
      FlatFrom(q[..i], x);
    }
    forall x | x in Flat(q[i..]) ensures exists j :: i <= j < |q| && q[j].time == x.time {
      FlatFrom(q[i..], x);
      var j :| 0 <= j < |q[i..]| && q[i..][j].time == x.time;
      assert q[i + j].time == x.time;
    }
  }

  lemma FlatThree(a: Queue, b: Bucket, c: Queue)
    ensures Flat(a + [b] + c) == Flat(a) + Timed(b.time, b.ids) + Flat(c)
  {
    FlatAppend(a + [b], c);
    FlatAppend(a, [b]);
    assert [b][1..] == [];
    assert Flat([b]) == Timed(b.time, b.ids);
  }

  lemma TimedSnoc(time: int, ids: seq<int>, id: int)
    ensures Timed(time, ids + [id]) == Timed(time, ids) + [Due(time, id)]
  {
  }

  lemma TimedFirst(time: int, ids: seq<int>)
    requires ids != []
    ensures Timed(time, ids) == [Due(time, ids[0])] + Timed(time, ids[1..])
  {
  }

  lemma Sides(q: Queue, i: nat, j: nat, time: int)
    requires Ordered(q) && i <= j <= |q|
    requires (forall k :: 0 <= k < i ==> q[k].time <= time) && (forall k :: j <= k < |q| ==> time < q[k].time)
    ensures forall x :: x in Flat(q[..i]) ==> x.time <= time
    ensures forall x :: x in Flat(q[j..]) ==> x.time > time
  {
    FlatBounds(q, i);
    FlatBounds(q, j);
  }

  lemma PushedInto(q: Queue, i: nat, id: int)
    requires Ordered(q) && i < |q|
    ensures Flat(q[i := Bucket(q[i].time, q[i].ids + [id])]) == Inserted(Flat(q), Due(q[i].time, id))
  {
    var b, b' := q[i], Bucket(q[i].time, q[i].ids + [id]);
    assert q == q[..i] + [b] + q[i + 1..] && q[i := b'] == q[..i] + [b'] + q[i + 1..];
    FlatThree(q[..i], b, q[i + 1..]);
    FlatThree(q[..i], b', q[i + 1..]);
    TimedSnoc(b.time, b.ids, id);
    Sides(q, i, i + 1, b.time);
    var a, t, c := Flat(q[..i]), Timed(b.time, b.ids), Flat(q[i + 1..]);
    Grouped(a, t, Due(b.time, id), c);
    InsertedBetween(a + t, Due(b.time, id), c);
  }

  lemma Grouped(a: seq<Due>, t: seq<Due>, d: Due, c: seq<Due>)
    ensures a + (t + [d]) + c == a + t + [d] + c
  {
  }

  lemma NewBetween(a: Queue, b: Bucket, c: Queue, id: int)
    requires b.ids == [id]
    ensures Flat(a + c) == Flat(a) + Flat(c) && Flat(a + [b] + c) == Flat(a) + [Due(b.time, id)] + Flat(c)
  {
    FlatAppend(a, c);
    FlatThree(a, b, c);
    assert Timed(b.time, [id]) == [Due(b.time, id)];
  }

  lemma PushedNew(a: Queue, c: Queue, time: int, id: int)
    requires (forall x :: x in Flat(a) ==> x.time <= time) && (forall x :: x in Flat(c) ==> x.time > time)
    ensures Flat(a + [Bucket(time, [id])] + c) == Inserted(Flat(a + c), Due(time, id))
  {
    NewBetween(a, Bucket(time, [id]), c, id);
    InsertedBetween(Flat(a), Due(time, id), Flat(c));
  }

  lemma OrderedNew(q: Queue, i: nat, time: int, id: int)
    requires Ordered(q) && i <= |q|
    requires (forall j :: 0 <= j < i ==> q[j].time < time) && (forall j :: i <= j < |q| ==> time < q[j].time)
    ensures Ordered(q[..i] + [Bucket(time, [id])] + q[i..])
  {
  }

  lemma PushedBefore(q: Queue, i: nat, time: int, id: int)
    requires Ordered(q) && i <= |q|
    requires (forall j :: 0 <= j < i ==> q[j].time < time) && (forall j :: i <= j < |q| ==> time < q[j].time)
    ensures var r := q[..i] + [Bucket(time, [id])] + q[i..];
            Ordered(r) && Flat(r) == Inserted(Flat(q), Due(time, id)) && r[0].time == if i == 0 then time else q[0].time
  {
    OrderedNew(q, i, time, id);
    Sides(q, i, i, time);
    assert q == q[..i] + q[i..];
    PushedNew(q[..i], q[i..], time, id);
  }

  lemma Popped(d: Due, t: seq<Due>, c: seq<Due>)
    ensures [d] + t + c == [d] + (t + c)
  {
  }

  /** `pop_earliest`; on a queue without empty buckets it finds an entry. */
  method PopEarliest(q: Queue) returns (id: int, r: Queue)
    requires Ordered(q) && q != []
    ensures id == q[0].ids[0]
    ensures Ordered(r) && Flat(q) == [Due(q[0].time, id)] + Flat(r)
    ensures r == [] || r[0].time >= q[0].time
  {
    var b := q[0];
    id := b.ids[0];
    TimedFirst(b.time, b.ids);
    Popped(Due(b.time, id), Timed(b.time, b.ids[1..]), Flat(q[1..]));
    if |b.ids| == 1 {
      r := q[1..];
      assert Timed(b.time, b.ids[1..]) == [];
    } else {
      r := q[0 := Bucket(b.time, b.ids[1..])];
      assert r[1..] == q[1..];
    }
  }

  // ----- the scheduler and its runs

  ghost predicate Queued(q: Queue, id: int) {
    exists d :: d in Flat(q) && d.id == id
  }

  /** A run is waiting until it looks its session up, updating until its outcome is handled,
      and finishing until it has cleaned up. */
  datatype Runs = Runs(waiting: multiset<int>, updating: multiset<int>, finishing: multiset<int>)

  /** Every session has a queued update or a run that will see to it; a first-update mark
      belongs to a session or a finishing run; a first-update slot belongs to a run. */
  ghost predicate Attended(q: Queue, sessions: set<int>, first: set<int>, running: set<int>, runs: Runs) {
    && (forall id :: id in sessions ==> Queued(q, id) || id in runs.waiting || id in runs.updating)
    && (forall id :: id in first ==> id in sessions || id in runs.finishing)
    && (forall id :: id in running ==> id in runs.waiting || id in runs.updating || id in runs.finishing)
  }

  class Scheduler {
    const maxParallel: int
    const maxFirst: int
    var queue: Queue
    var sessions: set<int>
    var first: set<int>
    var running: set<int>
    var active: int
    ghost var runs: Runs

    /** No bucket is empty, running first updates are marked ones, the caps hold. */
    ghost predicate Capped()
      reads this
    {
      && Ordered(queue) && running <= first && |running| <= maxFirst
      && active == |runs.waiting| + |runs.updating| + |runs.finishing| <= maxParallel
    }

    ghost predicate Valid()
      reads this
    {
      Capped() && Attended(queue, sessions, first, running, runs)
    }

    constructor (maxParallel: int, maxFirst: int)
      ensures Valid() && queue == [] && sessions == {} && first == {} && running == {} && active == 0
      ensures this.maxParallel == (if maxParallel < 1 then 1 else maxParallel)
      ensures this.maxFirst == (if maxFirst < 1 then 1 else maxFirst)
    {
      this.maxParallel := if maxParallel < 1 then 1 else maxParallel;
      this.maxFirst := if maxFirst < 1 then 1 else maxFirst;
      queue, sessions, first, running, active := [], {}, {}, {}, 0;
      runs := Runs(multiset{}, multiset{}, multiset{});
    }

    /** `schedule_update` and its variants, with the due time given. */
    method Schedule(time: int, id: int)
      requires Valid()
      modifies `queue
      ensures Valid() && Queued(queue, id) && Flat(queue) == Inserted(Flat(old(queue)), Due(time, id))
    {
      queue := Push(queue, time, id);
      StaysQueued(old(queue), queue, Due(time, id));
    }

    /** The start of a session: its first update is marked and scheduled. */
    method StartSession(id: int, time: int)
      requires Valid()
      modifies `queue, `sessions, `first
      ensures Valid() && Flat(queue) == Inserted(Flat(old(queue)), Due(time, id))
      ensures sessions == old(sessions) + {id} && first == old(first) + {id}
    {
      Schedule(time, id);
      first := first + {id};
      sessions := sessions + {id};
    }

    /** `can_start_update`. */
    predicate CanStart(id: int)
      reads this
    {
      id !in first || |running| < maxFirst
    }

    /** What stops a drain: no slot left, nothing due, or a first update without a slot. */
    ghost predicate Stopped(now: int, taken: nat, blocked: Option<Due>)
      reads this
    {
      || active + taken >= maxParallel
      || queue == [] || queue[0].time > now
      || (blocked.Some? && blocked.value.id in first && |running| >= maxFirst)
    }

    /** `get_due_updates`: the ready ids are the earliest entries, all of them due, in order of
        time; what is left is the rest of the queue, except that a first update without a free
        slot goes to the back of its own bucket. */
    method GetDueUpdates(now: int)
      returns (ready: seq<int>, ghost taken: seq<Due>, ghost blocked: Option<Due>, ghost rest: seq<Due>)
      requires Capped()
      modifies `queue, `running
      ensures Capped() && active + |ready| <= maxParallel && Stopped(now, |ready|, blocked)
      ensures Drained(now, ready, taken) && NotLater(taken, queue)
      ensures blocked.None? ==> Flat(old(queue)) == taken + rest && Flat(queue) == rest
      ensures blocked.Some? ==>
                && Flat(old(queue)) == taken + ([blocked.value] + rest)
                && Flat(queue) == Inserted(rest, blocked.value)
      ensures forall id :: id in running <==> id in old(running) || (id in ready && id in first)
    {
      ready, taken, blocked := [], [], None;
      while true
        invariant Capped() && active + |ready| <= maxParallel && blocked.None?
        invariant Drained(now, ready, taken) && NotLater(taken, queue)
        invariant Flat(old(queue)) == taken + Flat(queue)
        invariant forall id :: id in running <==> id in old(running) || (id in ready && id in first)
        decreases maxParallel - active - |ready|
      {
        if active + |ready| >= maxParallel || queue == [] || queue[0].time > now {
          rest := Flat(queue);
          return;
        }
        var due := queue[0].time;
        var id, left := PopEarliest(queue);
        ghost var d := Due(due, id);
        if !CanStart(id) {
          queue := Push(left, due, id);
          blocked, rest := Some(d), Flat(left);
          return;
        }
        DrainedNext(now, ready, taken, d, queue, left);
        queue := left;
        StartOne(id);
        ready := ready + [id];
        taken := taken + [d];
      }
    }

    method StartOne(id: int)
      requires Capped() && CanStart(id)
      modifies `running
      ensures Capped() && running == old(running) + (if id in first then {id} else {})
    {
      if id in first {
        running := running + {id};
      }
    }

    /** `start_due_updates`: every ready id becomes a waiting run. */
    method StartDueUpdates(now: int) returns (ready: seq<int>, ghost taken: seq<Due>, ghost blocked: Option<Due>)
      requires Valid()
      modifies `queue, `running, `active, `runs
      ensures Valid() && runs == old(runs).(waiting := old(runs).waiting + multiset(ready))
      ensures active == old(active) + |ready| && Stopped(now, 0, blocked)
      ensures blocked.Some? ==> blocked.value in multiset(Flat(queue))
      ensures Apart(old(running), ready, first) ==> |old(running)| + FirstStarts(ready, first) <= maxFirst
      ensures forall id :: id in running <==> id in old(running) || (id in ready && id in first)
      ensures Drained(now, ready, taken) && NotLater(taken, queue)
      ensures multiset(Flat(old(queue))) == multiset(taken) + multiset(Flat(queue))
    {
      ghost var rest;
      ready, taken, blocked, rest := GetDueUpdates(now);
      if blocked.Some? {
        InsertedCount(rest, blocked.value);
      }
      Conserved(Flat(old(queue)), Flat(queue), taken, blocked, rest);
      TakenAll(old(running), running, ready, first);
      AttendedDrain(old(queue), queue, sessions, first, old(running), running, runs, now, ready, taken);
      IncrementActive(ready);
    }

    method IncrementActive(ready: seq<int>)
      requires Capped() && active + |ready| <= maxParallel
      modifies `active, `runs
      ensures Capped() && runs == old(runs).(waiting := old(runs).waiting + multiset(ready))
    {
      for i := 0 to |ready|
        invariant Capped() && active == old(active) + i
        invariant runs == old(runs).(waiting := old(runs).waiting + multiset(ready[..i]))
      {
        assert ready[..i + 1] == ready[..i] + [ready[i]];
        active := active + 1;
        runs := runs.(waiting := runs.waiting + multiset{ready[i]});
      }
      assert ready[..|ready|] == ready;
    }

    // ----- one run, step by step: other runs may move between any two of these

    /** The first part of `run_single_update_async`.  A run that finds no session ends without
        cleaning up, and yet no slot is lost: a slot of such a game belongs to another run. */
    method LookUp(id: int) returns (found: bool)
      requires Valid() && id in runs.waiting
      modifies `active, `runs
      ensures Valid() && found == (id in sessions)
      ensures found ==> active == old(active) && runs == Moving(old(runs), id)
      ensures !found ==> active == old(active) - 1 && runs == old(runs).(waiting := old(runs).waiting - multiset{id})
      ensures !found && id in running ==> id in runs.finishing
    {
      found := id in sessions;
      if found {
        runs := Moving(runs, id);
      } else {
        active := active - 1;
        runs := runs.(waiting := runs.waiting - multiset{id});
      }
    }

    /** The outcome of an update that goes on: the next one is scheduled. */
    method Reschedule(id: int, time: int)
      requires Valid() && id in runs.updating
      modifies `queue, `runs
      ensures Valid() && Flat(queue) == Inserted(Flat(old(queue)), Due(time, id)) && runs == Handled(old(runs), id)
    {
      Schedule(time, id);
      runs := Handled(runs, id);
    }

    /** The outcome of an update that ends or drops the game. */
    method RemoveSession(id: int)
      requires Valid() && id in runs.updating
      modifies `sessions, `runs
      ensures Valid() && sessions == old(sessions) - {id} && runs == Handled(old(runs), id)
    {
      sessions := sessions - {id};
      runs := Handled(runs, id);
    }

    /** The end of `run_single_update_async`: the game's mark and slot are given back. */
    method Finish(id: int)
      requires Valid() && id in runs.finishing
      modifies `first, `running, `active, `runs
      ensures Valid() && first == old(first) - {id} && running == old(running) - {id} && active == old(active) - 1
      ensures runs == old(runs).(finishing := old(runs).finishing - multiset{id})
    {
      CleanupFirstUpdateTracking(id);
      active := active - 1;
      runs := runs.(finishing := runs.finishing - multiset{id});
    }

    method CleanupFirstUpdateTracking(id: int)
      requires Valid()
      modifies `first, `running
      ensures Valid() && first == old(first) - {id} && running == old(running) - {id}
    {
      first := first - {id};
      running := running - {id};
      SubsetSize(running, old(running));
    }

    /** Once no run is under way, every slot is free again and every marked or started game
        has a queued update. */
    lemma AllReturned()
      requires Valid() && active == 0
      ensures running == {} && forall id :: id in sessions || id in first ==> Queued(queue, id)
    {
      assert runs.waiting == runs.updating == runs.finishing == multiset{};
      assert forall id :: id in running ==> false;
    }
  }

  /** A run found its session. */
  ghost function Moving(r: Runs, id: int): Runs {
    r.(waiting := r.waiting - multiset{id}, updating := r.updating + multiset{id})
  }

  /** A run's outcome was handled. */
  ghost function Handled(r: Runs, id: int): Runs {
    r.(updating := r.updating - multiset{id}, finishing := r.finishing + multiset{id})
  }

  lemma StaysQueued(q: Queue, r: Queue, d: Due)
    requires Flat(r) == Inserted(Flat(q), d)
    ensures Queued(r, d.id) && forall id :: Queued(q, id) ==> Queued(r, id)
  {
    InsertedCount(Flat(q), d);
    assert d in multiset(Flat(r));
    assert d in Flat(r);
    forall id | Queued(q, id) ensures Queued(r, id) {
      var e :| e in Flat(q) && e.id == id;
      assert e in multiset(Flat(r));
    }
  }

  lemma AttendedDrain(q: Queue, r: Queue, sessions: set<int>, first: set<int>, running: set<int>, running': set<int>,
                      runs: Runs, now: int, ready: seq<int>, taken: seq<Due>)
    requires Attended(q, sessions, first, running, runs)
    requires Drained(now, ready, taken) && multiset(Flat(q)) == multiset(taken) + multiset(Flat(r))
    requires forall id :: id in running' <==> id in running || (id in ready && id in first)
    ensures Attended(r, sessions, first, running', runs.(waiting := runs.waiting + multiset(ready)))
  {
    var runs' := runs.(waiting := runs.waiting + multiset(ready));
    forall id | id in sessions ensures Queued(r, id) || id in runs'.waiting || id in runs'.updating {
      if Queued(q, id) {
        QueuedOrTaken(q, r, now, ready, taken, id);
      }
    }
  }

  /** A queued game is still queued after a drain, or it is among the ready ones. */
  lemma QueuedOrTaken(q: Queue, r: Queue, now: int, ready: seq<int>, taken: seq<Due>, id: int)
    requires Queued(q, id) && Drained(now, ready, taken) && multiset(Flat(q)) == multiset(taken) + multiset(Flat(r))
    ensures Queued(r, id) || id in ready
  {
    var d :| d in Flat(q) && d.id == id;
    assert d in multiset(Flat(q));
    if d in multiset(taken) {
      assert d in taken;
    } else {
      assert d in multiset(Flat(r));
    }
  }

  /** The entries taken are due, in order of time, and go by these ids. */
  ghost predicate Drained(now: int, ready: seq<int>, taken: seq<Due>) {
    && |taken| == |ready|
    && (forall i :: 0 <= i < |ready| ==> taken[i].id == ready[i] && taken[i].time <= now)
    && (forall i, j :: 0 <= i < j < |taken| ==> taken[i].time <= taken[j].time)
  }

  /** Nothing taken is later than what is left. */
  ghost predicate NotLater(taken: seq<Due>, q: Queue) {
    q != [] ==> forall i :: 0 <= i < |taken| ==> taken[i].time <= q[0].time
  }

  lemma DrainedNext(now: int, ready: seq<int>, taken: seq<Due>, d: Due, q: Queue, rest: Queue)
    requires Drained(now, ready, taken) && NotLater(taken, q) && Ordered(q) && q != [] && d.time == q[0].time <= now
    requires Flat(q) == [d] + Flat(rest) && (rest == [] || rest[0].time >= q[0].time)
    ensures Drained(now, ready + [d.id], taken + [d]) && NotLater(taken + [d], rest)
    ensures taken + Flat(q) == taken + [d] + Flat(rest)
  {
  }

  /** A drain neither loses nor invents an entry. */
  lemma Conserved(before: seq<Due>, after: seq<Due>, taken: seq<Due>, blocked: Option<Due>, rest: seq<Due>)
    requires blocked.None? ==> before == taken + rest && after == rest
    requires blocked.Some? ==> before == taken + ([blocked.value] + rest) && after == Inserted(rest, blocked.value)
    ensures multiset(before) == multiset(taken) + multiset(after)
  {
    if blocked.Some? {
      InsertedCount(rest, blocked.value);
    }
  }

  // ----- how many runs share the first-update slots

  /** The ready entries that start as first updates. */
  function FirstStarts(ready: seq<int>, first: set<int>): nat {
    if ready == [] then 0 else FirstStarts(Init(ready), first) + if Last(ready) in first then 1 else 0
  }

  /** The slots taken after the ready entries have started. */
  ghost function Taken(running: set<int>, ready: seq<int>, first: set<int>): set<int> {
    if ready == [] then running
    else Taken(running, Init(ready), first) + if Last(ready) in first then {Last(ready)} else {}
  }

  lemma {:induction false} TakenIs(running: set<int>, ready: seq<int>, first: set<int>, id: int)
    ensures id in Taken(running, ready, first) <==> id in running || (id in ready && id in first)
  {
    if ready != [] {
      TakenIs(running, Init(ready), first, id);
      assert ready == Init(ready) + [Last(ready)];
    }
  }

  /** No ready entry that starts as a first update does so twice or has a slot already. */
  ghost predicate Apart(running: set<int>, ready: seq<int>, first: set<int>) {
    && (forall i :: 0 <= i < |ready| && ready[i] in first ==> ready[i] !in running)
    && (forall i, j :: 0 <= i < j < |ready| && ready[i] in first ==> ready[i] != ready[j])
  }

  lemma ApartInit(running: set<int>, ready: seq<int>, first: set<int>)
    requires ready != []
    ensures Apart(running, ready, first) <==>
            && Apart(running, Init(ready), first)
            && (Last(ready) in first ==> Last(ready) !in Taken(running, Init(ready), first))
  {
    var id, n := Last(ready), |ready| - 1;
    TakenIs(running, Init(ready), first, id);
    if Apart(running, Init(ready), first) && (id in first ==> id !in Taken(running, Init(ready), first)) {
      forall i, j | 0 <= i < j < |ready| && ready[i] in first ensures ready[i] != ready[j] {
        if j == n {
          assert Init(ready)[i] in Init(ready);
        } else {
          assert Init(ready)[i] != Init(ready)[j];
        }
      }
      forall i | 0 <= i < |ready| && ready[i] in first ensures ready[i] !in running {
        if i < n {
          assert Init(ready)[i] !in running;
        }
      }
    }
    if Apart(running, ready, first) {
      assert forall i :: 0 <= i < n ==> Init(ready)[i] == ready[i];
    }
  }

  /** The cap bounds slots, not runs: the runs started as first updates are as many as the slots
      they take if and only if no two of them are of one game and none is of a game that has a
      slot already; otherwise they are more. */
  lemma {:induction false} SlotsAndRuns(running: set<int>, ready: seq<int>, first: set<int>)
    ensures |Taken(running, ready, first)| <= |running| + FirstStarts(ready, first)
    ensures |Taken(running, ready, first)| == |running| + FirstStarts(ready, first) <==> Apart(running, ready, first)
  {
    if ready != [] {
      SlotsAndRuns(running, Init(ready), first);
      ApartInit(running, ready, first);
      var before := Taken(running, Init(ready), first);
      if Last(ready) in first && Last(ready) in before {
        assert before + {Last(ready)} == before;
      }
    }
  }

  lemma TakenAll(running: set<int>, running': set<int>, ready: seq<int>, first: set<int>)
    requires forall id :: id in running' <==> id in running || (id in ready && id in first)
    ensures Apart(running, ready, first) ==> |running| + FirstStarts(ready, first) == |running'|
  {
    forall id ensures id in running' <==> id in Taken(running, ready, first) {
      TakenIs(running, ready, first, id);
    }
    assert running' == Taken(running, ready, first);
    SlotsAndRuns(running, ready, first);
  }

  /** A marked game queued n times, by its start and by recoveries, is started n times at once,
      n as large as the cap on all runs: with room for two first updates, one slot is taken. */
  method SharedSlot(id: int, n: nat) returns (s: Scheduler, ready: seq<int>)
    requires n >= 3
    ensures s.Valid() && s.maxFirst == 2 && s.maxParallel == n && s.first == {id} && s.running == {id}
    ensures |ready| == FirstStarts(ready, {id}) == n > s.maxFirst && forall i :: 0 <= i < n ==> ready[i] == id
  {
    s := QueuedOften(id, n, n);
    ghost var taken, blocked;
    ready, taken, blocked := s.StartDueUpdates(0);
    AllStarted(s, id, n, ready, taken, blocked);
    AllFirst(ready, id);
  }

  /** An empty scheduler but for n updates of one session, due at once. */
  ghost predicate Repeated(s: Scheduler, id: int, max: nat, n: nat)
    reads s
  {
    && s.Valid() && s.maxFirst == 2 && s.maxParallel == max && s.first == {id} && s.running == {} && s.active == 0
    && multiset(Flat(s.queue)) == multiset{}[Due(0, id) := n]
  }

  method QueuedOften(id: int, max: nat, n: nat) returns (s: Scheduler)
    requires 1 <= n <= max
    ensures fresh(s) && Repeated(s, id, max, n)
  {
    if n == 1 {
      s := QueuedOnce(id, max);
    } else {
      s := QueuedOften(id, max, n - 1);
      QueueAgain(s, id, max, n - 1);
    }
  }

  method QueuedOnce(id: int, max: nat) returns (s: Scheduler)
    requires max >= 1
    ensures fresh(s) && Repeated(s, id, max, 1)
  {
    s := new Scheduler(max, 2);
    OneMore(s.queue, id, 0);
    s.StartSession(id, 0);
  }

  method QueueAgain(s: Scheduler, id: int, max: nat, n: nat)
    requires Repeated(s, id, max, n)
    modifies s`queue
    ensures Repeated(s, id, max, n + 1)
  {
    OneMore(s.queue, id, n);
    s.Schedule(0, id);
  }

  lemma OneMore(q: Queue, id: int, i: nat)
    requires multiset(Flat(q)) == multiset{}[Due(0, id) := i]
    ensures multiset(Inserted(Flat(q), Due(0, id))) == multiset{}[Due(0, id) := i + 1]
  {
    InsertedCount(Flat(q), Due(0, id));
  }

  lemma AllStarted(s: Scheduler, id: int, n: nat, ready: seq<int>, taken: seq<Due>, blocked: Option<Due>)
    requires n >= 3 && s.Valid() && s.maxFirst == 2 && s.maxParallel == n && s.first == {id}
    requires multiset{}[Due(0, id) := n] == multiset(taken) + multiset(Flat(s.queue)) && Drained(0, ready, taken)
    requires s.active == |ready| && s.Stopped(0, 0, blocked)
    requires blocked.Some? ==> blocked.value in multiset(Flat(s.queue))
    requires forall x :: x in s.running <==> x in ready && x == id
    ensures |ready| == n && s.running == {id} && forall i :: 0 <= i < n ==> ready[i] == id
  {
    OnlyThis(taken, s.queue, id, n);
    forall i | 0 <= i < |ready| ensures ready[i] == id {
      assert taken[i] in multiset(taken);
    }
    SubsetSize(s.running, {id});
    assert |multiset(taken)| == |taken| && |multiset{}[Due(0, id) := n]| == n;
    assert s.queue == [] ==> Flat(s.queue) == [];
    assert |ready| == n;
    assert ready[0] == id;
  }

  /** All entries taken or left are the same. */
  lemma OnlyThis(taken: seq<Due>, q: Queue, id: int, n: nat)
    requires multiset{}[Due(0, id) := n] == multiset(taken) + multiset(Flat(q)) && Ordered(q)
    ensures forall d :: d in multiset(taken) || d in multiset(Flat(q)) ==> d == Due(0, id)
    ensures q != [] ==> q[0].time == 0
  {
    forall d | d in multiset(taken) || d in multiset(Flat(q)) ensures d == Due(0, id) {
      assert d in multiset(taken) + multiset(Flat(q));
    }
    if q != [] {
      HeadIn(q);
    }
  }

  lemma HeadIn(q: Queue)
    requires Ordered(q) && q != []
    ensures Due(q[0].time, q[0].ids[0]) in Flat(q)
  {
    assert Timed(q[0].time, q[0].ids)[0] == Due(q[0].time, q[0].ids[0]);
  }

  lemma {:induction false} AllFirst(ready: seq<int>, id: int)
    requires forall i :: 0 <= i < |ready| ==> ready[i] == id
    ensures FirstStarts(ready, {id}) == |ready|
  {
    if ready != [] {
      AllFirst(Init(ready), id);
    }
  }
}
