/** The regular update times of a game: a grid of one interval, shifted by an offset that
    depends on the game. */
module UpdateGrid {

  /** `calculate_offset_ms`, from the 64-bit hash of the game's id. */
  function Offset(hash: nat, interval: nat): (r: nat)
    requires interval >= 1
    ensures r < interval
  {
    hash % interval
  }

  /** `calculate_next_k`. */
  function NextK(now: nat, offset: nat, interval: nat): nat
    requires interval >= 1
  {
    if now < offset then 0 else (now - offset) / interval + 1
  }

  /** A session's place on the grid. */
  datatype Schedule = Schedule(k: nat, due: nat)

  /** `initialize_session_schedule`. */
  function Initial(now: nat, offset: nat, interval: nat): Schedule
    requires interval >= 1
  {
    var k := NextK(now, offset, interval);
    Schedule(k, k * interval + offset)
  }

  /** `schedule_next_update`. */
  function Next(s: Schedule, missed: bool, now: nat, offset: nat, interval: nat): Schedule
    requires interval >= 1
  {
    var k := if missed then NextK(now, offset, interval) else s.k + 1;
    Schedule(k, k * interval + offset)
  }

  // ----- the grid

  /** The k-th time of the grid, counted step by step. */
  ghost function GridTime(k: nat, offset: nat, interval: nat): nat {
    if k == 0 then offset else GridTime(k - 1, offset, interval) + interval
  }

  lemma {:induction false} GridTimeIs(k: nat, offset: nat, interval: nat)
    ensures GridTime(k, offset, interval) == k * interval + offset
  {
    if k > 0 {
      GridTimeIs(k - 1, offset, interval);
      assert k * interval == (k - 1) * interval + interval;
    }
  }

  lemma Quotient(n: nat, q: nat, r: nat, m: nat)
    requires r < m && n == q * m + r
    ensures n % m == r
  {
    var q', r' := n / m, n % m;
    assert n == q' * m + r';
    if q' < q {
      Multiples(q', q, m);
    } else if q < q' {
      Multiples(q, q', m);
    }
  }

  lemma {:induction false} Multiples(a: nat, b: nat, m: nat)
    requires a < b
    ensures a * m + m <= b * m
  {
    assert b * m == (b - 1) * m + m;
    if a < b - 1 {
      Multiples(a, b - 1, m);
    }
  }

  /** Grid times are congruent to the offset. */
  lemma GridResidue(k: nat, offset: nat, interval: nat)
    requires offset < interval
    ensures GridTime(k, offset, interval) % interval == offset
  {
    GridTimeIs(k, offset, interval);
    Quotient(GridTime(k, offset, interval), k, offset, interval);
  }

  /** The first grid time after now: strictly later, and at most one interval later. */
  lemma NextIsNext(now: nat, offset: nat, interval: nat)
    requires offset < interval
    ensures now < GridTime(NextK(now, offset, interval), offset, interval) <= now + interval
  {
    GridTimeIs(NextK(now, offset, interval), offset, interval);
    if now >= offset {
      var n := now - offset;
      assert n == (n / interval) * interval + n % interval;
      assert (n / interval + 1) * interval == (n / interval) * interval + interval;
    }
  }

  /** The session's due time is its grid time. */
  ghost predicate OnGrid(s: Schedule, offset: nat, interval: nat) {
    s.due == GridTime(s.k, offset, interval)
  }

  lemma InitialOnGrid(now: nat, hash: nat, interval: nat)
    requires interval >= 1
    ensures var s := Initial(now, Offset(hash, interval), interval);
            && OnGrid(s, Offset(hash, interval), interval) && s.due % interval == hash % interval
            && now < s.due <= now + interval
  {
    var offset := Offset(hash, interval);
    var k := NextK(now, offset, interval);
    GridTimeIs(k, offset, interval);
    GridResidue(k, offset, interval);
    NextIsNext(now, offset, interval);
  }

  lemma NextOnGrid(s: Schedule, missed: bool, now: nat, hash: nat, interval: nat)
    requires interval >= 1 && OnGrid(s, Offset(hash, interval), interval)
    ensures var r := Next(s, missed, now, Offset(hash, interval), interval);
            && OnGrid(r, Offset(hash, interval), interval) && r.due % interval == hash % interval
            && (if missed then now < r.due <= now + interval else r.due == s.due + interval)
  {
    var offset := Offset(hash, interval);
    var k := if missed then NextK(now, offset, interval) else s.k + 1;
    GridTimeIs(k, offset, interval);
    GridResidue(k, offset, interval);
    if missed {
      NextIsNext(now, offset, interval);
    }
  }

  /** The schedule after a run of regular updates, each on time or missed at some time. */
  function Regular(s: Schedule, steps: seq<(bool, nat)>, offset: nat, interval: nat): (r: Schedule)
    requires interval >= 1
  {
    if steps == [] then s
    else
      var last := steps[|steps| - 1];
      Next(Regular(s, steps[..|steps| - 1], offset, interval), last.0, last.1, offset, interval)
  }

  /** In every run every regular due time lies on the game's grid. */
  lemma {:induction false} AlwaysOnGrid(hash: nat, start: nat, steps: seq<(bool, nat)>, interval: nat)
    requires interval >= 1
    ensures var offset := Offset(hash, interval);
            var s := Regular(Initial(start, offset, interval), steps, offset, interval);
            OnGrid(s, offset, interval) && s.due % interval == hash % interval
  {
    var offset := Offset(hash, interval);
    InitialOnGrid(start, hash, interval);
    if steps != [] {
      var n := |steps| - 1;
      AlwaysOnGrid(hash, start, steps[..n], interval);
      NextOnGrid(Regular(Initial(start, offset, interval), steps[..n], offset, interval),
                 steps[n].0, steps[n].1, hash, interval);
    }
  }

  // ----- retries between regular updates

  /** A session as the scheduler sees it: its step on the grid and the time of its next update,
      which a retry moves off the grid. */
  datatype Session = Session(k: nat, at: nat)

  /** `schedule_retry_update`. */
  function Retried(s: Session, now: nat, delay: nat): Session {
    s.(at := now + delay)
  }

  /** `handle_successful_update`: an update more than one interval late counts as missed. */
  function Succeeded(s: Session, now: nat, offset: nat, interval: nat): Session
    requires interval >= 1
  {
    var r := Next(Schedule(s.k, s.at), now > s.at + interval, now, offset, interval);
    Session(r.k, r.due)
  }

  /** A session that starts now. */
  function First(now: nat, offset: nat, interval: nat): Session
    requires interval >= 1
  {
    Session(Initial(now, offset, interval).k, Initial(now, offset, interval).due)
  }

  datatype Event = Retry(now: nat, delay: nat) | Success(now: nat)

  function Step(s: Session, e: Event, offset: nat, interval: nat): Session
    requires interval >= 1
  {
    match e
    case Retry(now, delay) => Retried(s, now, delay)
    case Success(now) => Succeeded(s, now, offset, interval)
  }

  function Run(s: Session, es: seq<Event>, offset: nat, interval: nat): Session
    requires interval >= 1
  {
    if es == [] then s else Step(Run(s, es[..|es| - 1], offset, interval), es[|es| - 1], offset, interval)
  }

  /** The next update after a success is due at a grid time, which lies behind now if and only if
      the last regular one was due at least one interval ago although the update itself, moved by
      retries, was not more than one interval late. */
  lemma BehindExactly(s: Session, now: nat, hash: nat, interval: nat)
    requires interval >= 1
    ensures var offset := Offset(hash, interval);
            var r, last := Succeeded(s, now, offset, interval), GridTime(s.k, offset, interval);
            && r.at == GridTime(r.k, offset, interval) && r.at % interval == hash % interval
            && (r.at <= now <==> last + interval <= now <= s.at + interval)
            && (now > s.at + interval ==> now < r.at <= now + interval)
            && (now <= s.at + interval ==> r.k == s.k + 1)
  {
    var offset := Offset(hash, interval);
    var last := Schedule(s.k, GridTime(s.k, offset, interval));
    NextOnGrid(last, now > s.at + interval, now, hash, interval);
  }

  /** A retry moves the update to exactly `delay` after now.  A success at most one interval after
      that goes on with the next step of the grid, a later one with the first grid time after it. */
  lemma RetryThenSuccess(s: Session, now: nat, delay: nat, later: nat, hash: nat, interval: nat)
    requires interval >= 1
    ensures var offset := Offset(hash, interval);
            var r := Succeeded(Retried(s, now, delay), later, offset, interval);
            && Retried(s, now, delay).at == now + delay
            && r.at == GridTime(r.k, offset, interval)
            && (later <= now + delay + interval ==> r.k == s.k + 1)
            && (later > now + delay + interval ==> later < r.at <= later + interval)
  {
    BehindExactly(Retried(s, now, delay), later, hash, interval);
  }

  /** The last event is no retry. */
  ghost predicate Settled(es: seq<Event>) {
    es == [] || es[|es| - 1].Success?
  }

  /** In every run, right after the start or a success, the next update stands on the grid, and
      a success without retries in between puts the one after it no earlier than now. */
  lemma {:induction false} SettledOnGrid(hash: nat, start: nat, es: seq<Event>, now: nat, interval: nat)
    requires interval >= 1 && Settled(es)
    ensures var offset := Offset(hash, interval);
            var s := Run(First(start, offset, interval), es, offset, interval);
            && s.at == GridTime(s.k, offset, interval)
            && Succeeded(s, now, offset, interval).at >= now
  {
    var offset := Offset(hash, interval);
    InitialOnGrid(start, hash, interval);
    var first := First(start, offset, interval);
    if es != [] {
      BehindExactly(Run(first, es[..|es| - 1], offset, interval), es[|es| - 1].now, hash, interval);
    }
    BehindExactly(Run(first, es, offset, interval), now, hash, interval);
  }

  /** A retry can put the next regular update behind now: due at step k, retried at the end of
      the interval, and successful right after. */
  lemma RetryPutsBehind(hash: nat, k: nat, interval: nat)
    requires interval >= 1
    ensures var offset := Offset(hash, interval);
            var last := GridTime(k, offset, interval);
            var s := Retried(Session(k, last), last + interval, 5000);
            var r := Succeeded(s, last + interval + 5001, offset, interval);
            r.at == last + interval < last + interval + 5001
  {
    var offset := Offset(hash, interval);
    var last := GridTime(k, offset, interval);
    GridTimeIs(k + 1, offset, interval);
    BehindExactly(Retried(Session(k, last), last + interval, 5000), last + interval + 5001, hash, interval);
  }
}
