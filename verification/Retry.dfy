/** How long a failing session is kept: attempt counter, retry budgets, backoff, and the
    circuit breaker that freezes sessions of an unreachable server. */
module Retry {
  import opened Values
  import opened Powers

  const MAX_NETWORK_RETRIES := 12
  const MAX_SERVER_RETRIES := 10
  const MAX_UPDATE_RETRIES := 3

  datatype Failure = AuthFailed | ServerError | NetworkError | PackageCreationFailed | UnknownError

  datatype Diagnosis = GameServerDown | ProxyDead | ProxyBlockingTarget | Transient

  // ----- the outage tracker

  /** Down servers and the games frozen because of them. */
  type Outages = map<string, set<int>>

  datatype Action = Open(addr: string, game: int) | Freeze(addr: string, game: int) | Close(addr: string)

  function Frozen(down: Outages, addr: string): set<int> {
    if addr in down then down[addr] else {}
  }

  /** `open`, `freeze` and `close`; freezing for a server that is not down does nothing. */
  function Apply(down: Outages, a: Action): Outages {
    match a
    case Open(addr, game) => down[addr := Frozen(down, addr) + {game}]
    case Freeze(addr, game) => if addr in down then down[addr := down[addr] + {game}] else down
    case Close(addr) => down - {addr}
  }

  function Replay(log: seq<Action>): Outages {
    if log == [] then map[] else Apply(Replay(Init(log)), Last(log))
  }

  /** The circuit for addr was opened at position j and not closed since. */
  ghost predicate OpenSince(log: seq<Action>, addr: string, j: nat) {
    && j < |log| && log[j].Open? && log[j].addr == addr
    && forall k :: j < k < |log| ==> log[k] != Close(addr)
  }

  ghost predicate Down(log: seq<Action>, addr: string) {
    exists j: nat :: OpenSince(log, addr, j)
  }

  /** The game was handed in at or after an opening that has not been closed. */
  ghost predicate Waits(log: seq<Action>, addr: string, game: int) {
    exists j: nat, i: nat :: OpenSince(log, addr, j) && j <= i < |log| && HandsIn(log[i], addr, game)
  }

  predicate HandsIn(a: Action, addr: string, game: int) {
    a == Open(addr, game) || a == Freeze(addr, game)
  }

  lemma OpenSinceNext(log: seq<Action>, a: Action, addr: string, j: nat)
    ensures OpenSince(log + [a], addr, j) <==>
            a != Close(addr) && (OpenSince(log, addr, j) || (j == |log| && a.Open? && a.addr == addr))
  {
    var so := log + [a];
    assert so[|log|] == a && forall k :: 0 <= k < |log| ==> so[k] == log[k];
    if OpenSince(so, addr, j) {
      assert j < |log| ==> so[|log|] != Close(addr);
    }
  }

  lemma DownNext(log: seq<Action>, a: Action, addr: string)
    ensures Down(log + [a], addr) <==> a != Close(addr) && (Down(log, addr) || (a.Open? && a.addr == addr))
  {
    forall j: nat ensures OpenSince(log + [a], addr, j) <==>
            a != Close(addr) && (OpenSince(log, addr, j) || (j == |log| && a.Open? && a.addr == addr)) {
      OpenSinceNext(log, a, addr, j);
    }
    if a.Open? && a.addr == addr {
      OpenSinceNext(log, a, addr, |log|);
    }
  }

  lemma WaitsNext(log: seq<Action>, a: Action, addr: string, game: int)
    ensures Waits(log + [a], addr, game) <==>
            && a != Close(addr)
            && (Waits(log, addr, game) || (HandsIn(a, addr, game) && (a.Open? || Down(log, addr))))
  {
    var so := log + [a];
    assert so[|log|] == a && forall k :: 0 <= k < |log| ==> so[k] == log[k];
    if Waits(so, addr, game) {
      var j: nat, i: nat :| OpenSince(so, addr, j) && j <= i < |so| && HandsIn(so[i], addr, game);
      OpenSinceNext(log, a, addr, j);
    }
    if a != Close(addr) && Waits(log, addr, game) {
      var j: nat, i: nat :| OpenSince(log, addr, j) && j <= i < |log| && HandsIn(log[i], addr, game);
      OpenSinceNext(log, a, addr, j);
      assert HandsIn(so[i], addr, game);
    }
    if HandsIn(a, addr, game) && Down(log, addr) {
      var j: nat :| OpenSince(log, addr, j);
      OpenSinceNext(log, a, addr, j);
      assert HandsIn(so[|log|], addr, game);
    }
    if a == Open(addr, game) {
      OpenSinceNext(log, a, addr, |log|);
      assert HandsIn(so[|log|], addr, game);
    }
  }

  /** After any run of the tracker, a server is down if and only if it was opened and not
      closed since, and frozen for it are exactly the games handed in since then. */
  lemma {:induction false} TrackerExact(log: seq<Action>, addr: string, game: int)
    ensures addr in Replay(log) <==> Down(log, addr)
    ensures game in Frozen(Replay(log), addr) <==> Waits(log, addr, game)
  {
    if log != [] {
      TrackerExact(Init(log), addr, game);
      assert log == Init(log) + [Last(log)];
      DownNext(Init(log), Last(log), addr);
      assert Waits(Init(log), addr, game) ==> Down(Init(log), addr);
      WaitsNext(Init(log), Last(log), addr, game);
    }
  }

  /** The tracker and, for its specification, everything that was asked of it. */
  class ServerOutageTracker {
    var down: Outages
    ghost var log: seq<Action>

    ghost predicate Valid()
      reads this
    {
      down == Replay(log)
    }

    constructor ()
      ensures Valid() && log == []
    {
      down, log := map[], [];
    }

    method Open(addr: string, game: int) returns (newlyOpened: bool)
      requires Valid()
      modifies this
      ensures Valid() && log == old(log) + [Action.Open(addr, game)]
      ensures newlyOpened <==> !Down(old(log), addr)
    {
      TrackerExact(log, addr, game);
      newlyOpened := addr !in down;
      down := Apply(down, Action.Open(addr, game));
      log := log + [Action.Open(addr, game)];
    }

    method Freeze(addr: string, game: int)
      requires Valid()
      modifies this
      ensures Valid() && log == old(log) + [Action.Freeze(addr, game)]
    {
      down := Apply(down, Action.Freeze(addr, game));
      log := log + [Action.Freeze(addr, game)];
    }

    /** Exactly the games handed in since the circuit opened come back, once. */
    method Close(addr: string) returns (frozen: set<int>)
      requires Valid()
      modifies this
      ensures Valid() && log == old(log) + [Action.Close(addr)]
      ensures forall g :: g in frozen <==> Waits(old(log), addr, g)
      ensures forall g :: !Waits(log, addr, g)
    {
      forall g ensures g in Frozen(down, addr) <==> Waits(log, addr, g) {
        TrackerExact(log, addr, g);
      }
      forall g ensures !Waits(log + [Action.Close(addr)], addr, g) {
        WaitsNext(log, Action.Close(addr), addr, g);
      }
      frozen := Frozen(down, addr);
      down := Apply(down, Action.Close(addr));
      log := log + [Action.Close(addr)];
    }
  }

  // ----- the retry decision

  /** What a failed update does to the session, besides its attempt counter. */
  datatype Decision = RetryAfter(seconds: nat) | Dropped

  function Budget(f: Failure): (n: nat)
    ensures f.NetworkError? ==> n == 12
    ensures f.ServerError? ==> n == 10
    ensures !f.NetworkError? && !f.ServerError? ==> n == 3
  {
    match f
    case NetworkError => MAX_NETWORK_RETRIES
    case ServerError => MAX_SERVER_RETRIES
    case _ => MAX_UPDATE_RETRIES
  }

  function DelayCap(f: Failure, interval: nat): nat {
    match f
    case NetworkError => 3600
    case ServerError => 1800
    case _ => interval
  }

  /** The third phase of `handle_failed_update`. */
  function Decide(attempt: nat, f: Failure, interval: nat): (nat, Decision)
    requires attempt >= 1
  {
    if attempt >= Budget(f) then (attempt, Dropped)
    else
      var next := attempt + 1;
      var delay := 5 * Pow2(next - 2);
      var cap := DelayCap(f, interval);
      (next, RetryAfter(if delay <= cap then delay else cap))
  }

  /** The attempt is one too many: the 12th after network errors, the 10th after server errors,
      the 3rd after any other failure. */
  predicate Exhausted(attempt: nat, f: Failure) {
    || (f.NetworkError? && attempt >= 12)
    || (f.ServerError? && attempt >= 10)
    || (!f.NetworkError? && !f.ServerError? && attempt >= 3)
  }

  /** The number of seconds is the smaller of 5 * 2^(j - 1) and an hour after a network error, half
      an hour after a server error, the update interval after any other failure. */
  ghost predicate BacksOff(seconds: nat, j: nat, f: Failure, interval: nat)
    requires j >= 1
  {
    && (f.NetworkError? ==> seconds == Smaller(5 * Pow2(j - 1), 3600))
    && (f.ServerError? ==> seconds == Smaller(5 * Pow2(j - 1), 1800))
    && (!f.NetworkError? && !f.ServerError? ==> seconds == Smaller(5 * Pow2(j - 1), interval))
  }

  ghost function Smaller(a: nat, b: nat): (r: nat)
    ensures r <= a && r <= b && (r == a || r == b)
  {
    if a < b then a else b
  }

  /** A failure at an exhausted attempt drops the session; any other one is retried after exactly
      the backoff.  Its exponent never exceeds 10, so 2^exponent fits 32 bits, and the delay never
      5120 seconds. */
  lemma BackoffExact(attempt: nat, f: Failure, interval: nat)
    requires attempt >= 1
    ensures var (next, d) := Decide(attempt, f, interval);
            && (d.Dropped? <==> Exhausted(attempt, f)) && (d.Dropped? ==> next == attempt)
            && (d.RetryAfter? ==>
                  && next == attempt + 1 && BacksOff(d.seconds, attempt, f, interval)
                  && attempt - 1 <= 10 && Pow2(attempt - 1) < 0x1_0000_0000 && d.seconds <= 5120)
  {
    var (next, d) := Decide(attempt, f, interval);
    if d.RetryAfter? {
      Pow2Monotone(next - 2, 10);
      assert Pow2(5) == 32;
      assert Pow2(10) == 32 * Pow2(5);
    }
  }

  // ----- tracker, sessions and failing runs together

  /** A failed update being handled: whether the server was down at its first test, and, after
      the second test, whether the failure is being diagnosed. */
  datatype Failing = Failing(game: int, session: nat, addr: string, failure: Failure, frozen: bool,
                             diagnosed: Option<bool>)

  /** `live` gives the session of each observed game; sessions are numbered as they start, and
      a run may hold one that is live no more. */
  datatype State = State(down: Outages, live: map<int, nat>, attempts: seq<nat>, runs: map<int, Failing>)

  const START := State(map[], map[], [], map[])

  /** The steps of handling a failure are events of their own: anything may happen between. */
  datatype Event =
    | Started(game: int)
    | Succeeded(session: nat)
    | Ended(game: int)
    | Tested(run: int, game: int, session: nat, addr: string, failure: Failure)
    | TestedAgain(run: int)
    | Resolved(run: int, diagnosis: Diagnosis, interval: nat)
    | Recovered(addr: string)

  predicate Enabled(s: State, e: Event) {
    match e
    case Started(_) => true
    case Succeeded(n) => n < |s.attempts|
    case Ended(_) => true
    case Tested(r, _, n, _, _) => r !in s.runs && n < |s.attempts|
    case TestedAgain(r) => r in s.runs && !s.runs[r].frozen && s.runs[r].diagnosed.None?
    case Resolved(r, _, _) => r in s.runs && (s.runs[r].frozen || s.runs[r].diagnosed.Some?)
    case Recovered(_) => true
  }

  /** What the event asks of the tracker. */
  function Asks(s: State, e: Event): Option<Action> {
    match e
    case Resolved(r, d, _) =>
      if r !in s.runs then None
      else if s.runs[r].frozen then Some(Freeze(s.runs[r].addr, s.runs[r].game))
      else if s.runs[r].diagnosed == Some(true) && d.GameServerDown? then Some(Open(s.runs[r].addr, s.runs[r].game))
      else None
    case Recovered(addr) => Some(Close(addr))
    case _ => None
  }

  /** The failure counts against the budget. */
  predicate Charges(s: State, e: Event) {
    e.Resolved? && e.run in s.runs && Asks(s, e).None?
  }

  /** What a resolved failure does: a frozen one is tried again after a minute. */
  function Answer(s: State, e: Event): Decision
    requires Consistent(s) && Enabled(s, e) && e.Resolved?
  {
    if Asks(s, e).Some? then RetryAfter(60)
    else
      var p := s.runs[e.run];
      assert Known(s, e.run);
      Decide(s.attempts[p.session], p.failure, e.interval).1
  }

  /** The failure costs the game its session. */
  predicate Drops(s: State, e: Event)
    requires Consistent(s) && Enabled(s, e)
  {
    e.Resolved? && Answer(s, e).Dropped?
  }

  /** The recovery resets the counter of session n. */
  predicate Resets(s: State, e: Event, n: nat) {
    e.Recovered? && exists g :: g in Frozen(s.down, e.addr) && g in s.live && s.live[g] == n
  }

  function NextAttempts(s: State, e: Event): (r: seq<nat>)
    requires Consistent(s) && Enabled(s, e)
    ensures |r| == |s.attempts| + if e.Started? then 1 else 0
  {
    match e
    case Started(_) => s.attempts + [1]
    case Succeeded(n) => s.attempts[n := 1]
    case Resolved(r, _, interval) =>
      if Charges(s, e) then
        var p := s.runs[r];
        assert Known(s, r);
        s.attempts[p.session := Decide(s.attempts[p.session], p.failure, interval).0]
      else s.attempts
    case Recovered(_) =>
      seq(|s.attempts|, n requires 0 <= n < |s.attempts| => if Resets(s, e, n) then 1 else s.attempts[n])
    case _ => s.attempts
  }

  function Step(s: State, e: Event): State
    requires Consistent(s) && Enabled(s, e)
  {
    var down := if Asks(s, e).Some? then Apply(s.down, Asks(s, e).value) else s.down;
    var live :=
      match e
      case Started(g) => s.live[g := |s.attempts|]
      case Ended(g) => s.live - {g}
      case Resolved(r, _, _) => if Drops(s, e) then s.live - {s.runs[r].game} else s.live
      case _ => s.live;
    var runs :=
      match e
      case Tested(r, g, n, addr, f) => s.runs[r := Failing(g, n, addr, f, addr in s.down, None)]
      case TestedAgain(r) =>
        var p := s.runs[r];
        s.runs[r := p.(diagnosed := Some(p.failure.NetworkError? && p.addr !in s.down))]
      case Resolved(r, _, _) => s.runs - {r}
      case _ => s.runs;
    State(down, live, NextAttempts(s, e), runs)
  }

  ghost predicate Known(s: State, r: int)
    requires r in s.runs
  {
    s.runs[r].session < |s.attempts|
  }

  /** Runs and games refer to sessions that exist, no two games share one, and every counter
      is within 1..12. */
  ghost predicate Consistent(s: State) {
    && (forall r {:trigger Known(s, r)} :: r in s.runs ==> Known(s, r))
    && (forall g :: g in s.live ==> s.live[g] < |s.attempts|)
    && (forall g, h :: g in s.live && h in s.live && s.live[g] == s.live[h] ==> g == h)
    && (forall n :: 0 <= n < |s.attempts| ==> 1 <= s.attempts[n] <= MAX_NETWORK_RETRIES)
  }

  lemma StepConsistent(s: State, e: Event)
    requires Consistent(s) && Enabled(s, e)
    ensures Consistent(Step(s, e))
  {
    var t := Step(s, e);
    forall r | r in t.runs ensures Known(t, r) {
      if r in s.runs {
        assert Known(s, r);
      }
    }
  }

  // ----- all runs

  ghost predicate Moves(ss: seq<State>, es: seq<Event>, i: nat)
    requires i < |es| < |ss|
  {
    Consistent(ss[i]) ==> Enabled(ss[i], es[i]) && ss[i + 1] == Step(ss[i], es[i])
  }

  /** The states of a run and the events between them. */
  ghost predicate Run(ss: seq<State>, es: seq<Event>) {
    && |ss| == |es| + 1 && ss[0] == START
    && forall i {:trigger Moves(ss, es, i)} :: 0 <= i < |es| ==> Moves(ss, es, i)
  }

  /** In every run the counters stay within 1..12. */
  lemma {:induction false} AlwaysConsistent(ss: seq<State>, es: seq<Event>, k: nat)
    requires Run(ss, es) && k <= |es|
    ensures Consistent(ss[k])
  {
    if k > 0 {
      AlwaysConsistent(ss, es, k - 1);
      assert Moves(ss, es, k - 1);
      StepConsistent(ss[k - 1], es[k - 1]);
    }
  }

  lemma StepAt(ss: seq<State>, es: seq<Event>, i: nat)
    requires Run(ss, es) && i < |es|
    ensures Consistent(ss[i]) && Enabled(ss[i], es[i]) && ss[i + 1] == Step(ss[i], es[i])
  {
    AlwaysConsistent(ss, es, i);
    assert Moves(ss, es, i);
  }

  /** What the first k events ask of the tracker. */
  ghost function Log(ss: seq<State>, es: seq<Event>, k: nat): seq<Action>
    requires k <= |es| < |ss|
  {
    if k == 0 then []
    else
      var a := Asks(ss[k - 1], es[k - 1]);
      if a.Some? then Log(ss, es, k - 1) + [a.value] else Log(ss, es, k - 1)
  }

  lemma {:induction false} DownIsReplay(ss: seq<State>, es: seq<Event>, k: nat)
    requires Run(ss, es) && k <= |es|
    ensures ss[k].down == Replay(Log(ss, es, k))
  {
    if k > 0 {
      DownIsReplay(ss, es, k - 1);
      StepAt(ss, es, k - 1);
      var a := Asks(ss[k - 1], es[k - 1]);
      if a.Some? {
        ReplayNext(Log(ss, es, k - 1), a.value);
      }
    }
  }

  lemma ReplayNext(log: seq<Action>, a: Action)
    ensures Replay(log + [a]) == Apply(Replay(log), a)
  {
    assert Init(log + [a]) == log;
  }

  /** In every run: a server counts as down exactly while an opening is not yet closed, and the
      games a recovery brings back are exactly those handed in since then. */
  lemma BroughtBack(ss: seq<State>, es: seq<Event>, k: nat, addr: string, game: int)
    requires Run(ss, es) && k <= |es|
    ensures addr in ss[k].down <==> Down(Log(ss, es, k), addr)
    ensures game in Frozen(ss[k].down, addr) <==> Waits(Log(ss, es, k), addr, game)
  {
    DownIsReplay(ss, es, k);
    TrackerExact(Log(ss, es, k), addr, game);
  }

  // ----- from freeze to recovery

  /** Session n is the game's, the game is frozen for this server alone, and every failure of it
      being handled found the server down. */
  ghost predicate OnIce(s: State, addr: string, game: int, n: nat) {
    && game in s.live && s.live[game] == n < |s.attempts|
    && (forall b :: b in s.down ==> (game in s.down[b] <==> b == addr)) && addr in s.down
    && (forall r :: r in s.runs && Of(s.runs[r], game, n) ==> s.runs[r].frozen && s.runs[r].addr == addr)
  }

  predicate Of(p: Failing, game: int, n: nat) {
    p.game == game || p.session == n
  }

  /** Nothing happens to the game but failures on this server, which does not recover. */
  predicate Waiting(e: Event, addr: string, game: int, n: nat) {
    match e
    case Started(g) => g != game
    case Succeeded(m) => m != n
    case Ended(g) => g != game
    case Tested(_, g, m, b, _) => g == game || m == n ==> b == addr
    case TestedAgain(_) => true
    case Resolved(_, _, _) => true
    case Recovered(b) => b != addr
  }

  lemma StaysOnIce(s: State, e: Event, addr: string, game: int, n: nat)
    requires Consistent(s) && OnIce(s, addr, game, n) && Enabled(s, e) && Waiting(e, addr, game, n)
    ensures OnIce(Step(s, e), addr, game, n) && Step(s, e).attempts[n] == s.attempts[n]
  {
    if e.Resolved? {
      assert Of(s.runs[e.run], game, n) ==> Asks(s, e) == Some(Freeze(addr, s.runs[e.run].game));
    }
    if e.Recovered? {
      assert !Resets(s, e, n);
    }
  }

  /** The failure's game has session n, no other server holds it, no other failure of it being
      handled found the server up, and the circuit has not been closed since the first test. */
  ghost predicate FrozenAlone(s: State, e: Event, n: nat)
    requires e.Resolved? && e.run in s.runs
  {
    var addr, game := s.runs[e.run].addr, s.runs[e.run].game;
    && game in s.live && s.live[game] == n
    && (forall b :: b in s.down && b != addr ==> game !in s.down[b])
    && (forall r :: r in s.runs && r != e.run && Of(s.runs[r], game, n) ==>
          s.runs[r].frozen && s.runs[r].addr == addr)
    && (s.runs[e.run].frozen ==> addr in s.down)
  }

  /** A failure that is handed to the tracker puts its game on ice if and only if this holds. */
  lemma FreezeOnIce(s: State, e: Event, n: nat)
    requires Consistent(s) && Enabled(s, e) && e.Resolved? && Asks(s, e).Some?
    ensures OnIce(Step(s, e), s.runs[e.run].addr, s.runs[e.run].game, n) <==> FrozenAlone(s, e, n)
    ensures Step(s, e).attempts == s.attempts
  {
    var t, addr, game := Step(s, e), s.runs[e.run].addr, s.runs[e.run].game;
    assert t.live == s.live && t.runs == s.runs - {e.run} && t.attempts == s.attempts;
    assert t.down == Apply(s.down, Asks(s, e).value);
    assert forall b :: b != addr ==> (b in t.down <==> b in s.down) && (b in t.down ==> t.down[b] == s.down[b]);
    assert addr in t.down <==> (s.runs[e.run].frozen ==> addr in s.down);
    assert addr in t.down ==> game in t.down[addr];
    assert forall r :: r in t.runs <==> r in s.runs && r != e.run;
  }

  lemma {:induction false} IceHolds(ss: seq<State>, es: seq<Event>, i: nat, k: nat, addr: string, game: int, n: nat)
    requires Run(ss, es) && i <= k <= |es| && OnIce(ss[i], addr, game, n)
    requires forall x :: i <= x < k ==> Waiting(es[x], addr, game, n)
    ensures OnIce(ss[k], addr, game, n) && ss[k].attempts[n] == ss[i].attempts[n]
    decreases k
  {
    if i < k {
      IceHolds(ss, es, i, k - 1, addr, game, n);
      StepAt(ss, es, k - 1);
      StaysOnIce(ss[k - 1], es[k - 1], addr, game, n);
    }
  }

  /** From the failure that freezes a game to the recovery of its server, however many failures
      on that server come in between, the counter does not move and the game is neither dropped
      nor forgotten; the recovery then brings it back with a full budget. */
  lemma FrozenUntilRecovery(ss: seq<State>, es: seq<Event>, i: nat, k: nat, n: nat)
    requires Run(ss, es) && i < k <= |es| && es[i].Resolved? && Asks(ss[i], es[i]).Some?
    requires FrozenAlone(ss[i], es[i], n)
    requires var p := ss[i].runs[es[i].run]; forall x :: i < x < k ==> Waiting(es[x], p.addr, p.game, n)
    ensures var p := ss[i].runs[es[i].run];
            && n < |ss[i].attempts| && OnIce(ss[k], p.addr, p.game, n) && ss[k].attempts[n] == ss[i].attempts[n]
            && (k < |es| && es[k] == Recovered(p.addr) ==>
                  && p.addr !in ss[k + 1].down && p.game in ss[k + 1].live && ss[k + 1].live[p.game] == n
                  && n < |ss[k + 1].attempts| && ss[k + 1].attempts[n] == 1)
  {
    var p := ss[i].runs[es[i].run];
    StepAt(ss, es, i);
    FreezeOnIce(ss[i], es[i], n);
    IceHolds(ss, es, i + 1, k, p.addr, p.game, n);
    if k < |es| && es[k] == Recovered(p.addr) {
      StepAt(ss, es, k);
      Thaws(ss[k], p.addr, p.game, n);
    }
  }

  lemma Thaws(s: State, addr: string, game: int, n: nat)
    requires Consistent(s) && OnIce(s, addr, game, n)
    ensures var t := Step(s, Recovered(addr));
            addr !in t.down && game in t.live && t.live[game] == n && t.attempts[n] == 1
  {
    assert game in Frozen(s.down, addr);
    assert Resets(s, Recovered(addr), n);
  }

  // ----- how long a session survives

  /** The event counts against the budget of session n. */
  predicate ChargesTo(s: State, e: Event, n: nat) {
    Charges(s, e) && s.runs[e.run].session == n
  }

  /** How many of the events from i to k count against the budget of session n. */
  ghost function Charged(ss: seq<State>, es: seq<Event>, i: nat, k: nat, n: nat): nat
    requires i <= k <= |es| < |ss|
  {
    if i == k then 0
    else Charged(ss, es, i, k - 1, n) + if ChargesTo(ss[k - 1], es[k - 1], n) then 1 else 0
  }

  /** A failure that counts meets an exhausted budget. */
  predicate Exhausts(s: State, e: Event) {
    && Charges(s, e) && s.runs[e.run].session < |s.attempts|
    && Exhausted(s.attempts[s.runs[e.run].session], s.runs[e.run].failure)
  }

  lemma DropsIs(s: State, e: Event)
    requires Consistent(s) && Enabled(s, e)
    ensures Drops(s, e) <==> Exhausts(s, e)
  {
    if Charges(s, e) {
      var p := s.runs[e.run];
      assert Known(s, e.run);
      BackoffExact(s.attempts[p.session], p.failure, e.interval);
    }
  }

  /** Session n neither succeeds nor recovers nor is dropped. */
  predicate Unbroken(s: State, e: Event, n: nat) {
    e != Succeeded(n) && !Resets(s, e, n) && !(ChargesTo(s, e, n) && Exhausts(s, e))
  }

  /** The event starts session n, or is its success or the recovery of a server it is frozen for. */
  predicate Restarts(s: State, e: Event, n: nat) {
    (e.Started? && n == |s.attempts|) || e == Succeeded(n) || (Resets(s, e, n) && n < |s.attempts|)
  }

  lemma CounterStep(ss: seq<State>, es: seq<Event>, i: nat, n: nat)
    requires Run(ss, es) && i < |es| && n < |ss[i].attempts| && Unbroken(ss[i], es[i], n)
    ensures n < |ss[i + 1].attempts|
    ensures ss[i + 1].attempts[n] == ss[i].attempts[n] + if ChargesTo(ss[i], es[i], n) then 1 else 0
  {
    StepAt(ss, es, i);
    if Charges(ss[i], es[i]) {
      var p := ss[i].runs[es[i].run];
      assert Known(ss[i], es[i].run);
      BackoffExact(ss[i].attempts[p.session], p.failure, es[i].interval);
    }
  }

  lemma {:induction false} CounterGrows(ss: seq<State>, es: seq<Event>, i: nat, k: nat, n: nat)
    requires Run(ss, es) && i <= k <= |es| && n < |ss[i].attempts|
    requires forall x :: i <= x < k ==> Unbroken(ss[x], es[x], n)
    ensures n < |ss[k].attempts| && ss[k].attempts[n] == ss[i].attempts[n] + Charged(ss, es, i, k, n)
    decreases k
  {
    if i < k {
      CounterGrows(ss, es, i, k - 1, n);
      CounterStep(ss, es, k - 1, n);
    }
  }

  /** Without a success or a recovery the counter advances by one with every failure that is
      not frozen, and by nothing else; so a session survives at most 11 of them. */
  lemma SurvivesBounded(ss: seq<State>, es: seq<Event>, i: nat, k: nat, n: nat)
    requires Run(ss, es) && i <= k <= |es| && n < |ss[i].attempts|
    requires forall x :: i <= x < k ==> Unbroken(ss[x], es[x], n)
    ensures n < |ss[k].attempts| && ss[k].attempts[n] == ss[i].attempts[n] + Charged(ss, es, i, k, n)
    ensures Charged(ss, es, i, k, n) <= MAX_NETWORK_RETRIES - 1
  {
    CounterGrows(ss, es, i, k, n);
    AlwaysConsistent(ss, es, i);
    AlwaysConsistent(ss, es, k);
  }

  /** A start, a success or a recovery at i, and then k - i - 1 events that leave the session as it
      is but for failures: the counter is one more than those that counted. */
  lemma CounterExact(ss: seq<State>, es: seq<Event>, i: nat, k: nat, n: nat)
    requires Run(ss, es) && i < k <= |es| && Restarts(ss[i], es[i], n)
    requires forall x :: i < x < k ==> Unbroken(ss[x], es[x], n)
    ensures n < |ss[k].attempts| && ss[k].attempts[n] == 1 + Charged(ss, es, i + 1, k, n)
  {
    StepAt(ss, es, i);
    CounterGrows(ss, es, i + 1, k, n);
  }

  /** The j-th failure in a row that counts, since the session was started, had a success or was
      brought back: the session is dropped if and only if j has reached 12 (network error), 10
      (server error) or 3 (anything else); otherwise it is tried again after exactly the smaller of
      5 * 2^(j - 1) seconds and an hour, half an hour or the update interval.  The game then keeps
      its session, and else loses the one it has. */
  lemma RetriedOrDropped(ss: seq<State>, es: seq<Event>, i: nat, k: nat, n: nat)
    requires Run(ss, es) && i < k < |es| && Restarts(ss[i], es[i], n) && ChargesTo(ss[k], es[k], n)
    requires forall x :: i < x < k ==> Unbroken(ss[x], es[x], n)
    ensures Consistent(ss[k]) && Enabled(ss[k], es[k])
    ensures var p, j := ss[k].runs[es[k].run], Charged(ss, es, i + 1, k + 1, n);
            && 1 <= j <= 12 && n < |ss[k].attempts| && ss[k].attempts[n] == j
            && (Answer(ss[k], es[k]).Dropped? <==>
                  if p.failure.NetworkError? then j >= 12 else if p.failure.ServerError? then j >= 10 else j >= 3)
            && (Answer(ss[k], es[k]).Dropped? ==> ss[k + 1].live == ss[k].live - {p.game})
            && (Answer(ss[k], es[k]).RetryAfter? ==>
                  && BacksOff(Answer(ss[k], es[k]).seconds, j, p.failure, es[k].interval)
                  && ss[k + 1].live == ss[k].live && ss[k + 1].attempts == ss[k].attempts[n := j + 1])
  {
    StepAt(ss, es, k);
    CounterExact(ss, es, i, k, n);
    BackoffExact(ss[k].attempts[n], ss[k].runs[es[k].run].failure, es[k].interval);
  }

  /** A failure of a server that is down, or diagnosed as one, is tried again after a minute and
      changes neither counters nor sessions. */
  lemma FrozenRetry(ss: seq<State>, es: seq<Event>, k: nat)
    requires Run(ss, es) && k < |es| && es[k].Resolved? && !Charges(ss[k], es[k])
    ensures Consistent(ss[k]) && Enabled(ss[k], es[k]) && Answer(ss[k], es[k]) == RetryAfter(60)
    ensures ss[k + 1].live == ss[k].live && ss[k + 1].attempts == ss[k].attempts
  {
    StepAt(ss, es, k);
  }

  /** The event takes the game out of observation: it ended, or a failure that counted met the
      12th, 10th or 3rd attempt. */
  predicate TakesOut(s: State, e: Event, game: int) {
    e == Ended(game) || (Exhausts(s, e) && s.runs[e.run].game == game)
  }

  /** A game under observation leaves it in a run only by one of these events. */
  lemma {:induction false} LostOnlyBy(ss: seq<State>, es: seq<Event>, i: nat, k: nat, game: int) returns (x: nat)
    requires Run(ss, es) && i <= k <= |es| && game in ss[i].live && game !in ss[k].live
    ensures i <= x < k && TakesOut(ss[x], es[x], game)
    decreases k
  {
    StepAt(ss, es, k - 1);
    if game in ss[k - 1].live {
      x := k - 1;
      DropsIs(ss[x], es[x]);
    } else {
      x := LostOnlyBy(ss, es, i, k - 1, game);
    }
  }

  /** So a game is observed at any moment of a run if and only if it was started before and nothing
      has taken it out since. */
  lemma {:induction false} ObservedExactly(ss: seq<State>, es: seq<Event>, k: nat, game: int)
    requires Run(ss, es) && k <= |es|
    ensures game in ss[k].live <==>
              exists i :: 0 <= i < k && es[i] == Started(game)
                && forall x :: i < x < k ==> !TakesOut(ss[x], es[x], game)
  {
    if k > 0 {
      ObservedExactly(ss, es, k - 1, game);
      StepAt(ss, es, k - 1);
      DropsIs(ss[k - 1], es[k - 1]);
      if game in ss[k].live && es[k - 1] != Started(game) {
        var i :| 0 <= i < k - 1 && es[i] == Started(game)
                 && forall x :: i < x < k - 1 ==> !TakesOut(ss[x], es[x], game);
        assert !TakesOut(ss[k - 1], es[k - 1], game);
      }
    }
  }

  // ----- which failures are charged

  predicate Names(e: Event, r: int) {
    (e.Tested? || e.TestedAgain? || e.Resolved?) && e.run == r
  }

  ghost predicate SameRun(s: State, t: State, r: int) {
    (r in s.runs <==> r in t.runs) && (r in s.runs ==> s.runs[r] == t.runs[r])
  }

  /** A run is as the last event about it left it. */
  lemma {:induction false} RunKept(ss: seq<State>, es: seq<Event>, i: nat, k: nat, r: int)
    requires Run(ss, es) && i <= k <= |es| && forall x :: i <= x < k ==> !Names(es[x], r)
    ensures SameRun(ss[i], ss[k], r)
    decreases k
  {
    if i < k {
      RunKept(ss, es, i, k - 1, r);
      StepAt(ss, es, k - 1);
    }
  }

  /** A failure, first tested at i, tested again at j (or not, then j == i) and resolved at k,
      counts against the budget exactly when its server was not down at the first test and the
      failure was not diagnosed as an outage, which only a network error of a server not down
      at the second test can be. */
  lemma ChargedExactly(ss: seq<State>, es: seq<Event>, i: nat, j: nat, k: nat)
    requires Run(ss, es) && i <= j < k < |es| && es[i].Tested? && es[k].Resolved? && es[k].run == es[i].run
    requires forall x :: i < x < k && x != j ==> !Names(es[x], es[i].run)
    requires i < j ==> es[j] == TestedAgain(es[i].run)
    ensures Charges(ss[k], es[k]) <==>
            && !Down(Log(ss, es, i), es[i].addr)
            && !(&& es[i].failure.NetworkError? && es[k].diagnosis.GameServerDown?
                 && !Down(Log(ss, es, j), es[i].addr))
  {
    TestsFound(ss, es, i, j, k);
    StepAt(ss, es, k);
    BroughtBack(ss, es, i, es[i].addr, 0);
    BroughtBack(ss, es, j, es[i].addr, 0);
  }

  /** What the two tests found, when the failure is resolved. */
  lemma TestsFound(ss: seq<State>, es: seq<Event>, i: nat, j: nat, k: nat)
    requires Run(ss, es) && i <= j < k < |es| && es[i].Tested?
    requires forall x :: i < x < k && x != j ==> !Names(es[x], es[i].run)
    requires i < j ==> es[j] == TestedAgain(es[i].run)
    ensures es[i].run in ss[k].runs
    ensures var p := ss[k].runs[es[i].run];
            && p.frozen == (es[i].addr in ss[i].down)
            && (i == j ==> p.diagnosed == None) && (i < j ==> !p.frozen)
            && (i < j ==> p.diagnosed == Some(es[i].failure.NetworkError? && es[i].addr !in ss[j].down))
  {
    var r := es[i].run;
    StepAt(ss, es, i);
    if i < j {
      RunKept(ss, es, i + 1, j, r);
      StepAt(ss, es, j);
    }
    RunKept(ss, es, j + 1, k, r);
  }

  /** So the budget is not safe during an outage: a failure tested just before the circuit
      opens is charged after it has opened. */
  lemma ChargedWhileDown(addr: string, d: Diagnosis, interval: nat) returns (ss: seq<State>, es: seq<Event>)
    ensures Run(ss, es) && Charges(Last(ss), Resolved(2, d, interval)) && addr in Last(ss).down
    ensures Last(ss).runs[2].addr == addr && Enabled(Last(ss), Resolved(2, d, interval))
  {
    ss, es := BothFail(addr);
    ss, es := Then(ss, es, TestedAgain(1));
    ss, es := Then(ss, es, Resolved(1, GameServerDown, interval));
    ss, es := Then(ss, es, TestedAgain(2));
  }

  /** Two games fail on one server. */
  lemma BothFail(addr: string) returns (ss: seq<State>, es: seq<Event>)
    ensures Run(ss, es)
    ensures Last(ss).down == map[]
    ensures Last(ss).runs == map[2 := Failing(2, 1, addr, ServerError, false, None),
                                 1 := Failing(1, 0, addr, NetworkError, false, None)]
  {
    ss, es := [START], [];
    ss, es := Then(ss, es, Started(1));
    ss, es := Then(ss, es, Started(2));
    ss, es := Then(ss, es, Tested(2, 2, 1, addr, ServerError));
    ss, es := Then(ss, es, Tested(1, 1, 0, addr, NetworkError));
  }

  lemma Then(ss: seq<State>, es: seq<Event>, e: Event) returns (ss': seq<State>, es': seq<Event>)
    requires Run(ss, es) && (Consistent(Last(ss)) ==> Enabled(Last(ss), e))
    ensures Consistent(Last(ss)) && es' == es + [e] && ss' == ss + [Step(Last(ss), e)]
    ensures Run(ss', es')
  {
    AlwaysConsistent(ss, es, |es|);
    ss', es' := ss + [Step(Last(ss), e)], es + [e];
    forall i | 0 <= i < |es'| ensures Moves(ss', es', i) {
      if i < |es| {
        assert Moves(ss, es, i);
      }
    }
  }
}
