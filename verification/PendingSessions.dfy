/** The two queues of sessions waiting to start, and the capacity they are started under. */
module PendingSessions {
  import opened Values
  import opened Sorting

  datatype Pending = Pending(game: int, scenario: int)

  datatype Start = Start(game: int, scenario: int, priority: bool)

  function Games(q: seq<Pending>): (r: seq<int>)
    ensures |r| == |q| && forall i :: 0 <= i < |q| ==> r[i] == q[i].game
  {
    seq(|q|, i requires 0 <= i < |q| => q[i].game)
  }

  /** The set holds exactly the games queued, and none is queued twice. */
  ghost predicate Mirrors(ids: set<int>, q: seq<Pending>) {
    && (forall g :: g in ids <==> g in Games(q))
    && (forall i, j :: 0 <= i < j < |q| ==> q[i].game != q[j].game)
  }

  /** The queue without one game, the others in their order. */
  ghost function Without(q: seq<Pending>, game: int): seq<Pending> {
    if q == [] then []
    else if Last(q).game == game then Without(Init(q), game)
    else Without(Init(q), game) + [Last(q)]
  }

  lemma {:induction false} WithoutMember(q: seq<Pending>, game: int, p: Pending)
    ensures p in Without(q, game) <==> p in q && p.game != game
  {
    if q != [] {
      WithoutMember(Init(q), game, p);
      assert q == Init(q) + [Last(q)];
    }
  }

  lemma {:induction false} WithoutDistinct(q: seq<Pending>, game: int)
    requires forall i, j :: 0 <= i < j < |q| ==> q[i].game != q[j].game
    ensures var r := Without(q, game); forall i, j :: 0 <= i < j < |r| ==> r[i].game != r[j].game
  {
    if q != [] {
      WithoutDistinct(Init(q), game);
      var r := Without(Init(q), game);
      forall i | 0 <= i < |r| ensures r[i].game != Last(q).game {
        WithoutMember(Init(q), game, r[i]);
        assert r[i] in r;
      }
    }
  }

  lemma MirrorsWithout(ids: set<int>, q: seq<Pending>, game: int)
    requires Mirrors(ids, q)
    ensures Mirrors(ids - {game}, Without(q, game))
  {
    WithoutDistinct(q, game);
    var r := Without(q, game);
    forall g ensures g in ids - {game} <==> g in Games(r) {
      if g in Games(r) {
        var i :| 0 <= i < |r| && Games(r)[i] == g;
        WithoutMember(q, game, r[i]);
        assert r[i] in r;
        var j :| 0 <= j < |q| && q[j] == r[i];
        assert Games(q)[j] == g;
      }
      if g in ids && g != game {
        var j :| 0 <= j < |q| && Games(q)[j] == g;
        WithoutMember(q, game, q[j]);
        assert q[j] in r;
        var i :| 0 <= i < |r| && r[i] == q[j];
        assert Games(r)[i] == g;
      }
    }
  }

  lemma MirrorsAdd(ids: set<int>, q: seq<Pending>, p: Pending)
    requires Mirrors(ids, q) && p.game !in ids
    ensures Mirrors(ids + {p.game}, q + [p])
  {
    assert Games(q + [p]) == Games(q) + [p.game];
    forall i | 0 <= i < |q| ensures q[i].game != p.game {
      assert Games(q)[i] in Games(q);
    }
  }

  lemma MirrorsPop(ids: set<int>, q: seq<Pending>)
    requires Mirrors(ids, q) && q != []
    ensures Mirrors(ids - {q[0].game}, q[1..]) && q[0].game in ids
  {
    assert Games(q) == [q[0].game] + Games(q[1..]);
    assert Games(q)[0] in Games(q);
    forall i | 0 <= i < |q[1..]| ensures q[1..][i].game != q[0].game {
      assert q[1..][i] == q[i + 1];
    }
  }

  function Starts(q: seq<Pending>, priority: bool): (r: seq<Start>)
    ensures |r| == |q| && forall i :: 0 <= i < |q| ==> r[i] == Start(q[i].game, q[i].scenario, priority)
  {
    seq(|q|, i requires 0 <= i < |q| => Start(q[i].game, q[i].scenario, priority))
  }

  function Least(a: nat, b: nat): nat {
    if a < b then a else b
  }

  class Sessions {
    var priority: seq<Pending>
    var normal: seq<Pending>
    var queuedPriority: set<int>
    var queuedNormal: set<int>

    /** Each set mirrors its queue, and no game is in both. */
    ghost predicate Valid()
      reads this
    {
      && Mirrors(queuedPriority, priority) && Mirrors(queuedNormal, normal)
      && queuedPriority !! queuedNormal
    }

    constructor ()
      ensures Valid() && priority == [] && normal == []
    {
      priority, normal, queuedPriority, queuedNormal := [], [], {}, {};
    }

    /** `queue_new_session`: a queued game stays where it is, except that a normal one is
        promoted when it comes back as a priority one; the others keep their order. */
    method QueueNewSession(game: int, scenario: int, isPriority: bool)
      requires Valid()
      modifies this
      ensures Valid()
      ensures priority ==
                if isPriority && game !in old(queuedPriority) then old(priority) + [Pending(game, scenario)]
                else old(priority)
      ensures normal ==
                if isPriority then (if game in old(queuedPriority) then old(normal) else Without(old(normal), game))
                        else if game in old(queuedPriority) || game in old(queuedNormal) then old(normal)
                        else old(normal) + [Pending(game, scenario)]
    {
      if isPriority {
        if game in queuedPriority {
          return;
        }
        if game in queuedNormal {
          MirrorsWithout(queuedNormal, normal, game);
          queuedNormal := queuedNormal - {game};
          normal := RemoveGame(normal, game);
        } else {
          WithoutAbsent(queuedNormal, normal, game);
        }
        MirrorsAdd(queuedPriority, priority, Pending(game, scenario));
        priority := priority + [Pending(game, scenario)];
        queuedPriority := queuedPriority + {game};
      } else {
        if game in queuedPriority || game in queuedNormal {
          return;
        }
        MirrorsAdd(queuedNormal, normal, Pending(game, scenario));
        normal := normal + [Pending(game, scenario)];
        queuedNormal := queuedNormal + {game};
      }
    }

    /** `get_pending_new_sessions_with_limits`: priority sessions first, each queue from its
        front, within both limits, and as many as these allow. */
    method GetPending(maxTotal: nat, maxNormal: nat) returns (out: seq<Start>, ghost p: nat, ghost n: nat)
      requires Valid()
      modifies this
      ensures Valid()
      ensures p == Least(maxTotal, |old(priority)|) && n == Least(Least(maxTotal - p, maxNormal), |old(normal)|)
      ensures out == Starts(old(priority)[..p], true) + Starts(old(normal)[..n], false)
      ensures priority == old(priority)[p..] && normal == old(normal)[n..]
    {
      out, p, n := [], 0, 0;
      if maxTotal == 0 {
        return;
      }
      out, p := DrainPriority(maxTotal);
      if |out| >= maxTotal || maxNormal == 0 {
        return;
      }
      var more;
      more, n := DrainNormal(maxTotal - |out|, maxNormal);
      out := out + more;
    }

    /** The first loop: priority sessions up to the total. */
    method DrainPriority(limit: nat) returns (out: seq<Start>, ghost p: nat)
      requires Valid()
      modifies `priority, `queuedPriority
      ensures Valid() && p == Least(limit, |old(priority)|)
      ensures out == Starts(old(priority)[..p], true) && priority == old(priority)[p..]
    {
      out, p := [], 0;
      while |out| < limit && priority != []
        invariant Valid() && p <= |old(priority)| && p <= limit
        invariant priority == old(priority)[p..] && out == Starts(old(priority)[..p], true)
        decreases |priority|
      {
        MirrorsPop(queuedPriority, priority);
        StartsNext(old(priority), p, true);
        var item := priority[0];
        priority := priority[1..];
        queuedPriority := queuedPriority - {item.game};
        out := out + [Start(item.game, item.scenario, true)];
        p := p + 1;
      }
    }

    /** The second loop: normal sessions within what is left of both limits. */
    method DrainNormal(left: nat, maxNormal: nat) returns (out: seq<Start>, ghost n: nat)
      requires Valid()
      modifies `normal, `queuedNormal
      ensures Valid() && n == Least(Least(left, maxNormal), |old(normal)|)
      ensures out == Starts(old(normal)[..n], false) && normal == old(normal)[n..]
    {
      out, n := [], 0;
      var started := 0;
      while |out| < left && started < maxNormal && normal != []
        invariant Valid() && n == started <= |old(normal)| && n <= maxNormal && n <= left
        invariant normal == old(normal)[n..] && out == Starts(old(normal)[..n], false)
        decreases |normal|
      {
        MirrorsPop(queuedNormal, normal);
        StartsNext(old(normal), n, false);
        var item := normal[0];
        normal := normal[1..];
        queuedNormal := queuedNormal - {item.game};
        out := out + [Start(item.game, item.scenario, false)];
        started, n := started + 1, n + 1;
      }
    }
  }

  lemma StartsNext(q: seq<Pending>, i: nat, priority: bool)
    requires i < |q|
    ensures Starts(q[..i + 1], priority) == Starts(q[..i], priority) + [Start(q[i].game, q[i].scenario, priority)]
    ensures q[i..][0] == q[i] && q[i..][1..] == q[i + 1..]
  {
  }

  lemma {:induction false} WithoutSame(q: seq<Pending>, game: int)
    requires forall i :: 0 <= i < |q| ==> q[i].game != game
    ensures Without(q, game) == q
  {
    if q != [] {
      assert q == Init(q) + [Last(q)];
      WithoutSame(Init(q), game);
    }
  }

  lemma WithoutAbsent(ids: set<int>, q: seq<Pending>, game: int)
    requires Mirrors(ids, q) && game !in ids
    ensures Without(q, game) == q
  {
    forall i | 0 <= i < |q| ensures q[i].game != game {
      assert Games(q)[i] in Games(q);
    }
    WithoutSame(q, game);
  }

  /** The rebuild loop of a promotion. */
  method RemoveGame(q: seq<Pending>, game: int) returns (r: seq<Pending>)
    ensures r == Without(q, game)
  {
    r := [];
    for i := 0 to |q|
      invariant r == Without(q[..i], game)
    {
      assert Init(q[..i + 1]) == q[..i];
      if q[i].game != game {
        r := r + [q[i]];
      }
    }
    assert q[..|q|] == q;
  }

  // ----- starting sessions within capacity

  function Normals(out: seq<Start>): nat {
    if out == [] then 0 else (if out[0].priority then 0 else 1) + Normals(out[1..])
  }

  lemma {:induction false} NormalsOf(p: seq<Pending>, n: seq<Pending>)
    ensures Normals(Starts(p, true) + Starts(n, false)) == |n|
  {
    var out := Starts(p, true) + Starts(n, false);
    if p != [] {
      assert out[1..] == Starts(p[1..], true) + Starts(n, false);
      NormalsOf(p[1..], n);
    } else if n != [] {
      assert out[1..] == Starts([], true) + Starts(n[1..], false);
      NormalsOf([], n[1..]);
    }
  }

  /** The active sessions and the priority ones among them. */
  datatype Live = Live(active: set<int>, priority: set<int>)

  function Ended(l: Live, games: set<int>): Live {
    Live(l.active - games, l.priority - games)
  }

  function Begun(l: Live, s: Start): Live {
    Live(l.active + {s.game}, l.priority + if s.priority then {s.game} else {})
  }

  /** The sessions after the first n starts: each is preceded by the sessions that end in
      between, and happens if it is accepted. */
  ghost function Started(l: Live, out: seq<Start>, accepted: seq<bool>, ended: seq<set<int>>, n: nat): Live
    requires n <= |out|
  {
    if n == 0 then l
    else Next(Started(l, out, accepted, ended, n - 1), out[n - 1], Gone(ended, n - 1), Accepted(accepted, n - 1))
  }

  function Next(l: Live, s: Start, gone: set<int>, accept: bool): Live {
    if accept then Begun(Ended(l, gone), s) else Ended(l, gone)
  }

  function Gone(ended: seq<set<int>>, i: nat): set<int> {
    if i < |ended| then ended[i] else {}
  }

  predicate Accepted(accepted: seq<bool>, i: nat) {
    i < |accepted| && accepted[i]
  }

  /** The game's session ends before one of the starts i to n - 1. */
  ghost predicate EndsIn(ended: seq<set<int>>, game: int, i: nat, n: nat) {
    exists j :: i <= j < n && j < |ended| && game in ended[j]
  }

  /** One of the first n starts is the game's, is accepted, and its session does not end. */
  ghost predicate StartedIn(out: seq<Start>, accepted: seq<bool>, ended: seq<set<int>>, game: int, n: nat)
    requires n <= |out|
  {
    exists i :: 0 <= i < n && Accepted(accepted, i) && out[i].game == game && !EndsIn(ended, game, i + 1, n)
  }

  /** A game has a session after the starts if and only if it had one that did not end, or was
      handed out, accepted, and did not end since. */
  lemma {:induction false} StartedExactly(l: Live, out: seq<Start>, accepted: seq<bool>, ended: seq<set<int>>, n: nat,
                                          game: int)
    requires n <= |out|
    ensures game in Started(l, out, accepted, ended, n).active <==>
              (game in l.active && !EndsIn(ended, game, 0, n)) || StartedIn(out, accepted, ended, game, n)
  {
    if n > 0 {
      StartedExactly(l, out, accepted, ended, n - 1, game);
      var gone := n - 1 < |ended| && game in ended[n - 1];
      forall i: nat | i < n ensures EndsIn(ended, game, i, n) <==> EndsIn(ended, game, i, n - 1) || gone {}
      assert !EndsIn(ended, game, n, n);
      if StartedIn(out, accepted, ended, game, n - 1) && !gone {
        var i :| 0 <= i < n - 1 && i < |accepted| && accepted[i] && out[i].game == game
                 && !EndsIn(ended, game, i + 1, n - 1);
        assert !EndsIn(ended, game, i + 1, n);
      }
      if n - 1 < |accepted| && accepted[n - 1] && out[n - 1].game == game {
        assert !EndsIn(ended, game, n - 1 + 1, n);
      }
    }
  }

  class Observer {
    var maxTotal: int
    var maxNormal: int
    const pending: Sessions
    var active: set<int>
    var priority: set<int>

    ghost predicate Valid()
      reads this, pending
    {
      pending.Valid() && priority <= active
    }

    /** Neither the active sessions nor the normal ones among them exceed their maximum. */
    ghost predicate InLimits()
      reads this
    {
      |active| <= maxTotal && |active - priority| <= maxNormal
    }

    constructor (maxTotal: nat, maxNormal: nat)
      ensures Valid() && InLimits() && fresh(pending) && active == {}
      ensures this.maxTotal == maxTotal && this.maxNormal == maxNormal
    {
      this.maxTotal, this.maxNormal := maxTotal, maxNormal;
      pending := new Sessions();
      active, priority := {}, {};
    }

    /** The maxima can be set at any time; what is active stays. */
    method SetMaxima(total: int, normal: int)
      requires Valid()
      modifies `maxTotal, `maxNormal
      ensures Valid() && maxTotal == total && maxNormal == normal
    {
      maxTotal, maxNormal := total, normal;
    }

    /** A session ends or is dropped. */
    method End(games: set<int>)
      requires priority <= active
      modifies `active, `priority
      ensures Live(active, priority) == Ended(Live(old(active), old(priority)), games) && priority <= active
      ensures |active| <= |old(active)| && |active - priority| <= |old(active - priority)|
    {
      SubsetSize(active - games, active);
      SubsetSize((active - games) - (priority - games), active - priority);
      active := active - games;
      priority := priority - games;
    }

    /** A session starts. */
    method Begin(s: Start)
      requires priority <= active
      modifies `active, `priority
      ensures Live(active, priority) == Begun(Live(old(active), old(priority)), s) && priority <= active
      ensures |active| <= |old(active)| + 1
      ensures |active - priority| <= |old(active - priority)| + (if s.priority then 0 else 1)
    {
      var a, p := active + {s.game}, priority + (if s.priority then {s.game} else {});
      if s.priority {
        SubsetSize(a - p, active - priority);
      } else {
        SubsetSize(a - p, (active - priority) + {s.game});
      }
      active, priority := a, p;
    }

    /** One round of the run loop: as many sessions as the queues hold and both maxima leave room
        for, priority ones first, are handed out and started where an account is free; sessions
        may end in between.  No maximum is exceeded that was not before. */
    method RunRound(accepted: seq<bool>, ended: seq<set<int>>) returns (out: seq<Start>, ghost p: nat, ghost n: nat)
      requires Valid()
      modifies pending, `active, `priority
      ensures Valid() && (old(InLimits()) ==> InLimits())
      ensures p == Least(Room(maxTotal, |old(active)|), |old(pending.priority)|)
      ensures n == Least(Least(Room(maxTotal, |old(active)| + p), Room(maxNormal, |old(active - priority)|)),
                         |old(pending.normal)|)
      ensures out == Starts(old(pending.priority)[..p], true) + Starts(old(pending.normal)[..n], false)
      ensures pending.priority == old(pending.priority)[p..] && pending.normal == old(pending.normal)[n..]
      ensures Live(active, priority) == Started(Live(old(active), old(priority)), out, accepted, ended, |out|)
      ensures forall g :: g in active <==>
                (g in old(active) && !EndsIn(ended, g, 0, |out|)) || StartedIn(out, accepted, ended, g, |out|)
    {
      var totalLeft := Room(maxTotal, |active|);
      Difference(active, priority);
      var normalLeft := Room(maxNormal, |active| - |priority|);
      out, p, n := pending.GetPending(totalLeft, normalLeft);
      NormalsOf(old(pending.priority)[..p], old(pending.normal)[..n]);
      StartAll(out, accepted, ended);
      forall g ensures g in active <==>
          (g in old(active) && !EndsIn(ended, g, 0, |out|)) || StartedIn(out, accepted, ended, g, |out|) {
        StartedExactly(Live(old(active), old(priority)), out, accepted, ended, |out|, g);
      }
    }

    /** Start what was handed out, one after the other. */
    method StartAll(out: seq<Start>, accepted: seq<bool>, ended: seq<set<int>>)
      requires priority <= active
      modifies `active, `priority
      ensures priority <= active
      ensures |active| <= |old(active)| + |out| && |active - priority| <= |old(active - priority)| + Normals(out)
      ensures Live(active, priority) == Started(Live(old(active), old(priority)), out, accepted, ended, |out|)
    {
      assert out[0..] == out;
      for i := 0 to |out|
        invariant priority <= active
        invariant |active| <= |old(active)| + i
        invariant |active - priority| + Normals(out[i..]) <= |old(active - priority)| + Normals(out)
        invariant Live(active, priority) == Started(Live(old(active), old(priority)), out, accepted, ended, i)
      {
        assert out[i..][0] == out[i] && out[i..][1..] == out[i + 1..];
        StartNext(out[i], Gone(ended, i), Accepted(accepted, i));
      }
    }

    /** The sessions that end meanwhile, and one start. */
    method StartNext(s: Start, gone: set<int>, accept: bool)
      requires priority <= active
      modifies `active, `priority
      ensures priority <= active
      ensures |active| <= |old(active)| + 1
      ensures |active - priority| <= |old(active - priority)| + (if s.priority then 0 else 1)
      ensures Live(active, priority) == Next(Live(old(active), old(priority)), s, gone, accept)
    {
      End(gone);
      if accept {
        Begin(s);
      }
    }
  }

  /** What a maximum leaves over, at least 0. */
  function Room(max: int, used: nat): (r: nat)
    ensures r == 0 <==> used >= max
    ensures used <= max ==> used + r == max
  {
    if used < max then max - used else 0
  }

  lemma Difference(a: set<int>, b: set<int>)
    requires b <= a
    ensures |a - b| == |a| - |b|
  {
    assert a == b + (a - b);
  }
}
