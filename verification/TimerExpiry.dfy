/** The expiry loop of TimerProc: it terminates, and which callbacks it makes. */
module TimerExpiry {
  import opened Seqs
  import opened TimerModel
  import opened TimerList

  // ---------- how often a timer fires ----------

  /** Moving the deadline one interval on leaves one firing fewer. */
  lemma {:induction false} FiresStep(x: Timer, now: int)
    requires x.deadline < now && x.interval > 0
    ensures Fires(x, now) == 1 + Fires(x.(deadline := x.deadline + x.interval), now)
  {
    var n, i := now - x.deadline, x.interval;
    if n <= i {
      assert (n + i - 1) / i == 1 by { DivideUnique(n + i - 1, i, 1); }
    } else {
      var q := (n - 1) / i;
      assert n - 1 == i * q + (n - 1) % i;
      DivideUnique(n + i - 1, i, q + 1);
      assert (n - i) + i - 1 == n - 1;
    }
  }

  lemma {:induction false} Multiples(b: int, p: int, q: int)
    requires b > 0
    ensures p < q ==> b * p + b <= b * q
    ensures p <= q ==> b * p <= b * q
  {
    if p < q {
      assert b * (p + 1) <= b * q;
      assert b * (p + 1) == b * p + b;
    }
  }

  lemma {:induction false} DivideUnique(a: int, b: int, q: int)
    requires b > 0 && b * q <= a < b * q + b
    ensures a / b == q
  {
    var p := a / b;
    assert a == b * p + a % b;
    Multiples(b, p, q);
    Multiples(b, q, p);
  }

  /** The number of firings is the least after which a repeating timer is no longer before
      now: the number of its deadlines that are. */
  lemma {:induction false} FiresExact(x: Timer, now: int, k: nat)
    requires x.interval > 0
    ensures k < Fires(x, now) <==> x.deadline + k * x.interval < now
  {
    var n, i, f := now - x.deadline, x.interval, Fires(x, now);
    assert k * i == i * k && i * k >= 0;
    if n > 0 {
      assert n + i - 1 == i * f + (n + i - 1) % i;
      Multiples(i, k, f);
      Multiples(i, f, k);
    }
  }

  lemma {:induction false} WorkFrame(m: map<nat, Timer>, n: map<nat, Timer>, q: seq<nat>, now: int)
    requires forall t :: t in q ==> TimerOf(n, t) == TimerOf(m, t)
    ensures Work(m, q, now) == Work(n, q, now)
  {
    if q != [] {
      assert q[0] in q;
      WorkFrame(m, n, q[1..], now);
    }
  }

  lemma {:induction false} WorkInsert(m: map<nat, Timer>, q: seq<nat>, t: nat, now: int)
    ensures Work(m, Insert(m, q, t), now) == Fires(TimerOf(m, t), now) + Work(m, q, now)
  {
    if q != [] && TimerOf(m, t).deadline >= TimerOf(m, q[0]).deadline {
      WorkInsert(m, q[1..], t, now);
      assert ([q[0]] + Insert(m, q[1..], t))[1..] == Insert(m, q[1..], t);
    } else if q != [] {
      assert ([t] + q)[1..] == q;
    }
  }

  /** Each round of the loop leaves one firing fewer to come: the termination measure. */
  lemma {:induction false} FireWork(s: Daemon, now: int)
    requires Inv(s) && Due(s, now)
    ensures Inv(FireS(s)) && Work(FireS(s).timers, FireS(s).list, now) == Work(s.timers, s.list, now) - 1
  {
    hide Inv, FireS, Fires, Insert, NoDup;
    var t := s.list[0];
    var x := TimerOf(s.timers, t);
    var r := FireS(s);
    FireEffect(s);
    HeadBlock(s);
    WorkFrame(s.timers, r.timers, s.list[1..], now);
    if x.interval == 0 {
      FiresOnce(x, now);
    } else {
      WorkInsert(r.timers, s.list[1..], t, now);
      FiresStep(x, now);
    }
  }

  lemma {:induction false} FiresOnce(x: Timer, now: int)
    requires x.deadline < now && x.interval == 0
    ensures Fires(x, now) == 1
  {}

  /** The inner loop of TimerProc, for one reading of the clock and no call from outside. */
  ghost function Expire(s: Daemon, now: int): Daemon
    requires Inv(s)
    decreases Work(s.timers, s.list, now)
  {
    if Due(s, now) then FireWork(s, now); Expire(FireS(s), now) else s
  }

  // ---------- which callbacks are made ----------

  /** The firings of t in a log. */
  function FiringsOf(log: seq<Fire>, t: nat): seq<Fire> {
    if log == [] then []
    else FiringsOf(log[..|log| - 1], t) + (if log[|log| - 1].timer == t then [log[|log| - 1]] else [])
  }

  /** n firings of t, the first at d, an exact interval apart, all delivering p from block b. */
  function Schedule(t: nat, d: int, interval: nat, b: nat, p: Payload, n: nat): (r: seq<Fire>)
    ensures |r| == n
    ensures forall k :: 0 <= k < n ==> r[k] == Fire(t, d + k * interval, b, p)
  {
    if n == 0 then [] else Schedule(t, d, interval, b, p, n - 1) + [Fire(t, d + (n - 1) * interval, b, p)]
  }

  lemma {:induction false} FiringsAppend(log: seq<Fire>, f: Fire, t: nat)
    ensures FiringsOf(log + [f], t) == FiringsOf(log, t) + (if f.timer == t then [f] else [])
  {
    assert (log + [f])[..|log|] == log;
  }

  lemma {:induction false} ScheduleFirst(t: nat, d: int, interval: nat, b: nat, p: Payload, n: nat)
    ensures Schedule(t, d, interval, b, p, n + 1) == [Fire(t, d, b, p)] + Schedule(t, d + interval, interval, b, p, n)
  {
    var q := Schedule(t, d, interval, b, p, n + 1);
    var r := [Fire(t, d, b, p)] + Schedule(t, d + interval, interval, b, p, n);
    forall k | 0 <= k < n + 1 ensures q[k] == r[k] {
      if k > 0 { assert d + k * interval == d + interval + (k - 1) * interval; }
    }
  }

  /** How often listed timer t fires before the loop ends. */
  function Count(s: Daemon, t: nat, now: int): nat {
    if t in s.list then Fires(TimerOf(s.timers, t), now) else 0
  }

  /** What the loop makes of timer t: it fires exactly as often as it has deadlines before
      now, the k-th time at exactly k intervals after the first, with the bytes of its block;
      a one-shot that fired is off the list and has given up its block. */
  ghost predicate Served(s: Daemon, e: Daemon, t: nat, now: int) {
    var x, n := TimerOf(s.timers, t), Count(s, t, now);
    && FiringsOf(e.fired, t)
       == FiringsOf(s.fired, t) + Schedule(t, x.deadline, x.interval, BlockOf(x), Contents(s, BlockOf(x)), n)
    && (if x.interval == 0 && n > 0 then n == 1 && t !in e.list && TimerOf(e.timers, t) == x.(args := None)
        else (t in e.list <==> t in s.list) && TimerOf(e.timers, t) == x.(deadline := x.deadline + n * x.interval))
  }

  lemma {:induction false} ServedHead(s: Daemon, e: Daemon, now: int)
    requires Inv(s) && Due(s, now) && Served(FireS(s), e, s.list[0], now)
    ensures Served(s, e, s.list[0], now)
  {
    hide Inv, FireS, FiringsOf, NoDup, Insert, Fires;
    var t, x, r := s.list[0], TimerOf(s.timers, s.list[0]), FireS(s);
    FireEffect(s);
    HeadBlock(s);
    FiringsAppend(s.fired, r.fired[|s.fired|], t);
    ScheduleFirst(t, x.deadline, x.interval, BlockOf(x), Contents(s, BlockOf(x)), Count(r, t, now));
    if x.interval == 0 {
      FiresOnce(x, now);
    } else {
      InsertMembers(r.timers, s.list[1..], t);
      FiresStep(x, now);
      assert x.deadline + x.interval + Count(r, t, now) * x.interval
          == x.deadline + (1 + Count(r, t, now)) * x.interval;
    }
  }

  lemma {:induction false} ServedOther(s: Daemon, e: Daemon, t: nat, now: int)
    requires Inv(s) && Due(s, now) && t != s.list[0] && Served(FireS(s), e, t, now)
    ensures Served(s, e, t, now)
  {
    hide Inv, FireS, FiringsOf, NoDup, Insert, Fires, Schedule;
    var r := FireS(s);
    FireEffect(s);
    HeadBlock(s);
    InsertMembers(r.timers, s.list[1..], s.list[0]);
    FiringsAppend(s.fired, r.fired[|s.fired|], t);
  }

  lemma {:induction false} ExpireServes(s: Daemon, t: nat, now: int)
    requires Inv(s)
    ensures Served(s, Expire(s, now), t, now)
    decreases Work(s.timers, s.list, now)
  {
    if Due(s, now) {
      hide Inv, FireS, Served;
      FireWork(s, now);
      ExpireServes(FireS(s), t, now);
      if t == s.list[0] { ServedHead(s, Expire(s, now), now); } else { ServedOther(s, Expire(s, now), t, now); }
    } else {
      NotDue(s, t, now);
    }
  }

  /** When the head is not before now, no listed timer is. */
  lemma {:induction false} NotDue(s: Daemon, t: nat, now: int)
    requires Inv(s) && !Due(s, now)
    ensures Count(s, t, now) == 0
    ensures t in s.list ==> TimerOf(s.timers, t).deadline >= now
  {
    if t in s.list {
      var i := Position(s.list, t);
    }
  }

  // ---------- the loop as a whole ----------

  /** The firings of the log from position i on are in order of deadline, none earlier than
      low and all before now. */
  ghost predicate Ordered(log: seq<Fire>, i: nat, low: int, now: int) {
    && (forall j :: i <= j < |log| ==> low <= log[j].deadline < now)
    && (forall j, k :: i <= j < k < |log| ==> log[j].deadline <= log[k].deadline)
  }

  lemma {:induction false} ExpireOrder(s: Daemon, now: int, low: int)
    requires Inv(s) && (s.list != [] ==> low <= TimerOf(s.timers, s.list[0]).deadline)
    ensures var e := Expire(s, now);
      Inv(e) && !Due(e, now) && s.fired <= e.fired && Ordered(e.fired, |s.fired|, low, now)
    decreases Work(s.timers, s.list, now)
  {
    hide Inv, FireS, Insert, NoDup;
    if Due(s, now) {
      hide Ordered, Work;
      FireWork(s, now);
      FireEffect(s);
      NextHead(s);
      ExpireOrder(FireS(s), now, TimerOf(s.timers, s.list[0]).deadline);
      OrderedFirst(Expire(s, now).fired, |s.fired|, low, TimerOf(s.timers, s.list[0]).deadline, now);
    }
  }

  lemma {:induction false} OrderedFirst(log: seq<Fire>, i: nat, low: int, d: int, now: int)
    requires i < |log| && low <= log[i].deadline == d < now && Ordered(log, i + 1, d, now)
    ensures Ordered(log, i, low, now)
  {}

  /** After a round the new head is due no earlier than the old one was. */
  lemma {:induction false} NextHead(s: Daemon)
    requires Inv(s) && s.list != []
    ensures var r := FireS(s);
      r.list != [] ==> TimerOf(s.timers, s.list[0]).deadline <= TimerOf(r.timers, r.list[0]).deadline
  {
    hide FireS, OwnersOk, BlocksOk;
    var r := FireS(s);
    FireEffect(s);
    HeadBlock(s);
    InsertMembers(r.timers, s.list[1..], s.list[0]);
    if r.list != [] && r.list[0] != s.list[0] {
      assert r.list[0] in r.list && r.list[0] in s.list[1..];
      var i := Position(s.list, r.list[0]);
    }
  }

  /** The expiry loop ends, whatever the list and the clock. It makes its callbacks in order
      of deadline and serves every timer exactly; afterwards no listed timer is before now. */
  lemma {:induction false} ExpiryLoop(s: Daemon, now: int)
    requires Inv(s)
    ensures var e := Expire(s, now);
      && Inv(e) && s.fired <= e.fired
      && (forall j :: |s.fired| <= j < |e.fired| ==> e.fired[j].deadline < now)
      && (forall j, k :: |s.fired| <= j < k < |e.fired| ==> e.fired[j].deadline <= e.fired[k].deadline)
      && (forall t: nat :: Served(s, e, t, now))
      && (forall t :: t in e.list ==> TimerOf(e.timers, t).deadline >= now)
  {
    hide Served;
    ExpireOrder(s, now, if s.list == [] then 0 else TimerOf(s.timers, s.list[0]).deadline);
    forall t: nat ensures Served(s, Expire(s, now), t, now) { ExpireServes(s, t, now); }
    forall t | t in Expire(s, now).list ensures TimerOf(Expire(s, now).timers, t).deadline >= now {
      NotDue(Expire(s, now), t, now);
    }
  }
}
