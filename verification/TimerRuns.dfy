/** Whole runs of the timer daemon: what follows a successful u_timer_start, and what becomes
    of the argument blocks. */
module TimerRuns {
  import opened Seqs
  import opened TimerModel
  import opened TimerList
  import opened TimerExpiry

  /** The step is an API call on timer t. */
  predicate Names(st: Step, t: nat) {
    match st
    case Create(u) => u == t
    case Start(u, _, _, _, _) => u == t
    case Stop(u, _) => u == t
    case Delete(u) => u == t
    case Begin(_) => false
    case Call => false
  }

  /** The step takes t off the front of the list. */
  predicate Expires(s: Daemon, st: Step, t: nat) {
    s.status == Up && st.Begin? && Due(s, st.now) && s.list[0] == t
  }

  /** The step calls back for t. */
  predicate Calls(s: Daemon, st: Step, t: nat) {
    s.status == Up && st.Call? && Awaits(s, t)
  }

  function PendingFor(s: Daemon, t: nat): Option<Pending> {
    if Awaits(s, t) then s.pending else None
  }

  /** r is s as far as timer t can tell. */
  ghost predicate SameFor(s: Daemon, r: Daemon, t: nat) {
    && TimerOf(r.timers, t) == TimerOf(s.timers, t) && (t in r.list <==> t in s.list)
    && FiringsOf(r.fired, t) == FiringsOf(s.fired, t) && PendingFor(r, t) == PendingFor(s, t)
    && s.blocks <= r.blocks && s.frees <= r.frees
  }

  /** A step that neither names t nor is a half of a round for it does not affect it. */
  lemma {:induction false} OtherStep(s: Daemon, st: Step, t: nat)
    requires Inv(s) && Allowed(s, st) && !Names(st, t) && !Expires(s, st, t) && !Calls(s, st, t)
    ensures SameFor(s, Take(s, st), t)
  {
    if s.status == Up {
      hide Inv, StartS, StopS, DeleteS, BeginS, CallS;
      match st
      case Create(_) =>
      case Start(u, now, delay, flag, p) => OtherStart(s, u, now, delay, flag, p, t);
      case Stop(u, now) => OtherStop(s, u, now, t);
      case Delete(u) => OtherStop(s, u, 0, t);
      case Begin(now) => if Due(s, now) { OtherBegin(s, t); }
      case Call => OtherCall(s, t);
    }
  }

  lemma {:induction false} OtherStart(s: Daemon, u: nat, now: int, delay: nat, flag: nat, p: Payload, t: nat)
    requires Inv(s) && u in s.timers && u != t
    ensures SameFor(s, StartS(s, u, now, delay, flag, p).1, t)
  {
    hide Inv, Insert, FiringsOf, Without;
    var s0 := s.(blocks := s.blocks + [p], live := s.live + {|s.blocks|});
    NewBlock(s, p);
    if StartS(s, u, now, delay, flag, p).0 == OK {
      if u in s.list { RemoveInv(s0, u); WithoutMembers(s.list, {u}); }
      var s1 := if u in s.list then RemoveS(s0, u) else s0;
      var x := Armed(now, delay, flag, |s.blocks|);
      InsertMembers(s1.timers[u := x], s1.list, u);
    }
  }

  lemma {:induction false} OtherStop(s: Daemon, u: nat, now: int, t: nat)
    requires Inv(s) && u in s.timers && u != t
    ensures SameFor(s, StopS(s, u, now), t) && SameFor(s, DeleteS(s, u), t)
  {
    hide Inv, FiringsOf, Without;
    if u in s.list {
      RemoveInv(s, u);
      WithoutMembers(s.list, {u});
    }
  }

  lemma {:induction false} OtherBegin(s: Daemon, t: nat)
    requires Inv(s) && s.list != [] && t != s.list[0] && s.pending.None?
    ensures SameFor(s, BeginS(s), t)
  {
    hide Inv, Insert, FiringsOf, BeginS;
    BeginEffect(s);
    HeadBlock(s);
    InsertMembers(BeginS(s).timers, s.list[1..], s.list[0]);
  }

  lemma {:induction false} OtherCall(s: Daemon, t: nat)
    requires Inv(s) && s.pending.Some? && !Awaits(s, t)
    ensures SameFor(s, CallS(s), t)
  {
    hide Inv, FiringsOf, CallS;
    CallInv(s);
    var r := CallS(s);
    if r.fired != s.fired { FiringsAppend(s.fired, r.fired[|s.fired|], t); }
  }

  /** The copy a one-shot leaves for its callback. */
  function CopyOf(x: Timer, p: Payload): Option<Payload> {
    if x.interval == 0 then Some(p) else None
  }

  /** The callbacks made for t by the time it has expired n times: one fewer if the last is
      still to come. */
  function Made(s: Daemon, t: nat, n: nat): int {
    if Awaits(s, t) then n - 1 else n
  }

  /** Since s0, in which t was listed with x, it expired n times on schedule, and each time but
      perhaps the last, for which the callback is still to come, delivered the contents of its
      block. A one-shot that expired is off the list and its block is freed; otherwise t is
      listed, at the next deadline, and its block is live. */
  ghost predicate OnSchedule(s0: Daemon, s: Daemon, t: nat, x: Timer, n: nat) {
    && x.args.Some? && x.args.value < |s0.blocks| && s0.blocks <= s.blocks && x.callback
    && var b, p := x.args.value, s0.blocks[x.args.value];
    && Made(s, t, n) >= 0
    && FiringsOf(s.fired, t) == FiringsOf(s0.fired, t) + Schedule(t, x.deadline, x.interval, b, p, Made(s, t, n))
    && (Awaits(s, t) ==> s.pending == Some(Pending(t, x.deadline + (n - 1) * x.interval, b, CopyOf(x, p), false)))
    && if x.interval == 0 && n > 0
       then n == 1 && t !in s.list && TimerOf(s.timers, t) == x.(args := None) && b in s.frees
       else t in s.list && TimerOf(s.timers, t) == x.(deadline := x.deadline + n * x.interval)
  }

  lemma {:induction false} ScheduledBegin(s0: Daemon, s: Daemon, t: nat, x: Timer, n: nat)
    requires Inv(s) && OnSchedule(s0, s, t, x, n) && s.list != [] && s.list[0] == t && s.pending.None?
    ensures OnSchedule(s0, BeginS(s), t, x, n + 1)
  {
    hide Inv, Insert, FiringsOf, BeginS, Schedule;
    BeginEffect(s);
    HeadBlock(s);
    InsertMembers(BeginS(s).timers, s.list[1..], t);
    assert (n + 1) * x.interval == n * x.interval + x.interval;
  }

  lemma {:induction false} ScheduledCall(s0: Daemon, s: Daemon, t: nat, x: Timer, n: nat)
    requires Inv(s) && OnSchedule(s0, s, t, x, n) && Awaits(s, t)
    ensures OnSchedule(s0, CallS(s), t, x, n) && CallS(s).status == s.status
  {
    hide Inv, FiringsOf, CallS;
    var r := CallS(s);
    CallInv(s);
    var b, p := x.args.value, s0.blocks[x.args.value];
    var f := Fire(t, x.deadline + (n - 1) * x.interval, b, p);
    FiringsAppend(s.fired, f, t);
    assert Schedule(t, x.deadline, x.interval, b, p, n) == Schedule(t, x.deadline, x.interval, b, p, n - 1) + [f];
  }

  lemma {:induction false} ScheduledRun(s0: Daemon, s: Daemon, t: nat, x: Timer, n: nat, steps: seq<Step>)
    returns (k: nat)
    requires Inv(s) && OnSchedule(s0, s, t, x, n)
    requires RunAllowed(s, steps) && forall i :: 0 <= i < |steps| ==> !Names(steps[i], t)
    ensures Inv(Run(s, steps)) && OnSchedule(s0, Run(s, steps), t, x, k)
    decreases steps
  {
    k := n;
    if steps != [] {
      hide Inv, OnSchedule;
      TakeInv(s, steps[0]);
      if Expires(s, steps[0], t) {
        ScheduledBegin(s0, s, t, x, n);
        k := n + 1;
      } else if Calls(s, steps[0], t) {
        ScheduledCall(s0, s, t, x, n);
      } else {
        OtherStep(s, steps[0], t);
        ScheduleSame(s0, s, Take(s, steps[0]), t, x, n);
      }
      k := ScheduledRun(s0, Take(s, steps[0]), t, x, k, steps[1..]);
    }
  }

  lemma {:induction false} ScheduleSame(s0: Daemon, s: Daemon, r: Daemon, t: nat, x: Timer, n: nat)
    requires OnSchedule(s0, s, t, x, n) && SameFor(s, r, t)
    ensures OnSchedule(s0, r, t, x, n)
  {
    hide Schedule, FiringsOf;
    assert forall b :: b in s.frees ==> b in r.frees;
  }

  /** What a successful u_timer_start leaves: a listed timer, due after the delay, that holds
      a fresh block with the given bytes. It has made no callback. */
  lemma {:induction false} StartEffect(s: Daemon, t: nat, now: int, delay: nat, flag: nat, p: Payload)
    requires Inv(s) && t in s.timers
    ensures var (c, r) := StartS(s, t, now, delay, flag, p);
      && (c == OK <==> delay > 0 && (flag == 1 || flag == 2))
      && r.blocks == s.blocks + [p] && |s.blocks| in r.live
      && r.fired == s.fired && r.pending == s.pending && r.status == s.status
      && (c == OK ==>
            && t in r.list && TimerOf(r.timers, t)
               == Timer(now + delay * 1_000_000, if flag == 1 then 0 else delay * 1_000_000, Some(|s.blocks|), true))
      && (c != OK ==> r.timers == s.timers && r.list == s.list && r.frees == s.frees)
      && OthersSame(s, r, t)
  {
    hide Inv, Insert, Without;
    var s0 := s.(blocks := s.blocks + [p], live := s.live + {|s.blocks|});
    NewBlock(s, p);
    if StartS(s, t, now, delay, flag, p).0 == OK {
      if t in s.list { RemoveInv(s0, t); }
      var s1 := if t in s.list then RemoveS(s0, t) else s0;
      var x := Armed(now, delay, flag, |s.blocks|);
      WithoutTwice(s.list, {t}, {t});
      InsertMembers(s1.timers[t := x], s1.list, t);
      RemoveUndoesAdd(s1.timers[t := x], s1.list, t);
      if t !in s.list { WithoutNothing(s.list, {t}); }
    }
  }

  /** No timer but t was touched, and the others are listed in the same order. */
  ghost predicate OthersSame(s: Daemon, r: Daemon, t: nat) {
    && Without(r.list, {t}) == Without(s.list, {t})
    && forall u :: u != t ==> (u in r.timers <==> u in s.timers) && TimerOf(r.timers, u) == TimerOf(s.timers, u)
  }

  /** Stopping or deleting a timer takes it off the list, and nothing else; of a timer that is
      not listed stopping changes nothing. A stopped timer keeps its interval and may be started
      again; a deleted one is gone, and a callback still due for it will read it. */
  lemma {:induction false} StopEffect(s: Daemon, t: nat, now: int)
    requires Inv(s) && t in s.timers
    ensures var r, d, x := StopS(s, t, now), DeleteS(s, t), TimerOf(s.timers, t);
      && r.list == Without(s.list, {t}) && d.list == r.list
      && OthersSame(s, r, t) && OthersSame(s, d, t)
      && (t !in s.list ==> r == s)
      && (t in s.list ==>
            && t in r.timers && TimerOf(r.timers, t)
               == x.(deadline := x.deadline - now, args := if x.interval == 0 then None else x.args))
      && t !in d.timers && r.pending == s.pending && r.fired == d.fired == s.fired && r.status == d.status == s.status
      && d.pending == (if s.pending.Some? && s.pending.value.timer == t
                       then Some(s.pending.value.(gone := true)) else s.pending)
  {
    hide Inv, Without;
    WithoutTwice(s.list, {t}, {t});
    assert {t} + {t} == {t};
    if t !in s.list { WithoutNothing(s.list, {t}); }
  }

  /** After a successful start of t at time `now`, made while no callback for t is due, and
      until the next call that names t, the run of the daemon, other calls falling anywhere
      between the halves of its rounds, calls back for t only with the bytes given to that
      start, the k-th time for the deadline now + k * delay exactly: a repeating timer does not
      drift, and its block stays live. A one-shot expires at most once, and its block is freed
      exactly when it has. n counts the expiries; the callback of the last may be to come. */
  lemma {:induction false} DeliversLatestStart(s: Daemon, t: nat, now: int, delay: nat, flag: nat,
                                               p: Payload, steps: seq<Step>)
    returns (n: nat)
    requires Inv(s) && t in s.timers && !Awaits(s, t) && StartS(s, t, now, delay, flag, p).0 == OK
    requires var s0 := StartS(s, t, now, delay, flag, p).1;
      RunAllowed(s0, steps) && forall i :: 0 <= i < |steps| ==> !Names(steps[i], t)
    ensures var e, b, d := Run(StartS(s, t, now, delay, flag, p).1, steps), |s.blocks|, delay * MILLISECOND;
      && n >= (if Awaits(e, t) then 1 else 0)
      && FiringsOf(e.fired, t)
         == FiringsOf(s.fired, t)
            + Schedule(t, now + d, if flag == ONCE then 0 else d, b, p, if Awaits(e, t) then n - 1 else n)
      && (flag == REPEAT ==>
            && t in e.list && TimerOf(e.timers, t).deadline == now + (n + 1) * d
            && b in e.live && b !in e.frees)
      && (flag == ONCE ==>
            n <= 1 && (n == 0 <==> t in e.list) && (n == 1 <==> b in e.frees) && (n == 0 <==> b in e.live))
  {
    hide Inv, StartS, FiringsOf, Run;
    var s0 := StartS(s, t, now, delay, flag, p).1;
    var x := TimerOf(s0.timers, t);
    StartEffect(s, t, now, delay, flag, p);
    StartInv(s, t, now, delay, flag, p);
    assert OnSchedule(s0, s0, t, x, 0);
    n := ScheduledRun(s0, s0, t, x, 0, steps);
    hide Schedule;
    BlockAlive(Run(s0, steps), t, |s.blocks|);
    assert now + delay * MILLISECOND + n * (delay * MILLISECOND) == now + (n + 1) * (delay * MILLISECOND);
  }

  /** The block a listed timer holds is live; a freed block is not. */
  lemma {:induction false} BlockAlive(s: Daemon, t: nat, b: nat)
    requires Inv(s)
    ensures t in s.list && TimerOf(s.timers, t).args == Some(b) ==> b in s.live
    ensures b in s.live ==> b !in s.frees
  {
    if t in s.list { assert OwnsAt(s.timers, s.live, t); }
  }

  // ---------- which blocks are never freed ----------

  /** No one-shot timer holds block b. */
  ghost predicate Pinned(s: Daemon, b: nat) {
    && b in s.live
    && forall t :: t in s.timers && TimerOf(s.timers, t).args == Some(b) ==> TimerOf(s.timers, t).interval > 0
  }

  lemma {:induction false} RemovePinned(s: Daemon, t: nat, b: nat)
    requires Inv(s) && t in s.list && Pinned(s, b)
    ensures Pinned(RemoveS(s, t), b)
  {
    hide Inv;
    RemoveInv(s, t);
    ListedHasBlock(s, t);
    assert forall u :: u in s.timers && u != t ==> TimerOf(RemoveS(s, t).timers, u) == TimerOf(s.timers, u);
  }

  lemma {:induction false} TakePinned(s: Daemon, st: Step, b: nat)
    requires Inv(s) && Allowed(s, st) && Pinned(s, b)
    ensures Pinned(Take(s, st), b)
  {
    hide Inv, Insert, BeginS, CallS;
    match st
    case Create(t) =>
    case Start(t, now, delay, flag, p) =>
      NewBlock(s, p);
      var s0 := s.(blocks := s.blocks + [p], live := s.live + {|s.blocks|});
      assert Pinned(s0, b);
      if t in s.list { RemovePinned(s0, t, b); }
    case Stop(t, now) => if t in s.list { RemovePinned(s, t, b); }
    case Delete(t) => if t in s.list { RemovePinned(s, t, b); }
    case Begin(now) =>
      if Due(s, now) {
        BeginEffect(s);
        forall u | u in s.timers && TimerOf(BeginS(s).timers, u).args == Some(b)
          ensures TimerOf(BeginS(s).timers, u).interval > 0
        {}
      }
    case Call => CallInv(s);
  }

  lemma {:induction false} RunPinned(s: Daemon, steps: seq<Step>, b: nat)
    requires Inv(s) && RunAllowed(s, steps) && Pinned(s, b)
    ensures Pinned(Run(s, steps), b)
    decreases steps
  {
    if steps != [] {
      TakeInv(s, steps[0]);
      TakePinned(s, steps[0], b);
      RunPinned(Take(s, steps[0]), steps[1..], b);
    }
  }

  /** The block u_timer_start allocates for a repeating timer, or for a call it rejects, is
      never freed: not by firing, stopping, restarting or deleting the timer. */
  lemma {:induction false} NeverFreed(s: Daemon, t: nat, now: int, delay: nat, flag: nat, p: Payload, steps: seq<Step>)
    requires Inv(s) && t in s.timers && RunAllowed(StartS(s, t, now, delay, flag, p).1, steps)
    requires StartS(s, t, now, delay, flag, p).0 == OK ==> flag == REPEAT
    ensures var e := Run(StartS(s, t, now, delay, flag, p).1, steps); |s.blocks| in e.live && |s.blocks| !in e.frees
  {
    hide Inv, Insert, RunAllowed;
    var s0 := StartS(s, t, now, delay, flag, p).1;
    NewBlock(s, p);
    StartInv(s, t, now, delay, flag, p);
    if StartS(s, t, now, delay, flag, p).0 == OK {
      StartEffect(s, t, now, delay, flag, p);
      OnlyHolder(s0, t, |s.blocks|);
    }
    RunPinned(s0, steps, |s.blocks|);
    RunInv(s0, steps);
    BlockAlive(Run(s0, steps), t, |s.blocks|);
  }

  lemma {:induction false} OnlyHolder(s: Daemon, t: nat, b: nat)
    requires Inv(s) && t in s.timers && TimerOf(s.timers, t).args == Some(b)
    ensures forall u :: u in s.timers && TimerOf(s.timers, u).args == Some(b) ==> u == t
  {}

  /** Stopping, deleting or restarting a listed timer frees its block exactly if it is a
      one-shot; a stopped timer is left with the time that remained. */
  lemma {:induction false} TakingOffList(s: Daemon, t: nat, now: int)
    requires Inv(s) && t in s.list
    ensures var x := TimerOf(s.timers, t);
      && x.args.Some? && x.args.value !in s.frees
      && (x.args.value in StopS(s, t, now).frees <==> x.interval == 0)
      && (x.args.value in DeleteS(s, t).frees <==> x.interval == 0)
      && t !in StopS(s, t, now).list && TimerOf(StopS(s, t, now).timers, t).deadline == x.deadline - now
      && t !in DeleteS(s, t).list && t !in DeleteS(s, t).timers
    ensures forall delay, flag, p :: StartS(s, t, now, delay, flag, p).0 == OK ==>
      (TimerOf(s.timers, t).args.value in StartS(s, t, now, delay, flag, p).1.frees
       <==> TimerOf(s.timers, t).interval == 0)
  {
    hide Inv, Insert, Without;
    ListedHasBlock(s, t);
    BlockAlive(s, t, TimerOf(s.timers, t).args.value);
    RemoveInv(s, t);
    forall delay, flag, p | StartS(s, t, now, delay, flag, p).0 == OK
      ensures TimerOf(s.timers, t).args.value in StartS(s, t, now, delay, flag, p).1.frees <==>
        TimerOf(s.timers, t).interval == 0
    {
      NewBlock(s, p);
      RemoveInv(s.(blocks := s.blocks + [p], live := s.live + {|s.blocks|}), t);
    }
  }
}
