/** What calls of other threads do that fall between the two halves of a round: after the
    daemon's thread has taken a timer off the front of the list and unlocked, and before it
    reads the timer again to call back. */
module TimerWindow {
  import opened Seqs
  import opened TimerModel
  import opened TimerList
  import opened TimerRuns

  /** A call of the API, from whatever thread. */
  predicate Api(st: Step) {
    !st.Begin? && !st.Call?
  }

  /** The step is a start of t with valid arguments. */
  predicate Restarts(st: Step, t: nat) {
    st.Start? && st.t == t && st.delay > 0 && (st.flag == ONCE || st.flag == REPEAT)
  }

  datatype Restart = Restart(flag: nat, block: nat, payload: Payload)

  /** The last successful start of t among the calls, with the block it allocated. */
  function LastStart(s: Daemon, t: nat, steps: seq<Step>): Option<Restart>
    requires RunAllowed(s, steps)
    decreases steps
  {
    if steps == [] then None
    else
      var later := LastStart(Take(s, steps[0]), t, steps[1..]);
      if later.None? && Restarts(steps[0], t) then Some(Restart(steps[0].flag, |s.blocks|, steps[0].payload)) else later
  }

  /** What is known between the halves of a round that began in s, for its timer t, then x:
      whether t was deleted since, and how it was last started since, if it was. */
  ghost predicate Between(s: Daemon, e: Daemon, t: nat, x: Timer, deleted: bool, last: Option<Restart>) {
    && Inv(e) && e.status == Up && e.fired == s.fired && s.blocks <= e.blocks
    && e.pending == Some(Pending(t, x.deadline, BlockOf(x), CopyOf(x, Contents(s, BlockOf(x))), deleted))
    && (!deleted ==> t in e.timers && HeldSince(e, TimerOf(e.timers, t), x, last))
  }

  predicate HeldSince(e: Daemon, y: Timer, x: Timer, last: Option<Restart>) {
    match last
    case None => y.interval == x.interval && (x.interval != 0 ==> y.args == x.args)
    case Some(r) =>
      if r.flag == ONCE then y.interval == 0
      else y.interval != 0 && y.args == Some(r.block) && r.block < |e.blocks| && e.blocks[r.block] == r.payload
  }

  lemma {:induction false} BetweenStarts(s: Daemon)
    requires Inv(s) && s.status == Up && s.list != [] && s.pending.None?
    ensures Between(s, BeginS(s), s.list[0], TimerOf(s.timers, s.list[0]), false, None)
  {
    hide Inv, BeginS;
    BeginEffect(s);
  }

  /** API calls send nothing, and only a delete concerns the daemon's thread. */
  lemma {:induction false} ApiSilent(s: Daemon, st: Step)
    requires Api(st) && Allowed(s, st) && s.status == Up
    ensures var r := Take(s, st);
      && r.fired == s.fired && r.status == Up && s.blocks <= r.blocks
      && r.pending == (if st.Delete? && Awaits(s, st.t) then Some(s.pending.value.(gone := true)) else s.pending)
      && forall t :: t in s.timers && st != Delete(t) ==> t in r.timers
  {}

  lemma {:induction false} BetweenStep(s: Daemon, e: Daemon, t: nat, x: Timer, deleted: bool,
                                       last: Option<Restart>, st: Step)
    requires Between(s, e, t, x, deleted, last) && Api(st) && Allowed(e, st)
    ensures Between(s, Take(e, st), t, x, deleted || st == Delete(t),
                    if Restarts(st, t) then Some(Restart(st.flag, |e.blocks|, st.payload)) else last)
  {
    hide Inv, Take;
    TakeInv(e, st);
    ApiSilent(e, st);
    if !deleted && st != Delete(t) {
      if Names(st, t) { NamedStep(e, t, x, last, st); } else { OtherStep(e, st, t); }
    }
  }

  lemma {:induction false} NamedStep(e: Daemon, t: nat, x: Timer, last: Option<Restart>, st: Step)
    requires Inv(e) && e.status == Up && Allowed(e, st) && Names(st, t) && st != Delete(t)
    requires t in e.timers && HeldSince(e, TimerOf(e.timers, t), x, last)
    ensures var r := Take(e, st);
      t in r.timers && HeldSince(r, TimerOf(r.timers, t), x,
                                 if Restarts(st, t) then Some(Restart(st.flag, |e.blocks|, st.payload)) else last)
  {
    hide Inv, Insert, Without;
    match st
    case Start(_, now, delay, flag, p) =>
      if Restarts(st, t) { StartEffect(e, t, now, delay, flag, p); }
    case Stop(_, now) => if t in e.list { RemoveInv(e, t); }
    case _ =>
  }

  lemma {:induction false} BetweenRun(s: Daemon, e: Daemon, t: nat, x: Timer, deleted: bool,
                                      last: Option<Restart>, steps: seq<Step>)
    requires Between(s, e, t, x, deleted, last) && RunAllowed(e, steps) && forall i :: 0 <= i < |steps| ==>
      Api(steps[i])
    ensures Between(s, Run(e, steps), t, x, deleted || Delete(t) in steps,
                    if LastStart(e, t, steps).Some? then LastStart(e, t, steps) else last)
    decreases steps
  {
    if steps != [] {
      hide Between, Take, Restarts;
      BetweenStep(s, e, t, x, deleted, last, steps[0]);
      var last' := if Restarts(steps[0], t) then Some(Restart(steps[0].flag, |e.blocks|, steps[0].payload)) else last;
      BetweenRun(s, Take(e, steps[0]), t, x, deleted || steps[0] == Delete(t), last', steps[1..]);
      HeadOrTail(steps, Delete(t));
    }
  }

  /** The firing the head of the list is due for. */
  function Scheduled(s: Daemon): Fire
    requires s.list != []
  {
    var x := TimerOf(s.timers, s.list[0]);
    Fire(s.list[0], x.deadline, BlockOf(x), Contents(s, BlockOf(x)))
  }

  /** What the second half of a round does after any calls of other threads. If the timer was
      deleted, it is read after it was given back. If it was not started again, or was a
      one-shot and was last started as one, it gets the message of the expiry. If it was a
      repeating timer and was last started as a one-shot, the NULL copy is followed. If it was
      last started as a repeating timer, the message of that start is sent at once. */
  lemma {:induction false} WindowOutcome(s: Daemon, steps: seq<Step>)
    requires Inv(s) && s.status == Up && s.list != [] && s.pending.None?
    requires RunAllowed(BeginS(s), steps) && forall i :: 0 <= i < |steps| ==> Api(steps[i])
    ensures var t, x := s.list[0], TimerOf(s.timers, s.list[0]); var e := Run(BeginS(s), steps);
      && e.pending.Some?
      && var r, last := CallS(e), LastStart(BeginS(s), t, steps);
      if Delete(t) in steps then r.status == DeletedRead && r.fired == s.fired
      else if last.None? || (x.interval == 0 && last.value.flag == ONCE)
      then r.status == Up && r.fired == s.fired + [Scheduled(s)]
      else if last.value.flag == ONCE then r.status == NullRead && r.fired == s.fired
      else r.status == Up && r.fired == s.fired + [Fire(t, x.deadline, last.value.block, last.value.payload)]
  {
    var t, x := s.list[0], TimerOf(s.timers, s.list[0]);
    hide Inv, BeginS, CallS;
    BetweenStarts(s);
    BeginEffect(s);
    BetweenRun(s, BeginS(s), t, x, false, None, steps);
    CallInv(Run(BeginS(s), steps));
  }

  lemma {:induction false} LastStartFresh(s: Daemon, t: nat, steps: seq<Step>)
    requires RunAllowed(s, steps) && s.status == Up && forall i :: 0 <= i < |steps| ==> Api(steps[i])
    ensures LastStart(s, t, steps).Some? ==> LastStart(s, t, steps).value.block >= |s.blocks|
    decreases steps
  {
    if steps != [] {
      ApiSilent(s, steps[0]);
      LastStartFresh(Take(s, steps[0]), t, steps[1..]);
    }
  }

  /** The message of the expiry is delivered, and nothing else, exactly if the timer was not
      deleted in between and either not started again, or it was a one-shot and last started
      as one. */
  lemma {:induction false} OnTimeExactly(s: Daemon, steps: seq<Step>)
    requires Inv(s) && s.status == Up && s.list != [] && s.pending.None?
    requires RunAllowed(BeginS(s), steps) && forall i :: 0 <= i < |steps| ==> Api(steps[i])
    ensures var t, x := s.list[0], TimerOf(s.timers, s.list[0]); var e := Run(BeginS(s), steps);
      && e.pending.Some?
      && var last := LastStart(BeginS(s), t, steps);
      (CallS(e).status == Up && CallS(e).fired == s.fired + [Scheduled(s)]
       <==> Delete(t) !in steps && (last.None? || (x.interval == 0 && last.value.flag == ONCE)))
  {
    hide Inv, BeginS, CallS, LastStart, Run;
    BeginEffect(s);
    WindowOutcome(s, steps);
    LastStartFresh(BeginS(s), s.list[0], steps);
    var r := CallS(Run(BeginS(s), steps));
    if r.fired == s.fired + [Scheduled(s)] { assert r.fired[|s.fired|] == Scheduled(s); }
  }

  // ---------- whole runs ----------

  /** The call is one that makes the callback that is due go wrong: it deletes the timer, or
      starts as a one-shot one that expired as a repeating timer. */
  predicate Disturbs(s: Daemon, st: Step) {
    s.pending.Some? &&
    var p := s.pending.value;
    st == Delete(p.timer) || (Restarts(st, p.timer) && st.flag == ONCE && p.copy.None?)
  }

  predicate Undisturbed(s: Daemon, steps: seq<Step>)
    requires RunAllowed(s, steps)
    decreases steps
  {
    steps == [] || (!Disturbs(s, steps[0]) && Undisturbed(Take(s, steps[0]), steps[1..]))
  }

  /** No fault has happened, and the callback that is due, if any, will cause none. */
  ghost predicate Safe(s: Daemon) {
    s.status == Up && (s.pending.Some? ==>
      var p := s.pending.value;
      !p.gone && (p.copy.Some? || TimerOf(s.timers, p.timer).interval != 0))
  }

  lemma {:induction false} StepSafe(s: Daemon, st: Step)
    requires Inv(s) && Allowed(s, st) && Safe(s) && !Disturbs(s, st)
    ensures Safe(Take(s, st))
  {
    hide Inv, Insert, Without, BeginS, CallS;
    match st
    case Begin(now) => if Due(s, now) { BeginEffect(s); }
    case Call => CallInv(s);
    case Create(_) =>
    case Start(t, now, delay, flag, p) =>
      if Restarts(st, t) && Awaits(s, t) { StartEffect(s, t, now, delay, flag, p); }
      else if s.pending.Some? && !Awaits(s, t) { OtherStart(s, t, now, delay, flag, p, s.pending.value.timer); }
    case Stop(t, now) => if t in s.list { RemoveInv(s, t); }
    case Delete(t) => if t in s.list { RemoveInv(s, t); }
  }

  /** The daemon's thread never faults on a run in which no such call comes while the callback
      of its timer is due. */
  lemma {:induction false} NoFault(s: Daemon, steps: seq<Step>)
    requires Inv(s) && Safe(s) && RunAllowed(s, steps) && Undisturbed(s, steps)
    ensures Run(s, steps).status == Up
    decreases steps
  {
    hide Inv, Safe, Take, Disturbs;
    if steps != [] {
      TakeInv(s, steps[0]);
      StepSafe(s, steps[0]);
      NoFault(Take(s, steps[0]), steps[1..]);
    } else {
      assert s.status == Up by { SafeUp(s); }
    }
  }

  lemma {:induction false} SafeUp(s: Daemon)
    requires Safe(s)
    ensures s.status == Up
  {}

  // ---------- it does happen ----------

  lemma {:induction false} RunAppend(s: Daemon, steps: seq<Step>, st: Step)
    requires RunAllowed(s, steps) && Allowed(Run(s, steps), st)
    ensures RunAllowed(s, steps + [st]) && Run(s, steps + [st]) == Take(Run(s, steps), st)
    decreases steps
  {
    hide Take;
    if steps == [] {
      assert [] + [st] == [st] && [st][1..] == [];
    } else {
      assert (steps + [st])[1..] == steps[1..] + [st];
      RunAppend(Take(s, steps[0]), steps[1..], st);
    }
  }

  lemma {:induction false} Then(steps: seq<Step>, s: Daemon, st: Step) returns (more: seq<Step>, r: Daemon)
    requires RunAllowed(Init(), steps) && Run(Init(), steps) == s && Allowed(s, st)
    ensures RunAllowed(Init(), more) && Run(Init(), more) == r == Take(s, st)
  {
    more, r := steps + [st], Take(s, st);
    RunAppend(Init(), steps, st);
  }

  /** A repeating timer of one millisecond has expired and its callback is due, two
      milliseconds on. */
  function Expired(p: Payload): Daemon {
    Daemon(map[0 := Timer(2 * MILLISECOND, MILLISECOND, Some(0), true)], [0], [p], {0}, [], [],
           Some(Pending(0, MILLISECOND, 0, None, false)), Up)
  }

  lemma {:induction false} ReachExpired(p: Payload) returns (steps: seq<Step>)
    ensures RunAllowed(Init(), steps) && Run(Init(), steps) == Expired(p)
  {
    hide Run, RunAllowed;
    var s;
    assert RunAllowed(Init(), []) && Run(Init(), []) == Init() by { RunNothing(Init()); }
    steps, s := Then([], Init(), Create(0));
    steps, s := Then(steps, s, Start(0, 0, 1, REPEAT, p));
    assert s == Daemon(map[0 := Timer(MILLISECOND, MILLISECOND, Some(0), true)], [0], [p], {0}, [], [], None, Up);
    WithoutOne([0], 0);
    steps, s := Then(steps, s, Begin(2 * MILLISECOND));
  }

  lemma {:induction false} RunNothing(s: Daemon)
    ensures RunAllowed(s, []) && Run(s, []) == s
  {}

  /** A repeating timer started again as a one-shot while its callback is due: the daemon's
      thread follows a NULL pointer. */
  lemma {:induction false} RestartedOnceFaults(p: Payload, q: Payload) returns (steps: seq<Step>)
    ensures RunAllowed(Init(), steps) && Run(Init(), steps).status == NullRead && Run(Init(), steps).fired == []
  {
    var s;
    steps := ReachExpired(p);
    hide Run, RunAllowed, Insert, Without;
    s := Expired(p);
    StartIsTaken(s, 2 * MILLISECOND, ONCE, q);
    steps, s := Then(steps, s, Start(0, 2 * MILLISECOND, 1000, ONCE, q));
    steps, s := Then(steps, s, Call);
  }

  /** Started again as a repeating timer of one second: the new message is sent at once, a
      second before it is due for the first time. */
  lemma {:induction false} RestartedRepeatEarly(p: Payload, q: Payload) returns (steps: seq<Step>)
    ensures RunAllowed(Init(), steps) && Run(Init(), steps).fired == [Fire(0, MILLISECOND, 1, q)]
    ensures TimerOf(Run(Init(), steps).timers, 0).deadline == 1002 * MILLISECOND
  {
    var s;
    steps := ReachExpired(p);
    hide Run, RunAllowed, Insert, Without;
    s := Expired(p);
    StartIsTaken(s, 2 * MILLISECOND, REPEAT, q);
    steps, s := Then(steps, s, Start(0, 2 * MILLISECOND, 1000, REPEAT, q));
    steps, s := Then(steps, s, Call);
  }

  lemma {:induction false} StartIsTaken(s: Daemon, now: int, flag: nat, q: Payload)
    requires flag == ONCE || flag == REPEAT
    requires s.status == Up && s.list == [0] && 0 in s.timers && s.timers[0].interval != 0
    ensures var r := Take(s, Start(0, now, 1000, flag, q));
      && r.pending == s.pending && r.status == Up && r.fired == s.fired && r.blocks == s.blocks + [q]
      && 0 in r.timers
      && r.timers[0] == Armed(now, 1000, flag, |s.blocks|)
  {}

  /** Deleted while its callback is due: the thread reads a timer that was given back. */
  lemma {:induction false} DeletedFaults(p: Payload) returns (steps: seq<Step>)
    ensures RunAllowed(Init(), steps) && Run(Init(), steps).status == DeletedRead
  {
    var s;
    steps := ReachExpired(p);
    hide Run, RunAllowed, Insert, Without;
    s := Expired(p);
    steps, s := Then(steps, s, Delete(0));
    steps, s := Then(steps, s, Call);
  }
}
