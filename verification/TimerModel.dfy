/** The timer daemon (timerd/_timer.c) on values. Times are nanoseconds; the ring of listed
    timers is the sequence read from s_timer_list along `next`. A timer is known by a number,
    which stands for the address u_timer_create returns as its handle. */
module TimerModel {
  import opened Seqs

  const SECOND: int := 1_000_000_000
  const MILLISECOND: int := 1_000_000
  const ONCE: nat := 1
  const REPEAT: nat := 2

  /** What u_timer_start was given to deliver: the application and the message bytes, if any. */
  datatype Payload = Payload(app: int, msg: Option<seq<int>>)

  /** callback: a callback function has been set, as every successful start does. */
  datatype Timer = Timer(deadline: int, interval: nat, args: Option<nat>, callback: bool)

  /** A message sent by the callback: for which timer and deadline, and from which block. */
  datatype Fire = Fire(timer: nat, deadline: int, block: nat, payload: Payload)

  /** The daemon's thread between unlocking the list and calling back for a timer: the deadline
      it expired at, the block it then held, the private copy made of it for a one-shot, and
      whether another thread has deleted the timer since. */
  datatype Pending = Pending(timer: nat, deadline: int, block: nat, copy: Option<Payload>, gone: bool)

  /** Faults of the daemon's thread: it follows the NULL pointer where a copy should be, or
      reads a timer that was given back. */
  datatype Status = Up | NullRead | DeletedRead

  /** blocks holds what was put in every argument block ever allocated; those not freed yet
      are live; frees lists the others in the order they were freed. */
  datatype Daemon = Daemon(
    timers: map<nat, Timer>, list: seq<nat>,
    blocks: seq<Payload>, live: set<nat>, frees: seq<nat>,
    fired: seq<Fire>, pending: Option<Pending>, status: Status)

  datatype Code = OK | InvArg

  /** calloc */
  const NEW_TIMER := Timer(0, 0, None, false)

  function Init(): Daemon {
    Daemon(map[], [], [], {}, [], [], None, Up)
  }

  function TimerOf(m: map<nat, Timer>, t: nat): Timer {
    if t in m then m[t] else NEW_TIMER
  }

  /** timer_list_add: in front of the first timer with a later deadline. */
  function Insert(m: map<nat, Timer>, q: seq<nat>, t: nat): seq<nat> {
    if q == [] then [t]
    else if TimerOf(m, t).deadline < TimerOf(m, q[0]).deadline then [t] + q
    else [q[0]] + Insert(m, q[1..], t)
  }

  function AddS(s: Daemon, t: nat): Daemon {
    s.(list := Insert(s.timers, s.list, t))
  }

  function FreeBlock(s: Daemon, b: nat): Daemon {
    s.(live := s.live - {b}, frees := s.frees + [b])
  }

  /** A one-shot timer gives up its block. */
  function Dropped(s: Daemon, t: nat): Daemon {
    var x := TimerOf(s.timers, t);
    if x.interval == 0 && x.args.Some?
    then FreeBlock(s, x.args.value).(timers := s.timers[t := x.(args := None)])
    else s
  }

  /** timer_list_remove */
  function RemoveS(s: Daemon, t: nat): Daemon {
    var s1 := Dropped(s, t);
    s1.(list := Without(s1.list, {t}))
  }

  function Contents(s: Daemon, b: nat): Payload {
    if b < |s.blocks| then s.blocks[b] else Payload(0, None)
  }

  function BlockOf(x: Timer): nat {
    if x.args.Some? then x.args.value else 0
  }

  /** The head leaves the list; a repeating timer is listed again one interval later. */
  function Requeue(s: Daemon): Daemon
    requires s.list != []
  {
    var t := s.list[0];
    var x := TimerOf(s.timers, t);
    var s1 := RemoveS(s, t);
    if x.interval == 0 then s1 else AddS(s1.(timers := s1.timers[t := x.(deadline := x.deadline + x.interval)]), t)
  }

  /** A round of the expiry loop for the timer at the head, up to the unlock: what a one-shot
      is to deliver is copied before its block is freed. */
  function BeginS(s: Daemon): Daemon
    requires s.list != []
  {
    var x := TimerOf(s.timers, s.list[0]);
    var copy := if x.callback && x.interval == 0 && x.args.Some? then Some(Contents(s, x.args.value)) else None;
    Requeue(s).(pending := Some(Pending(s.list[0], x.deadline, BlockOf(x), copy, false)))
  }

  function Sent(s: Daemon, f: Fire): Daemon {
    s.(fired := s.fired + [f])
  }

  /** The rest of the round, without the lock: the timer is read again. A one-shot gets the
      copy, which is then freed through its pointer; a repeating timer gets its block. */
  function CallS(s: Daemon): Daemon
    requires s.pending.Some?
  {
    var p, r := s.pending.value, s.(pending := None);
    var x := TimerOf(s.timers, p.timer);
    if p.gone then r.(status := DeletedRead)
    else if !x.callback then r
    else if x.interval == 0 then
      if p.copy.Some? then Sent(r, Fire(p.timer, p.deadline, p.block, p.copy.value)) else r.(status := NullRead)
    else if x.args.Some? then Sent(r, Fire(p.timer, p.deadline, x.args.value, Contents(s, x.args.value)))
    else r
  }

  /** A round in which no other thread calls between the two. */
  function FireS(s: Daemon): Daemon
    requires s.list != []
  {
    CallS(BeginS(s))
  }

  predicate Due(s: Daemon, now: int) {
    s.list != [] && TimerOf(s.timers, s.list[0]).deadline < now
  }

  /** How often a timer fires before it is no longer before now. */
  function Fires(x: Timer, now: int): nat {
    if x.deadline >= now then 0
    else if x.interval == 0 then 1
    else (now - x.deadline + x.interval - 1) / x.interval
  }

  function Work(m: map<nat, Timer>, q: seq<nat>, now: int): nat {
    if q == [] then 0 else Fires(TimerOf(m, q[0]), now) + Work(m, q[1..], now)
  }

  /** A timer as it is started. */
  function Armed(now: int, delay: nat, flag: nat, b: nat): Timer {
    Timer(now + delay * MILLISECOND, if flag == ONCE then 0 else delay * MILLISECOND, Some(b), true)
  }

  /** _timer_start, given the argument block */
  function ArmS(s: Daemon, t: nat, now: int, delay: nat, flag: nat, b: nat): (Code, Daemon) {
    if delay == 0 || (flag != ONCE && flag != REPEAT) then (InvArg, s)
    else
      var s1 := if t in s.list then RemoveS(s, t) else s;
      (OK, AddS(s1.(timers := s1.timers[t := Armed(now, delay, flag, b)]), t))
  }

  function CreateS(s: Daemon, t: nat): Daemon {
    s.(timers := s.timers[t := NEW_TIMER])
  }

  /** u_timer_start: the block is allocated even if the arguments are then rejected. */
  function StartS(s: Daemon, t: nat, now: int, delay: nat, flag: nat, p: Payload): (Code, Daemon) {
    ArmS(s.(blocks := s.blocks + [p], live := s.live + {|s.blocks|}), t, now, delay, flag, |s.blocks|)
  }

  /** The stopped timer is left holding the time that remained. */
  function StopS(s: Daemon, t: nat, now: int): Daemon {
    if t !in s.list then s
    else
      var s1 := RemoveS(s, t);
      var x := TimerOf(s1.timers, t);
      s1.(timers := s1.timers[t := x.(deadline := x.deadline - now)])
  }

  function DeleteS(s: Daemon, t: nat): Daemon {
    var s1 := if t in s.list then RemoveS(s, t) else s;
    s1.(timers := s1.timers - {t},
        pending := if Awaits(s, t) then Some(s.pending.value.(gone := true)) else s.pending)
  }

  /** The daemon's thread is about to call back for timer t. */
  predicate Awaits(s: Daemon, t: nat) {
    s.pending.Some? && s.pending.value.timer == t
  }

  // ---------- runs ----------

  /** Begin and Call are the two halves of a round of the expiry loop, if there is one to
      make: the daemon's thread holds the lock in the first only, so other threads may call
      in between. */
  datatype Step =
    | Create(t: nat)
    | Start(t: nat, now: int, delay: nat, flag: nat, payload: Payload)
    | Stop(t: nat, now: int)
    | Delete(t: nat)
    | Begin(now: int)
    | Call

  /** Handles passed to the API come from u_timer_create and were not deleted. */
  predicate Allowed(s: Daemon, st: Step) {
    match st
    case Create(t) => t !in s.timers
    case Start(t, _, _, _, _) => t in s.timers
    case Stop(t, _) => t in s.timers
    case Delete(t) => t in s.timers
    case Begin(_) => s.pending.None?
    case Call => s.pending.Some?
  }

  /** After a fault nothing happens any more. */
  function Take(s: Daemon, st: Step): Daemon
    requires Allowed(s, st)
  {
    if s.status != Up then s
    else
      match st
      case Create(t) => CreateS(s, t)
      case Start(t, now, delay, flag, p) => StartS(s, t, now, delay, flag, p).1
      case Stop(t, now) => StopS(s, t, now)
      case Delete(t) => DeleteS(s, t)
      case Begin(now) => if Due(s, now) then BeginS(s) else s
      case Call => CallS(s)
  }

  function Run(s: Daemon, steps: seq<Step>): Daemon
    requires RunAllowed(s, steps)
    decreases steps
  {
    if steps == [] then s else Run(Take(s, steps[0]), steps[1..])
  }

  predicate RunAllowed(s: Daemon, steps: seq<Step>)
    decreases steps
  {
    steps != [] ==> Allowed(s, steps[0]) && RunAllowed(Take(s, steps[0]), steps[1..])
  }
}
