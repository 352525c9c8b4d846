/** Starting and exiting applications (am/amb/amb.c, am/am.c, am/aee/appman.c) as interleaved
    steps: client threads send requests to the manager's queue, the manager starts and exits
    application threads and waits for them, applications notify the manager, the manager
    notifies the client. Queues are FIFO; the two semaphores are binary. */
module AmProtocol {
  import opened Seqs

  const RETRIES: nat := 10

  /** What a client asks of the manager. A message dispatched to the manager itself is a request
      of its own, put at the end of the manager's queue; Unknown stands for the types the
      manager refuses. */
  datatype Request =
    | StartApp(name: string)
    | ExitApp(name: string)
    | Register(name: string)
    | Broadcast
    | Dispatch(name: string)
    | ToManager(inner: Request)
    | Unknown

  /** A message in the manager's queue; tag is the request whose caller waits, if any. */
  datatype AmMsg = AmMsg(req: Request, tag: Option<nat>)

  /** A message in an application's queue. The first two are sent by the manager, which waits
      for their notification; nobody waits for the third. */
  datatype AppMsg = InitMsg | ExitMsg | PlainMsg

  /** A callback has returned; its notification is yet to be made. */
  datatype Note = Note(ok: bool, ends: bool)

  datatype App = App(name: string, queue: seq<AppMsg>, note: Option<Note>, alive: bool)

  /** Where the manager's thread is. */
  datatype AmPc =
    | AmIdle
    | AmWaitInit(msg: AmMsg, k: nat)
    | AmTryExit(msg: AmMsg, k: nat, tries: nat)
    | AmWaitExit(msg: AmMsg, k: nat)
    | AmAnswer(msg: AmMsg, ok: bool)

  /** A thread inside _amb_send_request_to_am; ok is its b_ok. */
  datatype Caller = Sending(req: Request, tries: nat) | Waiting(req: Request, ok: bool)

  /** Inited, Exited: a callback of application h returned. Answered: the manager notified
      the sender of r, when the handle it had on record for the named application was h.
      Returned: the call r made came back. */
  datatype Event =
    | Inited(h: nat, name: string, ok: bool)
    | Exited(h: nat, name: string, ok: bool)
    | Processed(h: nat)
    | Answered(r: nat, req: Request, ok: bool, h: nat)
    | Returned(r: nat, req: Request, ok: bool)

  /** Application threads are numbered from 1 in the order they are created; the number is
      the handle. handles is ah_app: 0 for an application that is not running. */
  datatype State = State(
    amQueue: seq<AmMsg>, am: AmPc, amFree: bool, amOk: bool,
    ambFree: bool, callers: map<nat, Caller>, next: nat,
    regs: set<string>, names: seq<string>, handles: seq<nat>,
    apps: seq<App>, log: seq<Event>)

  function Init(): State {
    State([], AmIdle, false, false, false, map[], 0, {}, [], [], [], [])
  }

  /** The first application registered under the name, or the number of applications. */
  function FindName(names: seq<string>, name: string): (k: nat)
    ensures k <= |names| && (k < |names| ==> names[k] == name)
    ensures forall j :: 0 <= j < k ==> names[j] != name
  {
    if names == [] || names[0] == name then 0 else 1 + FindName(names[1..], name)
  }

  /** The first such application that is running. */
  function FindRunning(names: seq<string>, handles: seq<nat>, name: string): (k: nat)
    requires |handles| == |names|
    ensures k <= |names| && (k < |names| ==> names[k] == name && handles[k] != 0)
  {
    if names == [] || (handles[0] != 0 && names[0] == name) then 0
    else 1 + FindRunning(names[1..], handles[1..], name)
  }

  /** The first application that is running. */
  function FirstRunning(handles: seq<nat>): (k: nat)
    ensures k <= |handles| && (k < |handles| ==> handles[k] != 0)
    ensures forall j :: 0 <= j < k ==> handles[j] == 0
  {
    if handles == [] || handles[0] != 0 then 0 else 1 + FirstRunning(handles[1..])
  }

  /** The handle on record for the application a request names. */
  function OnRecord(s: State, req: Request): nat {
    if req.StartApp? && FindName(s.names, req.name) < |s.handles| then s.handles[FindName(s.names, req.name)] else 0
  }

  // ---------- steps ----------

  datatype Step =
    | Begin(req: Request)                     // a client calls a synchronous request
    | Send(r: nat, accepted: bool)            // one try to put it on the manager's queue
    | Wake(r: nat)                            // the client passes the semaphore and returns
    | Async(req: Request)                     // an asynchronous request is queued
    | Post(h: nat)                            // someone sends application h a message
    | AmReceive(started: bool, targets: set<nat>, own: bool)
    | AmSendExit(accepted: bool)
    | AmWake
    | AmReply
    | AppRun(h: nat, ok: bool)
    | AppNotify(h: nat)

  predicate Live(s: State, h: nat) {
    1 <= h <= |s.apps| && s.apps[h - 1].alive
  }

  predicate Authorized(s: State, req: Request) {
    req.StartApp? || req.ExitApp? || req.Dispatch? ==> req.name in s.regs
  }

  predicate Enabled(s: State, st: Step) {
    match st
    case Begin(req) => Authorized(s, req) && (req.Register? ==> req.name !in s.regs)
    case Send(r, _) => r in s.callers && s.callers[r].Sending?
    case Wake(r) => r in s.callers && s.callers[r].Waiting? && s.ambFree
    case Async(req) => Authorized(s, req) && !req.Register?
    case Post(h) => Live(s, h)
    case AmReceive(_, _, _) => s.am.AmIdle? && s.amQueue != []
    case AmSendExit(accepted) => s.am.AmTryExit? && s.am.k < |s.handles| && (accepted ==> Live(s, s.handles[s.am.k]))
    case AmWake => (s.am.AmWaitInit? || s.am.AmWaitExit?) && s.amFree && s.am.k < |s.handles|
    case AmReply => s.am.AmAnswer?
    case AppRun(h, _) => Live(s, h) && s.apps[h - 1].note.None? && s.apps[h - 1].queue != []
    case AppNotify(h) => Live(s, h) && s.apps[h - 1].note.Some?
  }

  function Push(a: App, m: AppMsg): App {
    a.(queue := a.queue + [m])
  }

  /** A plain message for each live application among the targets. */
  function PushAll(apps: seq<App>, targets: set<nat>): (r: seq<App>)
    ensures |r| == |apps|
    ensures forall i :: 0 <= i < |apps| ==>
      r[i] == if apps[i].alive && i + 1 in targets then Push(apps[i], PlainMsg) else apps[i]
  {
    seq(|apps|, i requires 0 <= i < |apps| =>
      if apps[i].alive && i + 1 in targets then Push(apps[i], PlainMsg) else apps[i])
  }

  /** The applications on record among the targets. */
  function Recorded(s: State, targets: set<nat>): set<nat> {
    set h | h in targets && h != 0 && h in s.handles
  }

  /** The requests the manager does not wait for. A broadcast goes to every running application,
      the one registered last first, and answers with what became of the last it tried. */
  function PassS(s: State, m: AmMsg, targets: set<nat>, own: bool): State
    requires |s.handles| == |s.names|
  {
    match m.req
    case Broadcast =>
      var k := FirstRunning(s.handles);
      s.(am := AmAnswer(m, k == |s.handles| || s.handles[k] in targets), apps := PushAll(s.apps, Recorded(s, targets)))
    case Dispatch(name) =>
      var k := FindRunning(s.names, s.handles, name);
      if k == |s.names| || s.handles[k] !in targets then s.(am := AmAnswer(m, false))
      else s.(am := AmAnswer(m, true), apps := PushAll(s.apps, {s.handles[k]}))
    case ToManager(inner) =>
      s.(am := AmAnswer(m, own), amQueue := s.amQueue + (if own then [AmMsg(inner, None)] else []))
    case _ => s.(am := AmAnswer(m, false))
  }

  /** _am_app_process_msg_fct up to its first wait. started: u_app_start succeeds; targets: the
      applications that accept a message within the retries; own: the manager's own queue does. */
  function ReceiveS(s: State, started: bool, targets: set<nat>, own: bool): State
    requires s.amQueue != [] && |s.handles| == |s.names|
  {
    var m := s.amQueue[0];
    var s1 := s.(amQueue := s.amQueue[1..]);
    match m.req
    case StartApp(name) =>
      var k := FindName(s.names, name);
      if name !in s.regs || k == |s.names| || s.handles[k] != 0 || !started then s1.(am := AmAnswer(m, false))
      else s1.(am := AmWaitInit(m, k), amOk := false, handles := s.handles[k := |s.apps| + 1],
               apps := s.apps + [App(name, [InitMsg], None, true)])
    case ExitApp(name) =>
      var k := FindRunning(s.names, s.handles, name);
      if k == |s.names| then s1.(am := AmAnswer(m, false)) else s1.(am := AmTryExit(m, k, 0), amOk := false)
    case Register(name) => s1.(am := AmAnswer(m, true), names := s.names + [name], handles := s.handles + [0])
    case _ => PassS(s1, m, targets, own)
  }

  /** One turn of appman_main of application h, for a message whose callback returns ok. */
  function TurnS(a: App, h: nat, ok: bool): (App, Event)
    requires a.queue != []
  {
    var rest := a.(queue := a.queue[1..]);
    match a.queue[0]
    case InitMsg => (rest.(note := Some(Note(ok, !ok))), Inited(h, a.name, ok))
    case ExitMsg => (rest.(note := Some(Note(ok, ok))), Exited(h, a.name, ok))
    case PlainMsg => (rest, Processed(h))
  }

  function RunS(s: State, h: nat, ok: bool): State
    requires 1 <= h <= |s.apps| && s.apps[h - 1].queue != []
  {
    var (a, e) := TurnS(s.apps[h - 1], h, ok);
    s.(apps := s.apps[h - 1 := a], log := s.log + [e])
  }

  function Take(s: State, st: Step): State
    requires Enabled(s, st) && |s.handles| == |s.names|
  {
    match st
    case Begin(req) =>
      s.(callers := s.callers[s.next := Sending(req, 0)], next := s.next + 1,
         regs := if req.Register? then s.regs + {req.name} else s.regs)
    case Send(r, accepted) =>
      var req := s.callers[r].req;
      if accepted then s.(amQueue := s.amQueue + [AmMsg(req, Some(r))], callers := s.callers[r := Waiting(req, true)])
      else if s.callers[r].tries < RETRIES then s.(callers := s.callers[r := Sending(req, s.callers[r].tries + 1)])
      else s.(callers := s.callers - {r}, log := s.log + [Returned(r, req, false)])
    case Wake(r) =>
      s.(ambFree := false, callers := s.callers - {r}, log := s.log + [Returned(r, s.callers[r].req, s.callers[r].ok)])
    case Async(req) => s.(amQueue := s.amQueue + [AmMsg(req, None)])
    case Post(h) => s.(apps := s.apps[h - 1 := Push(s.apps[h - 1], PlainMsg)])
    case AmReceive(started, targets, own) => ReceiveS(s, started, targets, own)
    case AmSendExit(accepted) =>
      if accepted then
        var h := s.handles[s.am.k];
        s.(am := AmWaitExit(s.am.msg, s.am.k), apps := s.apps[h - 1 := Push(s.apps[h - 1], ExitMsg)])
      else if s.am.tries < RETRIES then s.(am := AmTryExit(s.am.msg, s.am.k, s.am.tries + 1))
      else s.(am := AmAnswer(s.am.msg, false))
    case AmWake =>
      var k := s.am.k;
      if s.am.AmWaitInit? && s.amOk then s.(am := AmAnswer(s.am.msg, true), amFree := false)
      else s.(am := AmAnswer(s.am.msg, s.am.AmWaitExit?), amFree := false, handles := s.handles[k := 0])
    case AmReply =>
      var m := s.am.msg;
      if m.tag.None? then s.(am := AmIdle)
      else
        var r := m.tag.value;
        s.(am := AmIdle, ambFree := true, log := s.log + [Answered(r, m.req, s.am.ok, OnRecord(s, m.req))],
           callers := if r in s.callers && s.callers[r].Waiting?
                      then s.callers[r := Waiting(s.callers[r].req, s.am.ok)] else s.callers)
    case AppRun(h, ok) => RunS(s, h, ok)
    case AppNotify(h) =>
      var a := s.apps[h - 1];
      s.(amFree := true, amOk := a.note.value.ok,
         apps := s.apps[h - 1 := a.(note := None, alive := !a.note.value.ends)])
  }

  /** A run, every step of which is enabled. */
  ghost predicate Runs(s: State, steps: seq<Step>, t: State)
    decreases steps
  {
    if steps == [] then t == s
    else |s.handles| == |s.names| && Enabled(s, steps[0]) && Runs(Take(s, steps[0]), steps[1..], t)
  }
}
