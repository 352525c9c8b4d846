/** What the start and exit protocol guarantees its clients, and when it fails them. */
module AmTheorems {
  import opened Seqs
  import opened AmProtocol
  import opened AmInvariant

  /** The requests the manager has yet to answer, the one it is working on first. */
  function Open(s: State): seq<AmMsg> {
    (if s.am.AmIdle? then [] else [s.am.msg]) + s.amQueue
  }

  /** A tagged request belongs to a caller that waits and has not been answered. */
  ghost predicate TagAt(s: State, i: nat)
    requires i < |Open(s)|
  {
    var m := Open(s)[i];
    m.tag.Some? ==> !s.ambFree && m.tag.value in s.callers && s.callers[m.tag.value] == Waiting(m.req, true)
  }

  ghost predicate AnsweredIn(log: seq<Event>, r: nat, req: Request, ok: bool, i: nat) {
    i < |log| && log[i].Answered? && log[i].r == r && log[i].req == req && log[i].ok == ok
  }

  ghost predicate AskedAt(s: State, r: nat, req: Request, i: nat) {
    i < |Open(s)| && Open(s)[i] == AmMsg(req, Some(r))
  }

  /** A waiting caller's request is open, or it has been answered with what the caller will
      read and the semaphore is free. */
  ghost predicate CallerAt(s: State, r: nat)
    requires r in s.callers
  {
    && r < s.next
    && (s.callers[r].Waiting? ==>
          if s.ambFree then exists i: nat :: AnsweredIn(s.log, r, s.callers[r].req, s.callers[r].ok, i)
          else exists i: nat :: AskedAt(s, r, s.callers[r].req, i))
  }

  ghost predicate OneTag(q: seq<AmMsg>) {
    forall i, j :: 0 <= i < j < |q| ==> q[i].tag.None? || q[j].tag.None?
  }

  /** With at most one synchronous caller. */
  ghost predicate AmbSide(s: State) {
    && (forall i :: 0 <= i < |Open(s)| ==> TagAt(s, i))
    && OneTag(Open(s))
    && (forall r :: r in s.callers ==> CallerAt(s, r))
    && (forall r, q :: r in s.callers && q in s.callers ==> r == q)
    && (s.ambFree ==> exists r :: r in s.callers && s.callers[r].Waiting?)
  }

  ghost predicate Inv(s: State) {
    AmSide(s) && AmbSide(s)
  }

  /** No client begins a synchronous request while another is in one. */
  predicate Solo(s: State, st: Step) {
    st.Begin? ==> s.callers == map[]
  }

  // ---------- every step ----------

  lemma {:induction false} AmSideKept(s: State, st: Step)
    requires AmSide(s) && Enabled(s, st)
    ensures AmSide(AmProtocol.Take(s, st))
  {
    hide AmOk, HandlesOk, AppsOk, LogOk, ReceiveS, RunS;
    Lengths(s);
    match st
    case AmReceive(started, targets, own) =>
      if s.amQueue[0].req.StartApp? {
        StartIgnores(s, started, targets, own);
        ReceiveStart(s, s.amQueue[0].req.name, started);
      } else {
        ReceiveOther(s, started, targets, own);
      }
    case AmSendExit(accepted) => SendExitKeeps(s, accepted);
    case AmWake => WakeKeeps(s);
    case AmReply => ReplyKeeps(s);
    case AppRun(h, ok) => RunKeeps(s, h, ok);
    case AppNotify(h) => NotifyKeeps(s, h);
    case Post(h) => Posted(s, AmProtocol.Take(s, st));
    case Send(r, accepted) => ClientStep(s, st);
    case Begin(req) => ClientStep(s, st);
    case Wake(r) => ClientStep(s, st);
    case Async(req) => ClientStep(s, st);
  }

  lemma {:induction false} Lengths(s: State)
    requires AmSide(s)
    ensures |s.handles| == |s.names|
  {}

  lemma {:induction false} StartIgnores(s: State, started: bool, targets: set<nat>, own: bool)
    requires s.amQueue != [] && |s.handles| == |s.names| && s.amQueue[0].req.StartApp?
    ensures ReceiveS(s, started, targets, own) == ReceiveS(s, started, {}, false)
  {}

  lemma {:induction false} ClientStep(s: State, st: Step)
    requires AmSide(s) && Enabled(s, st) && (st.Send? || st.Begin? || st.Wake? || st.Async?)
    ensures AmSide(AmProtocol.Take(s, st))
  {
    var t := AmProtocol.Take(s, st);
    if t.log != s.log { LogAppend(s.log, t.log[|s.log|]); assert t.log == s.log + [t.log[|s.log|]]; }
    hide AmOk, HandlesOk, AppsOk, LogOk;
    Untouched(s, t);
  }

  /** Steps that leave the open requests, the callers and the semaphore of the broker alone. */
  lemma {:induction false} AmbUntouched(s: State, t: State)
    requires AmbSide(s) && Open(t) == Open(s) && t.callers == s.callers && t.ambFree == s.ambFree && t.next == s.next
    requires s.log <= t.log
    ensures AmbSide(t)
  {
    forall i | 0 <= i < |Open(t)| ensures TagAt(t, i) { assert TagAt(s, i); }
    forall r | r in t.callers ensures CallerAt(t, r) { CallerKept(s, t, r); }
  }

  lemma {:induction false} CallerKept(s: State, t: State, r: nat)
    requires r in s.callers && CallerAt(s, r) && r in t.callers
    requires t.callers[r] == s.callers[r] && t.ambFree == s.ambFree
    requires s.next <= t.next && Open(s) <= Open(t) && s.log <= t.log
    ensures CallerAt(t, r)
  {
    if s.callers[r].Waiting? {
      var c := s.callers[r];
      if s.ambFree {
        var i: nat :| AnsweredIn(s.log, r, c.req, c.ok, i);
        assert AnsweredIn(t.log, r, c.req, c.ok, i);
      } else {
        var i: nat :| AskedAt(s, r, c.req, i);
        assert AskedAt(t, r, c.req, i);
      }
    }
  }

  lemma {:induction false} ManagerStep(s: State, st: Step)
    requires AmbSide(s) && Enabled(s, st) && |s.handles| == |s.names|
    requires st.AmReceive? || st.AmSendExit? || st.AmWake? || st.AppRun? || st.AppNotify? || st.Post?
    ensures AmbSide(AmProtocol.Take(s, st))
  {
    hide AmbSide;
    if st.AppRun? { RunOpen(s, st.h, st.ok); }
    hide RunS;
    if st.AmReceive? {
      ReceiveStep(s, st.started, st.targets, st.own);
    } else {
      AmbUntouched(s, AmProtocol.Take(s, st));
    }
  }

  /** Receiving a request leaves the open requests alone, but for one the manager may put on
      its own queue. */
  lemma {:induction false} ReceiveStep(s: State, started: bool, targets: set<nat>, own: bool)
    requires AmbSide(s) && s.amQueue != [] && |s.handles| == |s.names| && s.am.AmIdle?
    ensures AmbSide(ReceiveS(s, started, targets, own))
  {
    hide AmbSide;
    var t := ReceiveS(s, started, targets, own);
    ReceiveOpen(s, started, targets, own);
    hide ReceiveS;
    if Open(t) == Open(s) { AmbUntouched(s, t); } else { AmbQueued(s, t, s.amQueue[0].req.inner); }
  }

  lemma {:induction false} ReceiveOpen(s: State, started: bool, targets: set<nat>, own: bool)
    requires s.amQueue != [] && |s.handles| == |s.names| && s.am.AmIdle?
    ensures var t := ReceiveS(s, started, targets, own);
      && t.callers == s.callers && t.ambFree == s.ambFree && t.next == s.next && t.log == s.log
      && Open(t) == Open(s) + (if s.amQueue[0].req.ToManager? && own then [AmMsg(s.amQueue[0].req.inner, None)] else [])
  {
    ReceiveFrame(s, started, targets, own);
    ReceiveQueue(s, started, targets, own);
    hide ReceiveS;
    var more := if s.amQueue[0].req.ToManager? && own then [AmMsg(s.amQueue[0].req.inner, None)] else [];
    assert [s.amQueue[0]] + (s.amQueue[1..] + more) == s.amQueue + more;
  }

  lemma {:induction false} ReceiveFrame(s: State, started: bool, targets: set<nat>, own: bool)
    requires s.amQueue != [] && |s.handles| == |s.names|
    ensures var t := ReceiveS(s, started, targets, own);
      && t.callers == s.callers && t.ambFree == s.ambFree && t.next == s.next && t.log == s.log
      && !t.am.AmIdle? && t.am.msg == s.amQueue[0]
  {
    PassFrame(s.(amQueue := s.amQueue[1..]), s.amQueue[0], targets, own);
    hide FindName, FindRunning, PassS;
  }

  lemma {:induction false} PassFrame(s: State, m: AmMsg, targets: set<nat>, own: bool)
    requires |s.handles| == |s.names|
    ensures var t := PassS(s, m, targets, own);
      && t == s.(am := t.am, amQueue := t.amQueue, apps := t.apps) && !t.am.AmIdle? && t.am.msg == m
      && t.amQueue == s.amQueue + (if m.req.ToManager? && own then [AmMsg(m.req.inner, None)] else [])
  {
    hide FindRunning, FirstRunning, PushAll, Recorded;
    assert s.amQueue + [] == s.amQueue;
  }

  /** The head is received; a message to the manager itself goes to the end of its queue. */
  lemma {:induction false} ReceiveQueue(s: State, started: bool, targets: set<nat>, own: bool)
    requires s.amQueue != [] && |s.handles| == |s.names|
    ensures ReceiveS(s, started, targets, own).amQueue
         == s.amQueue[1..] + (if s.amQueue[0].req.ToManager? && own then [AmMsg(s.amQueue[0].req.inner, None)] else [])
  {
    PassFrame(s.(amQueue := s.amQueue[1..]), s.amQueue[0], targets, own);
    hide FindName, FindRunning, PassS;
    assert s.amQueue[1..] + [] == s.amQueue[1..];
  }

  /** One more request that nobody waits for. */
  lemma {:induction false} AmbQueued(s: State, t: State, req: Request)
    requires AmbSide(s) && Open(t) == Open(s) + [AmMsg(req, None)]
    requires t.callers == s.callers && t.ambFree == s.ambFree && t.next == s.next && s.log <= t.log
    ensures AmbSide(t)
  {
    forall i | 0 <= i < |Open(t)| ensures TagAt(t, i) {
      if i < |Open(s)| { assert TagAt(s, i) && Open(t)[i] == Open(s)[i]; }
    }
    forall r | r in t.callers ensures CallerAt(t, r) { CallerKept(s, t, r); }
  }

  lemma {:induction false} RunOpen(s: State, h: nat, ok: bool)
    requires Enabled(s, AppRun(h, ok))
    ensures var t := RunS(s, h, ok);
      Open(t) == Open(s) && t.callers == s.callers && t.ambFree == s.ambFree && t.next == s.next && s.log <= t.log
  {}

  lemma {:induction false} BeginStep(s: State, req: Request)
    requires AmbSide(s) && |s.handles| == |s.names| && Enabled(s, Begin(req)) && s.callers == map[]
    ensures AmbSide(AmProtocol.Take(s, Begin(req)))
  {
    var t := AmProtocol.Take(s, Begin(req));
    assert Open(t) == Open(s);
    forall i | 0 <= i < |Open(t)| ensures TagAt(t, i) { assert TagAt(s, i); }
  }

  lemma {:induction false} SendStep(s: State, r: nat, accepted: bool)
    requires AmbSide(s) && |s.handles| == |s.names| && Enabled(s, Send(r, accepted))
    ensures AmbSide(AmProtocol.Take(s, Send(r, accepted)))
  {
    var t := AmProtocol.Take(s, Send(r, accepted));
    assert CallerAt(s, r);
    forall i | 0 <= i < |Open(s)| ensures Open(s)[i].tag.None? { assert TagAt(s, i); }
    forall i | 0 <= i < |Open(t)| ensures TagAt(t, i) {
      if i < |Open(s)| { assert TagAt(s, i) && Open(t)[i] == Open(s)[i]; }
    }
    if accepted {
      assert Open(t) == Open(s) + [AmMsg(s.callers[r].req, Some(r))];
      assert AskedAt(t, r, s.callers[r].req, |Open(s)|);
    } else {
      assert Open(t) == Open(s);
    }
  }

  lemma {:induction false} WakeStep(s: State, r: nat)
    requires AmbSide(s) && |s.handles| == |s.names| && Enabled(s, Wake(r))
    ensures AmbSide(AmProtocol.Take(s, Wake(r)))
  {
    var t := AmProtocol.Take(s, Wake(r));
    assert Open(t) == Open(s);
    forall i | 0 <= i < |Open(t)| ensures TagAt(t, i) { assert TagAt(s, i); }
  }

  lemma {:induction false} AsyncStep(s: State, req: Request)
    requires AmbSide(s) && |s.handles| == |s.names| && Enabled(s, Async(req))
    ensures AmbSide(AmProtocol.Take(s, Async(req)))
  {
    hide AmbSide;
    var t := AmProtocol.Take(s, Async(req));
    assert Open(t) == Open(s) + [AmMsg(req, None)];
    AmbQueued(s, t, req);
  }

  lemma {:induction false} ReplyStep(s: State)
    requires AmbSide(s) && |s.handles| == |s.names| && Enabled(s, AmReply)
    ensures AmbSide(AmProtocol.Take(s, AmReply))
  {
    var t := AmProtocol.Take(s, AmReply);
    hide OnRecord;
    assert Open(s)[0] == s.am.msg && Open(t) == Open(s)[1..] && TagAt(s, 0);
    if s.am.msg.tag.Some? { ReplyTagged(s, t); } else { ReplyUntagged(s, t); }
  }

  lemma {:induction false} ReplyTagged(s: State, t: State)
    requires AmbSide(s) && s.am.AmAnswer? && s.am.msg.tag.Some? && Open(t) == Open(s)[1..] && Open(s)[0] == s.am.msg
    requires s.am.msg.tag.value in s.callers && s.callers[s.am.msg.tag.value].Waiting?
    requires t.callers == s.callers[s.am.msg.tag.value := Waiting(s.am.msg.req, s.am.ok)]
    requires s.callers[s.am.msg.tag.value].req == s.am.msg.req
    requires t.ambFree && t.next == s.next && |t.log| == |s.log| + 1
    requires var e := t.log[|s.log|];
      e.Answered? && e.r == s.am.msg.tag.value && e.req == s.am.msg.req && e.ok == s.am.ok
    ensures AmbSide(t)
  {
    var r := s.am.msg.tag.value;
    assert AnsweredIn(t.log, r, s.am.msg.req, s.am.ok, |s.log|);
    assert CallerAt(s, r);
    assert r in t.callers && t.callers[r].Waiting?;
    forall i | 0 <= i < |Open(t)| ensures TagAt(t, i) { assert Open(t)[i] == Open(s)[i + 1] && Open(s)[0].tag.Some?; }
  }

  lemma {:induction false} ReplyUntagged(s: State, t: State)
    requires AmbSide(s) && s.am.AmAnswer? && s.am.msg.tag.None? && Open(t) == Open(s)[1..] && Open(s)[0] == s.am.msg
    requires t.callers == s.callers && t.ambFree == s.ambFree && t.next == s.next && t.log == s.log
    ensures AmbSide(t)
  {
    forall i | 0 <= i < |Open(t)| ensures TagAt(t, i) { assert Open(t)[i] == Open(s)[i + 1] && TagAt(s, i + 1); }
    forall r | r in t.callers ensures CallerAt(t, r) { LaterCaller(s, t, r); }
  }

  lemma {:induction false} LaterCaller(s: State, t: State, r: nat)
    requires r in s.callers && CallerAt(s, r) && t.callers == s.callers
    requires t.ambFree == s.ambFree && t.next == s.next && t.log == s.log
    requires |Open(s)| > 0 && Open(t) == Open(s)[1..] && Open(s)[0].tag.None?
    ensures CallerAt(t, r)
  {
    var c := s.callers[r];
    if c.Waiting? && !s.ambFree {
      var i: nat :| AskedAt(s, r, c.req, i);
      assert AskedAt(t, r, c.req, i - 1);
    }
  }

  /** Every step keeps the invariant, as long as there is one synchronous caller at a time. */
  lemma {:induction false} StepInv(s: State, st: Step)
    requires Inv(s) && Enabled(s, st) && Solo(s, st)
    ensures |s.handles| == |s.names| && Inv(AmProtocol.Take(s, st))
  {
    hide AmSide, AmbSide;
    Lengths(s);
    AmSideKept(s, st);
    match st
    case Begin(req) => BeginStep(s, req);
    case Send(r, accepted) => SendStep(s, r, accepted);
    case Wake(r) => WakeStep(s, r);
    case Async(req) => AsyncStep(s, req);
    case AmReply => ReplyStep(s);
    case Post(_) => ManagerStep(s, st);
    case AmReceive(_, _, _) => ManagerStep(s, st);
    case AmSendExit(_) => ManagerStep(s, st);
    case AmWake => ManagerStep(s, st);
    case AppRun(_, _) => ManagerStep(s, st);
    case AppNotify(_) => ManagerStep(s, st);
  }

  /** A run in which clients make their synchronous requests one at a time. */
  ghost predicate SoloRun(s: State, steps: seq<Step>, t: State)
    decreases steps
  {
    if steps == [] then t == s
    else
      && |s.handles| == |s.names| && Enabled(s, steps[0]) && Solo(s, steps[0])
      && SoloRun(AmProtocol.Take(s, steps[0]), steps[1..], t)
  }

  lemma {:induction false} SoloRunInv(s: State, steps: seq<Step>, t: State)
    requires Inv(s) && SoloRun(s, steps, t)
    ensures Inv(t)
    decreases steps
  {
    hide Inv;
    if steps != [] {
      StepInv(s, steps[0]);
      SoloRunInv(AmProtocol.Take(s, steps[0]), steps[1..], t);
    }
  }

  lemma {:induction false} InitInv()
    ensures Inv(AmProtocol.Init())
  {}

  // ---------- what clients may rely on ----------

  /** A client that passes the semaphore reads the answer to its own request. If it asked for
      a start and reads success, pf_init of that application returned OK before the answer
      was given, and when it was given the manager had the application's handle on record. */
  lemma {:induction false} WakesForOwnAnswer(s: State, r: nat) returns (i: nat)
    requires Inv(s) && Enabled(s, Wake(r))
    ensures AnsweredIn(s.log, r, s.callers[r].req, s.callers[r].ok, i)
    ensures s.callers[r].req.StartApp? && s.callers[r].ok ==>
      s.log[i].h != 0 && Inited(s.log[i].h, s.callers[r].req.name, true) in s.log[..i]
  {
    hide HandlesOk, AppsOk, AmOk;
    assert CallerAt(s, r);
    i :| AnsweredIn(s.log, r, s.callers[r].req, s.callers[r].ok, i);
    assert AnswerAt(s.log, i);
  }

  /** Both semaphores are locked between requests. */
  lemma {:induction false} LockedBetween(s: State)
    requires Inv(s)
    ensures (forall r :: r in s.callers ==> !s.callers[r].Waiting?) ==> !s.ambFree
    ensures !Waits(s.am) ==> !s.amFree
  {}

  /** When the manager learns how a start ended: the answer is what pf_init returned, and the
      handle is on record, and the thread alive, exactly if that was OK. */
  lemma {:induction false} StartOutcome(s: State)
    requires Inv(s) && Enabled(s, AmWake) && s.am.AmWaitInit? && |s.handles| == |s.names|
    ensures var t, k, h := AmProtocol.Take(s, AmWake), s.am.k, s.handles[s.am.k];
      && t.am == AmAnswer(s.am.msg, s.amOk) && s.am.msg.req == StartApp(s.names[k])
      && h != 0 && h <= |t.apps| && Inited(h, s.names[k], s.amOk) in t.log
      && t.handles == s.handles[k := if s.amOk then h else 0] && t.apps == s.apps && t.apps[h - 1].alive == s.amOk
  {
    assert RunningAt(s, s.am.k);
  }

  /** When it learns how an exit ended, it answers OK and drops the handle whatever pf_exit
      returned: if that was not OK the application runs on and no request can name it. */
  lemma {:induction false} ExitOutcome(s: State)
    requires Inv(s) && Enabled(s, AmWake) && s.am.AmWaitExit? && |s.handles| == |s.names|
    ensures var t, k, h := AmProtocol.Take(s, AmWake), s.am.k, s.handles[s.am.k];
      && t.am == AmAnswer(s.am.msg, true) && h != 0 && h <= |t.apps| && t.apps[h - 1].alive == !s.amOk
      && s.am.msg.req == ExitApp(s.names[k]) && Exited(h, s.names[k], s.amOk) in t.log
      && t.handles == s.handles[k := 0] && t.apps == s.apps && forall j :: 0 <= j < |t.handles| ==> t.handles[j] != h
  {
    assert RunningAt(s, s.am.k);
  }

  /** A broadcast appends one message to the queue of each running application that accepts it
      and to no other. The answer tells only whether the running application registered first,
      which is the last one tried, accepted: OK if none is running. */
  lemma {:induction false} BroadcastOutcome(s: State, targets: set<nat>)
    requires Inv(s) && s.am.AmIdle? && s.amQueue != [] && s.amQueue[0].req == Broadcast && |s.handles| == |s.names|
    ensures var t := ReceiveS(s, false, targets, false);
      && t.am.AmAnswer? && t.handles == s.handles && |t.apps| == |s.apps|
      && (t.am.ok <==> forall k :: 0 <= k < |s.handles| && FirstAt(s.handles, k) ==> s.handles[k] in targets)
      && (forall h :: 1 <= h <= |s.apps| ==>
            t.apps[h - 1] == if h in s.handles && h in targets then Push(s.apps[h - 1], PlainMsg) else s.apps[h - 1])
  {
    OnRecordAlive(s);
    hide Inv;
    var t := ReceiveS(s, false, targets, false);
    assert t.apps == PushAll(s.apps, Recorded(s, targets));
    var first := FirstRunning(s.handles);
    assert t.am == AmAnswer(s.amQueue[0], first == |s.handles| || s.handles[first] in targets);
    hide ReceiveS, PushAll;
    assert forall k :: 0 <= k < |s.handles| && FirstAt(s.handles, k) ==> k == FirstRunning(s.handles);
    if FirstRunning(s.handles) < |s.handles| { assert FirstAt(s.handles, FirstRunning(s.handles)); }
  }

  /** While the manager is idle every application on record is alive. */
  lemma {:induction false} OnRecordAlive(s: State)
    requires Inv(s) && s.am.AmIdle?
    ensures forall h :: 1 <= h <= |s.apps| && h in s.handles ==> s.apps[h - 1].alive
  {
    forall h | 1 <= h <= |s.apps| && h in s.handles ensures s.apps[h - 1].alive {
      var k := Position(s.handles, h);
      assert RunningAt(s, k);
    }
  }

  /** Application k is running and none registered before it is. */
  predicate FirstAt(handles: seq<nat>, k: nat)
    requires k < |handles|
  {
    handles[k] != 0 && forall j :: 0 <= j < k ==> handles[j] == 0
  }

  // ---------- no deadlock ----------

  /** Steps of the manager, the applications and woken clients. */
  predicate Internal(st: Step) {
    st.AmReceive? || st.AmSendExit? || st.AmWake? || st.AmReply? || st.AppRun? || st.AppNotify? || st.Wake?
  }

  /** While a client waits or the manager is busy, somebody can move. */
  lemma {:induction false} NoDeadlock(s: State) returns (st: Step)
    requires Inv(s) && (!s.am.AmIdle? || exists r :: r in s.callers && s.callers[r].Waiting?)
    ensures Internal(st) && Enabled(s, st)
  {
    match s.am
    case AmIdle =>
      var r :| r in s.callers && s.callers[r].Waiting?;
      assert CallerAt(s, r);
      if s.ambFree { st := Wake(r); }
      else {
        var i: nat :| AskedAt(s, r, s.callers[r].req, i);
        st := AmReceive(false, {}, false);
      }
    case AmTryExit(_, _, _) => st := AmSendExit(false);
    case AmAnswer(_, _) => st := AmReply;
    case AmWaitInit(_, k) => st := WaitMoves(s);
    case AmWaitExit(_, k) => st := WaitMoves(s);
  }

  lemma {:induction false} WaitMoves(s: State) returns (st: Step)
    requires AmSide(s) && Waits(s.am)
    ensures Internal(st) && Enabled(s, st)
  {
    var h := s.handles[s.am.k];
    if s.amFree { st := AmWake; }
    else if s.apps[h - 1].note.Some? { st := AppNotify(h); }
    else {
      var i: nat :| OwesAt(s.apps[h - 1], WaitedFor(s.am), i);
      st := AppRun(h, true);
    }
  }

  function PcRank(pc: AmPc): nat {
    match pc
    case AmIdle => 0
    case AmAnswer(_, _) => 1
    case AmWaitInit(_, _) => 2
    case AmWaitExit(_, _) => 2
    case AmTryExit(_, _, tries) => 3 + (if tries <= RETRIES then RETRIES - tries else 0)
  }

  function AppWork(apps: seq<App>): nat {
    if apps == [] then 0
    else AppWork(apps[..|apps| - 1]) + 2 * |apps[|apps| - 1].queue| + (if apps[|apps| - 1].note.Some? then 1 else 0)
  }

  lemma {:induction false} AppWorkPut(apps: seq<App>, i: nat, a: App)
    requires i < |apps|
    ensures AppWork(apps[i := a]) == AppWork(apps) - AppWork([apps[i]]) + AppWork([a])
  {
    var n := |apps| - 1;
    if i == n {
      assert apps[i := a][..n] == apps[..n];
    } else {
      assert apps[i := a][..n] == apps[..n][i := a];
      AppWorkPut(apps[..n], i, a);
    }
  }

  /** A request, with those it carries for the manager itself. */
  function Size(req: Request): nat {
    if req.ToManager? then 1 + Size(req.inner) else 1
  }

  function QueueWork(q: seq<AmMsg>): nat {
    if q == [] then 0 else Size(q[0].req) + QueueWork(q[1..])
  }

  lemma {:induction false} QueueWorkAppend(q: seq<AmMsg>, m: AmMsg)
    ensures QueueWork(q + [m]) == QueueWork(q) + Size(m.req)
  {
    if q == [] {
      assert [] + [m] == [m] && [m][1..] == [];
    } else {
      assert (q + [m])[1..] == q[1..] + [m];
      QueueWorkAppend(q[1..], m);
    }
  }

  /** What is left to do: requests to receive, the manager's own steps, callbacks and
      notifications, clients to return; compared in that order. */
  ghost predicate Less(t: State, s: State) {
    || QueueWork(t.amQueue) < QueueWork(s.amQueue)
    || (t.amQueue == s.amQueue && PcRank(t.am) < PcRank(s.am))
    || (t.amQueue == s.amQueue && t.am == s.am && AppWork(t.apps) < AppWork(s.apps))
    || (t.amQueue == s.amQueue && t.am == s.am && t.apps == s.apps && |t.callers| < |s.callers|)
  }

  /** Every such step leaves less to do, so with no further calls from outside every schedule
      comes to rest, and by NoDeadlock then no client waits. */
  lemma {:induction false} InternalStepsEnd(s: State, st: Step)
    requires Inv(s) && Internal(st) && Enabled(s, st) && |s.handles| == |s.names|
    ensures Less(AmProtocol.Take(s, st), s)
  {
    hide AmbSide, RunS, ReceiveS, AppWork, QueueWork;
    match st
    case AmReceive(started, targets, own) => ReceiveLess(s, started, targets, own);
    case AppRun(h, ok) => RunLess(s, h, ok);
    case AppNotify(h) => NotifyLess(s, h);
    case Wake(r) =>
    case AmSendExit(_) =>
    case AmWake =>
    case AmReply =>
  }

  lemma {:induction false} RunLess(s: State, h: nat, ok: bool)
    requires Enabled(s, AppRun(h, ok))
    ensures Less(RunS(s, h, ok), s)
  {
    var a := RunS(s, h, ok).apps[h - 1];
    RunOne(s, h, ok);
    AppWorkPut(s.apps, h - 1, a);
    OneApp(a);
    OneApp(s.apps[h - 1]);
    hide RunS, AppWork;
  }

  lemma {:induction false} OneApp(a: App)
    ensures AppWork([a]) == 2 * |a.queue| + (if a.note.Some? then 1 else 0)
  {
    assert [a][..0] == [];
  }

  lemma {:induction false} RunOne(s: State, h: nat, ok: bool)
    requires Enabled(s, AppRun(h, ok))
    ensures RunS(s, h, ok).amQueue == s.amQueue && RunS(s, h, ok).am == s.am
    ensures var q, p := RunS(s, h, ok).apps, s.apps;
      |q| == |p| && q == p[h - 1 := q[h - 1]] && |q[h - 1].queue| == |p[h - 1].queue| - 1
  {}

  lemma {:induction false} NotifyLess(s: State, h: nat)
    requires Enabled(s, AppNotify(h)) && |s.handles| == |s.names|
    ensures Less(AmProtocol.Take(s, AppNotify(h)), s)
  {
    AppWorkPut(s.apps, h - 1, s.apps[h - 1].(note := None, alive := !s.apps[h - 1].note.value.ends));
  }

  lemma {:induction false} ReceiveLess(s: State, started: bool, targets: set<nat>, own: bool)
    requires s.amQueue != [] && |s.handles| == |s.names|
    ensures QueueWork(ReceiveS(s, started, targets, own).amQueue) < QueueWork(s.amQueue)
  {
    var m := s.amQueue[0];
    ReceiveQueue(s, started, targets, own);
    hide ReceiveS;
    if m.req.ToManager? { QueueWorkAppend(s.amQueue[1..], AmMsg(m.req.inner, None)); }
    assert s.amQueue[1..] + [] == s.amQueue[1..];
  }

  /** A client that asked and waits is answered: there are steps, none of them a call from
      outside, after which no client waits. */
  lemma {:induction false} EveryCallReturns(s: State) returns (steps: seq<Step>, t: State)
    requires Inv(s)
    ensures SoloRun(s, steps, t) && (forall i :: 0 <= i < |steps| ==> Internal(steps[i]))
    ensures t.am.AmIdle? && forall r :: r in t.callers ==> !t.callers[r].Waiting?
    decreases QueueWork(s.amQueue), PcRank(s.am), AppWork(s.apps), |s.callers|
  {
    if s.am.AmIdle? && forall r :: r in s.callers ==> !s.callers[r].Waiting? {
      return [], s;
    }
    var st := NoDeadlock(s);
    StepInv(s, st);
    InternalStepsEnd(s, st);
    hide Inv, AmProtocol.Take, Enabled;
    var rest;
    rest, t := EveryCallReturns(AmProtocol.Take(s, st));
    steps := [st] + rest;
    assert steps[1..] == rest;
  }

  // ---------- two synchronous callers at once ----------

  /** Whenever the manager is about to answer r while another client waits, that client can
      pass the semaphore in its place and return OK, though its own request is unanswered. */
  lemma {:induction false} WrongCallerWakes(s: State, r: nat, q: nat)
    requires |s.handles| == |s.names| && s.am.AmAnswer? && s.am.msg.tag == Some(r)
    requires q != r && q in s.callers && s.callers[q] == Waiting(s.callers[q].req, true)
    requires forall e :: e in s.log && e.Answered? ==> e.r != q
    ensures var s1 := AmProtocol.Take(s, AmReply);
      && Enabled(s, AmReply) && Enabled(s1, Wake(q))
      && var t := AmProtocol.Take(s1, Wake(q));
         && Returned(q, s.callers[q].req, true) in t.log && (forall e :: e in t.log && e.Answered? ==> e.r != q)
         && q !in t.callers && t.amQueue == s.amQueue
  {
    var s1 := AmProtocol.Take(s, AmReply);
    var t := AmProtocol.Take(s1, Wake(q));
    assert t.log[|t.log| - 1] == Returned(q, s.callers[q].req, true);
  }

  /** It does happen: while one thread registers "a", another starts it and is told that the
      start succeeded, before the manager has received the request and without pf_init. */
  lemma {:induction false} StartReportedTooEarly() returns (steps: seq<Step>, t: State)
    ensures Runs(AmProtocol.Init(), steps, t)
    ensures Returned(1, StartApp("a"), true) in t.log
    ensures forall h, ok :: Inited(h, "a", ok) !in t.log
    ensures 1 !in t.callers && t.amQueue == [AmMsg(StartApp("a"), Some(1))] && t.am.AmIdle? && |t.handles| == |t.names|
  {
    var reg, start := Register("a"), StartApp("a");
    steps, t := [], AmProtocol.Init();
    steps, t := Then(steps, t, Begin(reg));
    steps, t := Then(steps, t, Send(0, true));
    steps, t := Then(steps, t, Begin(start));
    steps, t := Then(steps, t, Send(1, true));
    steps, t := Then(steps, t, AmReceive(false, {}, false));
    steps, t := Then(steps, t, AmReply);
    steps, t := Then(steps, t, Wake(1));
    assert t.log[1] == Returned(1, start, true) && t.amQueue[0] == AmMsg(start, Some(1));
  }

  /** The manager is about to notify a call that has returned: the notification writes through
      the address of a result that is no longer there. */
  predicate Stale(s: State) {
    s.am.AmAnswer? && s.am.msg.tag.Some? && s.am.msg.tag.value !in s.callers
  }

  /** With one synchronous client at a time that cannot be. */
  lemma {:induction false} NeverStale(s: State)
    requires Inv(s)
    ensures !Stale(s)
  {
    if s.am.AmAnswer? {
      assert Open(s)[0] == s.am.msg;
      assert TagAt(s, 0);
    }
  }

  /** With two it is the next thing to come after the start was reported too early. */
  lemma {:induction false} StaleReply() returns (steps: seq<Step>, t: State)
    ensures Runs(AmProtocol.Init(), steps, t) && Stale(t) && Enabled(t, AmReply)
  {
    hide Runs;
    steps, t := StartReportedTooEarly();
    steps, t := Then(steps, t, AmReceive(false, {}, false));
  }

  /** And an exit is answered with OK while the application lives on, with no handle on record:
      "a" is registered, started, and told to exit; its pf_exit fails. */
  lemma {:induction false} ExitedButAlive() returns (steps: seq<Step>, t: State)
    ensures Runs(AmProtocol.Init(), steps, t)
    ensures Returned(2, ExitApp("a"), true) in t.log
    ensures |t.apps| == 1 && t.apps[0] == App("a", [], None, true) && t.handles == [0] && t.callers == map[]
  {
    hide Runs;
    steps := ReachExiting();
    t := Exiting();
    assert [ExitMsg][1..] == [];
    steps, t := Then(steps, t, AppRun(1, false));
    steps, t := Then(steps, t, AppNotify(1));
    steps, t := Then(steps, t, AmWake);
    steps, t := Then(steps, t, AmReply);
    steps, t := Then(steps, t, Wake(2));
    assert t.log[|t.log| - 1] == Returned(2, ExitApp("a"), true);
  }

  /** "a" is registered. */
  function Known(): State {
    AmProtocol.Init().(next := 1, regs := {"a"}, names := ["a"], handles := [0],
                       log := [Answered(0, Register("a"), true, 0), Returned(0, Register("a"), true)])
  }

  /** "a" is registered and running. */
  function Started(): State {
    Known().(next := 2, amOk := true, handles := [1], apps := [App("a", [], None, true)],
             log := Known().log
                    + [Inited(1, "a", true), Answered(1, StartApp("a"), true, 1), Returned(1, StartApp("a"), true)])
  }

  /** The manager waits for "a" to be initialised, and to exit. */
  function Starting(): State {
    Known().(next := 2, callers := map[1 := Waiting(StartApp("a"), true)],
             am := AmWaitInit(AmMsg(StartApp("a"), Some(1)), 0),
             handles := [1], apps := [App("a", [InitMsg], None, true)])
  }

  function Exiting(): State {
    Started().(next := 3, callers := map[2 := Waiting(ExitApp("a"), true)],
               am := AmWaitExit(AmMsg(ExitApp("a"), Some(2)), 0),
               amOk := false, apps := [App("a", [ExitMsg], None, true)])
  }

  lemma {:induction false} ReachKnown() returns (steps: seq<Step>)
    ensures Runs(AmProtocol.Init(), steps, Known())
  {
    var t := AmProtocol.Init();
    assert Runs(t, [], t);
    hide Runs;
    steps, t := Then([], t, Begin(Register("a")));
    steps, t := Then(steps, t, Send(0, true));
    steps, t := Then(steps, t, AmReceive(false, {}, false));
    steps, t := Then(steps, t, AmReply);
    steps, t := Then(steps, t, Wake(0));
    assert t == Known();
  }

  lemma {:induction false} ReachStarting() returns (steps: seq<Step>)
    ensures Runs(AmProtocol.Init(), steps, Starting())
  {
    hide Runs;
    var t := Known();
    steps := ReachKnown();
    steps, t := Then(steps, t, Begin(StartApp("a")));
    steps, t := Then(steps, t, Send(1, true));
    steps, t := Then(steps, t, AmReceive(true, {}, false));
    assert t.callers == map[1 := Waiting(StartApp("a"), true)];
    assert t == Starting();
  }

  lemma {:induction false} ReachStarted() returns (steps: seq<Step>)
    ensures Runs(AmProtocol.Init(), steps, Started())
  {
    hide Runs;
    var t := Starting();
    steps := ReachStarting();
    assert [InitMsg][1..] == [];
    steps, t := Then(steps, t, AppRun(1, true));
    steps, t := Then(steps, t, AppNotify(1));
    steps, t := Then(steps, t, AmWake);
    steps, t := Then(steps, t, AmReply);
    steps, t := Then(steps, t, Wake(1));
    assert t.log == Started().log && t.callers == map[];
    assert t == Started();
  }

  lemma {:induction false} ReachExiting() returns (steps: seq<Step>)
    ensures Runs(AmProtocol.Init(), steps, Exiting())
  {
    hide Runs;
    var t := Started();
    steps := ReachStarted();
    assert [] + [ExitMsg] == [ExitMsg];
    steps, t := Then(steps, t, Begin(ExitApp("a")));
    steps, t := Then(steps, t, Send(2, true));
    steps, t := Then(steps, t, AmReceive(false, {}, false));
    steps, t := Then(steps, t, AmSendExit(true));
    assert t.callers == map[2 := Waiting(ExitApp("a"), true)];
    assert t == Exiting();
  }

  lemma {:induction false} Then(steps: seq<Step>, s: State, st: Step) returns (more: seq<Step>, t: State)
    requires Runs(AmProtocol.Init(), steps, s) && Enabled(s, st) && |s.handles| == |s.names|
    ensures more == steps + [st] && t == AmProtocol.Take(s, st) && Runs(AmProtocol.Init(), more, t)
  {
    more, t := steps + [st], AmProtocol.Take(s, st);
    RunsAppend(AmProtocol.Init(), steps, s, st);
  }

  lemma {:induction false} RunsAppend(s: State, steps: seq<Step>, t: State, st: Step)
    requires Runs(s, steps, t) && Enabled(t, st) && |t.handles| == |t.names|
    ensures Runs(s, steps + [st], AmProtocol.Take(t, st))
    decreases steps
  {
    if steps != [] {
      RunsAppend(AmProtocol.Take(s, steps[0]), steps[1..], t, st);
      assert (steps + [st])[1..] == steps[1..] + [st];
    }
  }
}
