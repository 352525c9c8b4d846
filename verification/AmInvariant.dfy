/** What every interleaving of the start and exit protocol keeps. */
module AmInvariant {
  import opened Seqs
  import opened AmProtocol

  // ---------- the manager and the applications ----------

  predicate Waits(pc: AmPc) {
    pc.AmWaitInit? || pc.AmWaitExit?
  }

  ghost predicate AllPlain(q: seq<AppMsg>) {
    forall i :: 0 <= i < |q| ==> q[i] == PlainMsg
  }

  /** Nothing the manager waits for is with this application. */
  ghost predicate Quiet(a: App) {
    a.note.None? && AllPlain(a.queue)
  }

  /** The message at position i, and no other, is one the manager waits for. */
  ghost predicate OwesAt(a: App, m: AppMsg, i: nat) {
    i < |a.queue| && a.queue[i] == m && forall j :: 0 <= j < |a.queue| && j != i ==> a.queue[j] == PlainMsg
  }

  /** The application has message m to handle, or has handled it and is about to say so. */
  ghost predicate Owes(a: App, m: AppMsg) {
    && a.alive
    && if a.note.None? then exists i: nat :: OwesAt(a, m, i)
       else AllPlain(a.queue) && a.note.value.ends == (a.note.value.ok == m.ExitMsg?)
  }

  function WaitedFor(pc: AmPc): AppMsg {
    if pc.AmWaitInit? then InitMsg else ExitMsg
  }

  /** The manager's semaphore is free exactly if what it waits for has happened; the only
      application with anything to tell it is the one it waits for. */
  ghost predicate AppsOk(s: State) {
    if Waits(s.am) then
      && s.am.k < |s.handles| && 1 <= s.handles[s.am.k] <= |s.apps|
      && (forall j :: 0 <= j < |s.apps| && j + 1 != s.handles[s.am.k] ==> Quiet(s.apps[j]))
      && var a := s.apps[s.handles[s.am.k] - 1];
         if s.amFree then Quiet(a) && a.alive == (s.amOk == s.am.AmWaitInit?) else Owes(a, WaitedFor(s.am))
    else
      !s.amFree && forall j :: 0 <= j < |s.apps| ==> Quiet(s.apps[j])
  }

  /** The thread of application k is known to be running. */
  ghost predicate RunningAt(s: State, k: nat)
    requires k < |s.handles| == |s.names|
  {
    s.handles[k] != 0 ==>
      && s.handles[k] <= |s.apps| && s.apps[s.handles[k] - 1].name == s.names[k]
      && ((Waits(s.am) && s.am.k == k && s.amFree) || s.apps[s.handles[k] - 1].alive)
  }

  /** pf_init of every recorded application, other than one being started, returned OK. */
  ghost predicate InitedAt(s: State, k: nat)
    requires k < |s.handles| == |s.names|
  {
    s.handles[k] != 0 && !(s.am.AmWaitInit? && s.am.k == k) ==> Inited(s.handles[k], s.names[k], true) in s.log
  }

  ghost predicate HandlesOk(s: State) {
    && |s.handles| == |s.names|
    && (forall k :: 0 <= k < |s.handles| ==> RunningAt(s, k) && InitedAt(s, k))
    && (forall i, j :: 0 <= i < j < |s.handles| && s.handles[i] != 0 ==> s.handles[i] != s.handles[j])
  }

  /** What is known of the application the manager is starting, exiting or has just started. */
  ghost predicate AmOk(s: State)
    requires |s.handles| == |s.names|
  {
    match s.am
    case AmIdle => true
    case AmWaitInit(m, k) =>
      && m.req.StartApp? && k == FindName(s.names, m.req.name) < |s.handles|
      && s.handles[k] != 0 && s.handles[k] <= |s.apps|
      && var h := s.handles[k];
      && (s.amFree ==> Inited(h, s.names[k], s.amOk) in s.log)
      && (!s.amFree && s.apps[h - 1].note.Some? ==> Inited(h, s.names[k], s.apps[h - 1].note.value.ok) in s.log)
    case AmTryExit(m, k, tries) =>
      m.req.ExitApp? && k < |s.handles| && s.handles[k] != 0 && s.names[k] == m.req.name && tries <= RETRIES
    case AmWaitExit(m, k) =>
      && m.req.ExitApp? && k < |s.handles| && s.handles[k] != 0 && s.names[k] == m.req.name
      && s.handles[k] <= |s.apps|
      && var h := s.handles[k];
      && (s.amFree ==> Exited(h, s.names[k], s.amOk) in s.log)
      && (!s.amFree && s.apps[h - 1].note.Some? ==> Exited(h, s.names[k], s.apps[h - 1].note.value.ok) in s.log)
    case AmAnswer(m, ok) => m.req.StartApp? && ok ==> OnRecord(s, m.req) != 0
  }

  /** A start was answered with OK only for an application whose pf_init had returned OK and
      whose handle was then on record. */
  ghost predicate AnswerAt(log: seq<Event>, i: nat)
    requires i < |log|
  {
    log[i].Answered? && log[i].req.StartApp? && log[i].ok ==>
      log[i].h != 0 && Inited(log[i].h, log[i].req.name, true) in log[..i]
  }

  ghost predicate LogOk(log: seq<Event>) {
    forall i :: 0 <= i < |log| ==> AnswerAt(log, i)
  }

  ghost predicate AmSide(s: State) {
    HandlesOk(s) && AppsOk(s) && AmOk(s) && LogOk(s.log)
  }

  lemma {:induction false} LogAppend(log: seq<Event>, e: Event)
    requires LogOk(log)
    requires e.Answered? && e.req.StartApp? && e.ok ==> e.h != 0 && Inited(e.h, e.req.name, true) in log
    ensures LogOk(log + [e])
    ensures forall x :: x in log ==> x in log + [e]
  {
    forall i | 0 <= i < |log + [e]| ensures AnswerAt(log + [e], i) {
      if i < |log| { assert AnswerAt(log, i); assert (log + [e])[..i] == log[..i]; }
      else { assert (log + [e])[..i] == log; }
    }
  }

  /** Steps that touch neither the manager nor the applications. */
  lemma {:induction false} Untouched(s: State, t: State)
    requires AmSide(s) && LogOk(t.log) && forall x :: x in s.log ==> x in t.log
    requires t.am == s.am && t.amFree == s.amFree && t.amOk == s.amOk
    requires t.names == s.names && t.handles == s.handles && t.apps == s.apps
    ensures AmSide(t)
  {
    forall k | 0 <= k < |t.handles| ensures RunningAt(t, k) && InitedAt(t, k) {
      assert RunningAt(s, k) && InitedAt(s, k);
    }
  }

  /** One more message nobody waits for. */
  lemma {:induction false} PushKeeps(a: App, m: AppMsg)
    ensures Quiet(a) ==> Quiet(Push(a, PlainMsg))
    ensures Owes(a, m) ==> Owes(Push(a, PlainMsg), m)
  {
    if Owes(a, m) && a.note.None? {
      var i: nat :| OwesAt(a, m, i);
      assert OwesAt(Push(a, PlainMsg), m, i);
    }
  }

  /** Plain messages were added to some applications. */
  lemma {:induction false} Posted(s: State, t: State)
    requires AmSide(s) && t == s.(apps := t.apps) && |t.apps| == |s.apps|
    requires forall j :: 0 <= j < |s.apps| ==> t.apps[j] == s.apps[j] || t.apps[j] == Push(s.apps[j], PlainMsg)
    ensures AmSide(t)
  {
    forall j, m | 0 <= j < |s.apps|
      ensures (Quiet(s.apps[j]) ==> Quiet(t.apps[j])) && (Owes(s.apps[j], m) ==> Owes(t.apps[j], m))
    {
      PushKeeps(s.apps[j], m);
    }
    hide Quiet, Owes;
    forall k | 0 <= k < |t.handles| ensures RunningAt(t, k) && InitedAt(t, k) {
      assert RunningAt(s, k) && InitedAt(s, k);
    }
  }

  lemma {:induction false} ReceiveStart(s: State, name: string, started: bool)
    requires AmSide(s) && s.am.AmIdle? && s.amQueue != [] && s.amQueue[0].req == StartApp(name)
    ensures AmSide(ReceiveS(s, started, {}, false))
  {
    var k := FindName(s.names, name);
    var t := ReceiveS(s, started, {}, false);
    if t.am.AmWaitInit? {
      forall j | 0 <= j < |s.handles| ensures RunningAt(t, j) && InitedAt(t, j) && s.handles[j] <= |s.apps| {
        assert RunningAt(s, j) && InitedAt(s, j);
      }
      assert OwesAt(t.apps[|s.apps|], InitMsg, 0);
    } else {
      SameRecord(s, t);
    }
  }

  lemma {:induction false} SameRecord(s: State, t: State)
    requires AmSide(s) && !Waits(s.am) && !Waits(t.am)
    requires t.amFree == s.amFree && t.names == s.names && t.handles == s.handles
    requires t.apps == s.apps && t.log == s.log && AmOk(t)
    ensures AmSide(t)
  {
    forall j | 0 <= j < |s.handles| ensures RunningAt(t, j) && InitedAt(t, j) {
      assert RunningAt(s, j) && InitedAt(s, j);
    }
  }

  lemma {:induction false} ReceiveOther(s: State, started: bool, targets: set<nat>, own: bool)
    requires AmSide(s) && s.am.AmIdle? && s.amQueue != [] && !s.amQueue[0].req.StartApp?
    ensures AmSide(ReceiveS(s, started, targets, own))
  {
    var m := s.amQueue[0];
    var t := ReceiveS(s, started, targets, own);
    hide Quiet, Owes, LogOk, PushAll, Recorded;
    match m.req
    case Register(name) => Registered(s, name);
    case ExitApp(_) => SameRecord(s, t);
    case _ => PassKeeps(s, m, targets, own);
  }

  lemma {:induction false} PassKeeps(s: State, m: AmMsg, targets: set<nat>, own: bool)
    requires AmSide(s) && s.am.AmIdle? && s.amQueue != [] && !m.req.StartApp?
    ensures AmSide(PassS(s.(amQueue := s.amQueue[1..]), m, targets, own))
  {
    var t := PassS(s.(amQueue := s.amQueue[1..]), m, targets, own);
    hide Quiet, Owes, LogOk, PushAll, Recorded;
    match m.req
    case Broadcast => PassedOn(s, t, Recorded(s, targets));
    case Dispatch(name) =>
      var k := FindRunning(s.names, s.handles, name);
      if t.am.ok { PassedOn(s, t, {s.handles[k]}); } else { SameRecord(s, t); }
    case _ => SameRecord(s, t);
  }

  /** A message was passed on to some applications and the manager is about to answer. */
  lemma {:induction false} PassedOn(s: State, t: State, targets: set<nat>)
    requires AmSide(s) && s.am.AmIdle? && t.am.AmAnswer? && !t.am.msg.req.StartApp?
    requires t == s.(amQueue := t.amQueue, am := t.am, apps := PushAll(s.apps, targets))
    ensures AmSide(t)
  {
    hide Quiet, Owes, LogOk, PushAll;
    var s1 := s.(amQueue := t.amQueue, am := t.am);
    SameRecord(s, s1);
    Forwarded(s, targets);
    Posted(s1, t);
  }

  lemma {:induction false} Forwarded(s: State, targets: set<nat>)
    ensures var apps := PushAll(s.apps, targets);
      forall j :: 0 <= j < |s.apps| ==> apps[j] == s.apps[j] || apps[j] == Push(s.apps[j], PlainMsg)
  {}

  lemma {:induction false} Registered(s: State, name: string)
    requires AmSide(s) && s.am.AmIdle? && s.amQueue != [] && s.amQueue[0].req == Register(name)
    ensures AmSide(ReceiveS(s, false, {}, false))
  {
    hide Quiet, Owes, LogOk;
    var t := ReceiveS(s, false, {}, false);
    forall j | 0 <= j < |t.handles| ensures RunningAt(t, j) && InitedAt(t, j) {
      if j < |s.handles| { assert RunningAt(s, j) && InitedAt(s, j); }
    }
  }

  lemma {:induction false} SendExitKeeps(s: State, accepted: bool)
    requires AmSide(s) && Enabled(s, AmSendExit(accepted))
    ensures AmSide(AmProtocol.Take(s, AmSendExit(accepted)))
  {
    var t := AmProtocol.Take(s, AmSendExit(accepted));
    if accepted {
      var h := s.handles[s.am.k];
      assert OwesAt(t.apps[h - 1], ExitMsg, |s.apps[h - 1].queue|);
      forall j | 0 <= j < |t.handles| ensures RunningAt(t, j) && InitedAt(t, j) {
        assert RunningAt(s, j) && InitedAt(s, j);
      }
    } else {
      SameRecord(s, t);
    }
  }

  lemma {:induction false} WakeKeeps(s: State)
    requires AmSide(s) && Enabled(s, AmWake)
    ensures AmSide(AmProtocol.Take(s, AmWake))
  {
    var t := AmProtocol.Take(s, AmWake);
    var k := s.am.k;
    forall j | 0 <= j < |t.handles| ensures RunningAt(t, j) && InitedAt(t, j) {
      assert RunningAt(s, j) && InitedAt(s, j);
    }
  }

  lemma {:induction false} ReplyKeeps(s: State)
    requires AmSide(s) && Enabled(s, AmReply)
    ensures AmSide(AmProtocol.Take(s, AmReply))
  {
    var m := s.am.msg;
    var s1 := s.(am := AmIdle);
    var t := AmProtocol.Take(s, AmReply);
    SameRecord(s, s1);
    if m.tag.Some? {
      var k := if m.req.StartApp? then FindName(s.names, m.req.name) else 0;
      if m.req.StartApp? && s.am.ok { assert RunningAt(s, k) && InitedAt(s, k); }
      LogAppend(s.log, Answered(m.tag.value, m.req, s.am.ok, OnRecord(s, m.req)));
    }
    Untouched(s1, t);
  }

  /** A turn of an application's loop. */
  lemma {:induction false} RunKeepsApp(a: App, m: AppMsg, ok: bool)
    requires a.note.None? && a.queue != []
    ensures Quiet(a) ==> a.queue[0] == PlainMsg && Quiet(a.(queue := a.queue[1..]))
    ensures Owes(a, m) && !m.PlainMsg? ==>
      if a.queue[0] == PlainMsg then Owes(a.(queue := a.queue[1..]), m)
      else a.queue[0] == m && Owes(a.(queue := a.queue[1..], note := Some(Note(ok, ok == m.ExitMsg?))), m)
  {
    if Owes(a, m) && !m.PlainMsg? {
      var i: nat :| OwesAt(a, m, i);
      if i > 0 { assert OwesAt(a.(queue := a.queue[1..]), m, i - 1); }
    }
  }

  /** Which message an application with a turn to take has at its head. */
  lemma {:induction false} HeadMessage(s: State, h: nat)
    requires AmSide(s) && Enabled(s, AppRun(h, true))
    ensures s.apps[h - 1].queue[0] != PlainMsg ==>
      Waits(s.am) && !s.amFree && s.handles[s.am.k] == h && s.apps[h - 1].queue[0] == WaitedFor(s.am)
  {
    RunKeepsApp(s.apps[h - 1], WaitedFor(s.am), true);
  }

  lemma {:induction false} RunKeeps(s: State, h: nat, ok: bool)
    requires AmSide(s) && Enabled(s, AppRun(h, ok))
    ensures AmSide(RunS(s, h, ok))
  {
    var t := RunS(s, h, ok);
    HeadMessage(s, h);
    RunApps(s, h, ok);
    RunShape(s, h, ok);
    RunHandles(s, t);
    LogAppend(s.log, t.log[|s.log|]);
    assert AmOk(t) by {
      if Waits(s.am) { assert RunningAt(s, s.am.k); }
    }
  }

  lemma {:induction false} RunShape(s: State, h: nat, ok: bool)
    requires Enabled(s, AppRun(h, ok))
    ensures var t := RunS(s, h, ok); |t.apps| == |s.apps| && t == s.(apps := t.apps, log := t.log)
    ensures var t := RunS(s, h, ok);
      forall j :: 0 <= j < |s.apps| ==> t.apps[j].name == s.apps[j].name && t.apps[j].alive == s.apps[j].alive
    ensures var t := RunS(s, h, ok);
      |t.log| == |s.log| + 1 && t.log == s.log + [t.log[|s.log|]] && !t.log[|s.log|].Answered?
    ensures forall x :: x in s.log ==> x in RunS(s, h, ok).log
  {}

  lemma {:induction false} RunApps(s: State, h: nat, ok: bool)
    requires AppsOk(s) && Enabled(s, AppRun(h, ok))
    ensures AppsOk(RunS(s, h, ok))
  {
    RunKeepsApp(s.apps[h - 1], WaitedFor(s.am), ok);
    hide Quiet, Owes;
  }

  lemma {:induction false} RunHandles(s: State, t: State)
    requires HandlesOk(s) && t == s.(apps := t.apps, log := t.log) && |t.apps| == |s.apps|
    requires forall j :: 0 <= j < |s.apps| ==> t.apps[j].name == s.apps[j].name && t.apps[j].alive == s.apps[j].alive
    requires forall x :: x in s.log ==> x in t.log
    ensures HandlesOk(t)
  {
    forall j | 0 <= j < |t.handles| ensures RunningAt(t, j) && InitedAt(t, j) {
      assert RunningAt(s, j) && InitedAt(s, j);
    }
  }

  lemma {:induction false} NotifyKeeps(s: State, h: nat)
    requires AmSide(s) && Enabled(s, AppNotify(h))
    ensures AmSide(AmProtocol.Take(s, AppNotify(h)))
  {
    var t := AmProtocol.Take(s, AppNotify(h));
    assert Waits(s.am) && !s.amFree && s.handles[s.am.k] == h;
    forall j | 0 <= j < |t.handles| ensures RunningAt(t, j) && InitedAt(t, j) {
      assert RunningAt(s, j) && InitedAt(s, j);
    }
  }
}
