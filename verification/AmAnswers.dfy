/** What each request does and what each call returns, told by the records of the manager, the
    queues and the log alone. */
module AmAnswers {
  import opened Seqs
  import opened AmProtocol
  import opened AmInvariant
  import opened AmTheorems

  // ---------- what receiving a request does ----------

  /** The application registered first under this name. */
  predicate FirstNamed(names: seq<string>, name: string, k: nat) {
    k < |names| && names[k] == name && forall j :: 0 <= j < k ==> names[j] != name
  }

  /** The running application registered first under this name. */
  predicate FirstRunningAs(names: seq<string>, handles: seq<nat>, name: string, k: nat)
    requires |handles| == |names|
  {
    k < |names| && names[k] == name && handles[k] != 0
    && forall j :: 0 <= j < k ==> names[j] != name || handles[j] == 0
  }

  /** The name is registered, and the first application of that name has no handle on record. */
  ghost predicate Startable(s: State, name: string)
    requires |s.handles| == |s.names|
  {
    name in s.regs && exists k: nat :: FirstNamed(s.names, name, k) && s.handles[k] == 0
  }

  lemma {:induction false} OneFirst(names: seq<string>, handles: seq<nat>, name: string)
    requires |handles| == |names|
    ensures forall k: nat :: FirstNamed(names, name, k) <==> k < |names| && k == FindName(names, name)
    ensures forall k: nat ::
      FirstRunningAs(names, handles, name, k) <==> k < |names| && k == FindRunning(names, handles, name)
  {
    NoneBefore(names, handles, name);
    forall k: nat ensures FirstNamed(names, name, k) <==> k < |names| && k == FindName(names, name) {}
    forall k: nat
      ensures FirstRunningAs(names, handles, name, k) <==> k < |names| && k == FindRunning(names, handles, name)
    {}
  }

  lemma {:induction false} NoneBefore(names: seq<string>, handles: seq<nat>, name: string)
    requires |handles| == |names|
    ensures forall j :: 0 <= j < FindRunning(names, handles, name) ==> names[j] != name || handles[j] == 0
  {
    if names != [] && !(handles[0] != 0 && names[0] == name) {
      NoneBefore(names[1..], handles[1..], name);
      forall j | 0 <= j < FindRunning(names, handles, name) ensures names[j] != name || handles[j] == 0 {
        if j > 0 { assert names[j] == names[1..][j - 1] && handles[j] == handles[1..][j - 1]; }
      }
    }
  }

  /** A start creates one thread, with pf_init to run, exactly if the application may be started
      and u_app_start succeeds; its handle goes on record and the manager waits. In every other
      case, an application that is running among them, nothing is started or dropped. */
  lemma {:induction false} StartReceived(s: State, name: string, started: bool, targets: set<nat>, own: bool)
    requires |s.handles| == |s.names| && s.amQueue != [] && s.amQueue[0].req == StartApp(name)
    ensures var t, m := ReceiveS(s, started, targets, own), s.amQueue[0];
      && t.amQueue == s.amQueue[1..] && t.regs == s.regs && t.names == s.names && t.log == s.log
      && if Startable(s, name) && started then
           && t.apps == s.apps + [App(name, [InitMsg], None, true)]
           && t.am.AmWaitInit? && t.am.msg == m && FirstNamed(s.names, name, t.am.k)
           && t.handles == s.handles[t.am.k := |t.apps|] && !t.amOk
         else
           t.apps == s.apps && t.handles == s.handles && t.am == AmAnswer(m, false)
  {
    OneFirst(s.names, s.handles, name);
  }

  /** An exit waits only if an application of that name is running, the first that is; nothing
      changes for the applications yet. */
  lemma {:induction false} ExitReceived(s: State, name: string, started: bool, targets: set<nat>, own: bool)
    requires |s.handles| == |s.names| && s.amQueue != [] && s.amQueue[0].req == ExitApp(name)
    ensures var t, m := ReceiveS(s, started, targets, own), s.amQueue[0];
      && t.amQueue == s.amQueue[1..] && t.apps == s.apps && t.handles == s.handles && t.names == s.names
      && t.log == s.log
      && if t.am.AmTryExit? then t.am.tries == 0 && t.am.msg == m && FirstRunningAs(s.names, s.handles, name, t.am.k)
         else t.am == AmAnswer(m, false) && forall k: nat :: !FirstRunningAs(s.names, s.handles, name, k)
  {
    OneFirst(s.names, s.handles, name);
  }

  /** A dispatch is answered with OK exactly if the first running application of that name
      accepts it, and then one message joins that queue; it touches nothing else. */
  lemma {:induction false} DispatchOutcome(s: State, name: string, started: bool, targets: set<nat>, own: bool)
    requires Inv(s) && s.am.AmIdle? && s.amQueue != [] && s.amQueue[0].req == Dispatch(name)
    requires |s.handles| == |s.names|
    ensures var t := ReceiveS(s, started, targets, own);
      && t.am.AmAnswer? && t.am.msg == s.amQueue[0] && t.amQueue == s.amQueue[1..]
      && t.handles == s.handles && t.names == s.names && |t.apps| == |s.apps|
      && (t.am.ok <==> exists k: nat :: FirstRunningAs(s.names, s.handles, name, k) && s.handles[k] in targets)
      && (!t.am.ok ==> t.apps == s.apps)
      && (t.am.ok ==> forall k: nat, i :: 0 <= i < |s.apps| && FirstRunningAs(s.names, s.handles, name, k) ==>
           t.apps[i] == if i + 1 == s.handles[k] then Push(s.apps[i], PlainMsg) else s.apps[i])
  {
    OnRecordAlive(s);
    hide Inv;
    OneFirst(s.names, s.handles, name);
    hide FirstRunningAs, FirstNamed;
    var k := FindRunning(s.names, s.handles, name);
    if k < |s.names| {
      assert FirstRunningAs(s.names, s.handles, name, k);
      forall i | 0 <= i < |s.apps| && i + 1 == s.handles[k] ensures s.apps[i].alive {
        assert (i + 1) in s.handles && s.apps[(i + 1) - 1].alive;
      }
    }
  }

  /** Registering makes the application known, not running; a message to the manager itself goes
      to the end of its queue if that has room; an unknown type is refused. */
  lemma {:induction false} OthersReceived(s: State, started: bool, targets: set<nat>, own: bool)
    requires |s.handles| == |s.names| && s.amQueue != []
    requires var req := s.amQueue[0].req; req.Register? || req.ToManager? || req.Unknown?
    ensures var t, m := ReceiveS(s, started, targets, own), s.amQueue[0];
      && t.am == AmAnswer(m, m.req.Register? || (m.req.ToManager? && own)) && t.apps == s.apps && t.log == s.log
      && (m.req.Register? ==> t.names == s.names + [m.req.name] && t.handles == s.handles + [0])
      && (!m.req.Register? ==> t.names == s.names && t.handles == s.handles)
      && t.amQueue == s.amQueue[1..] + (if m.req.ToManager? && own then [AmMsg(m.req.inner, None)] else [])
  {
    assert s.amQueue[1..] + [] == s.amQueue[1..];
  }

  // ---------- retries ----------

  function Refusals(st: Step, n: nat): seq<Step> {
    seq(n, i => st)
  }

  /** An application that refuses the exit message ten times is tried once more; the eleventh
      refusal answers the request with failure and leaves the application and its record. */
  lemma {:induction false} ExitRefused(s: State, n: nat, t: State)
    requires |s.handles| == |s.names| && s.am.AmTryExit? && s.am.tries == 0 && 0 < n
    requires Runs(s, Refusals(AmSendExit(false), n), t)
    ensures n <= 11 && t == s.(am := if n == 11 then AmAnswer(s.am.msg, false) else AmTryExit(s.am.msg, s.am.k, n))
  {
    ExitRefusedFrom(s, n, t);
  }

  lemma {:induction false} ExitRefusedFrom(s: State, n: nat, t: State)
    requires |s.handles| == |s.names| && s.am.AmTryExit? && s.am.tries <= 10
    requires Runs(s, Refusals(AmSendExit(false), n), t)
    ensures s.am.tries + n <= 11
    ensures t == if s.am.tries + n == 11 then s.(am := AmAnswer(s.am.msg, false))
                 else s.(am := AmTryExit(s.am.msg, s.am.k, s.am.tries + n))
    decreases n
  {
    if n > 0 {
      var s1 := AmProtocol.Take(s, AmSendExit(false));
      assert Refusals(AmSendExit(false), n)[1..] == Refusals(AmSendExit(false), n - 1);
      if s1.am.AmTryExit? {
        ExitRefusedFrom(s1, n - 1, t);
      }
    }
  }

  /** One that accepts it has it at the end of its queue, and the manager waits. */
  lemma {:induction false} ExitSent(s: State)
    requires |s.handles| == |s.names| && Enabled(s, AmSendExit(true))
    ensures var t, h := AmProtocol.Take(s, AmSendExit(true)), s.handles[s.am.k];
      && t.am == AmWaitExit(s.am.msg, s.am.k) && t.handles == s.handles && |t.apps| == |s.apps|
      && forall i :: 0 <= i < |s.apps| ==>
           t.apps[i] == if i + 1 == h then Push(s.apps[i], ExitMsg) else s.apps[i]
  {}

  /** A call whose request the manager's queue refuses tries ten times more; the eleventh refusal
      returns failure. Accepted in time, exactly this request is queued and the caller waits. */
  lemma {:induction false} CallTries(s: State, req: Request, n: nat, t: State)
    requires |s.handles| == |s.names| && Enabled(s, Begin(req))
    requires Runs(AmProtocol.Take(s, Begin(req)), Refusals(Send(s.next, false), n), t)
    ensures n <= 11 && t.amQueue == s.amQueue && t.next == s.next + 1
    ensures t.regs == if req.Register? then s.regs + {req.name} else s.regs
    ensures n == 11 ==> t.log == s.log + [Returned(s.next, req, false)] && s.next !in t.callers
    ensures n < 11 ==> |t.handles| == |t.names| && t.log == s.log && Enabled(t, Send(s.next, true))
    ensures n < 11 ==>
      var u := AmProtocol.Take(t, Send(s.next, true));
      && u.amQueue == s.amQueue + [AmMsg(req, Some(s.next))] && u.log == s.log
      && s.next in u.callers && u.callers[s.next] == Waiting(req, true)
  {
    SendRefusedFrom(AmProtocol.Take(s, Begin(req)), s.next, n, t);
  }

  lemma {:induction false} SendRefusedFrom(s: State, r: nat, n: nat, t: State)
    requires |s.handles| == |s.names| && r in s.callers && s.callers[r].Sending? && s.callers[r].tries <= 10
    requires Runs(s, Refusals(Send(r, false), n), t)
    ensures s.callers[r].tries + n <= 11
    ensures t == if s.callers[r].tries + n == 11
                 then s.(callers := s.callers - {r}, log := s.log + [Returned(r, s.callers[r].req, false)])
                 else s.(callers := s.callers[r := Sending(s.callers[r].req, s.callers[r].tries + n)])
    decreases n
  {
    var st := Send(r, false);
    if n > 0 {
      var s1 := AmProtocol.Take(s, st);
      assert Refusals(st, n)[1..] == Refusals(st, n - 1);
      if r in s1.callers {
        SendRefusedFrom(s1, r, n - 1, t);
        assert s1.callers - {r} == s.callers - {r};
      }
    } else {
      assert s.callers == s.callers[r := s.callers[r]];
    }
  }

  /** What the manager answers a waiting client is what its call returns: the client can pass the
      semaphore at once, and nobody else holds an answer. */
  lemma {:induction false} AnswerReachesCaller(s: State, r: nat)
    requires Inv(s) && |s.handles| == |s.names| && Enabled(s, AmReply) && s.am.msg.tag == Some(r)
    ensures var t := AmProtocol.Take(s, AmReply);
      && t.am.AmIdle? && Enabled(t, Wake(r)) && |t.handles| == |t.names|
      && AmProtocol.Take(t, Wake(r)).log
           == s.log + [t.log[|s.log|], Returned(r, s.am.msg.req, s.am.ok)]
      && OkAt(t.log, r, s.am.msg.req, |s.log|) == s.am.ok
  {
    hide AmSide, OnRecord;
    assert Open(s)[0] == s.am.msg && TagAt(s, 0);
  }

  // ---------- what a call returns ----------

  ghost predicate OkAt(log: seq<Event>, r: nat, req: Request, j: nat) {
    j < |log| && log[j].Answered? && log[j].r == r && log[j].req == req && log[j].ok
  }

  /** Call r was answered with success before position n of the log. */
  ghost predicate OkBefore(log: seq<Event>, r: nat, req: Request, n: nat) {
    exists j: nat :: j < n && OkAt(log, r, req, j)
  }

  /** pf_exit of an application of that name has returned. */
  ghost predicate HasExited(log: seq<Event>, name: string) {
    exists i :: 0 <= i < |log| && log[i].Exited? && log[i].name == name
  }

  /** What a successful answer stands for: a start, that pf_init of the application whose handle
      was on record had returned OK; an exit, that pf_exit had returned. */
  ghost predicate Meant(log: seq<Event>, j: nat)
    requires j < |log|
  {
    log[j].Answered? && log[j].ok ==>
      && (log[j].req.StartApp? ==> log[j].h != 0 && Inited(log[j].h, log[j].req.name, true) in log[..j])
      && (log[j].req.ExitApp? ==> HasExited(log[..j], log[j].req.name))
  }

  /** A call returned success exactly if the manager had answered this call with success. */
  ghost predicate TrueReturn(log: seq<Event>, i: nat)
    requires i < |log|
  {
    log[i].Returned? ==> (log[i].ok <==> OkBefore(log, log[i].r, log[i].req, i))
  }

  /** An answer is to a call that was made; while the call is under way, it is the result the
      client will read. */
  ghost predicate AnswerKnown(s: State, j: nat)
    requires j < |s.log|
  {
    s.log[j].Answered? ==>
      && s.log[j].r < s.next
      && (s.log[j].r in s.callers ==>
            s.ambFree && s.callers[s.log[j].r].Waiting? && s.callers[s.log[j].r].ok == s.log[j].ok)
  }

  /** A call that returned is over, and returned once. */
  ghost predicate ReturnKnown(s: State, i: nat)
    requires i < |s.log|
  {
    s.log[i].Returned? ==>
      && s.log[i].r < s.next && s.log[i].r !in s.callers
      && forall k :: 0 <= k < i && s.log[k].Returned? ==> s.log[k].r != s.log[i].r
  }

  ghost predicate CallsOk(s: State) {
    && (forall i :: 0 <= i < |s.log| ==> AnswerKnown(s, i))
    && (forall i :: 0 <= i < |s.log| ==> ReturnKnown(s, i))
    && (forall i :: 0 <= i < |s.log| ==> TrueReturn(s.log, i))
  }

  lemma {:induction false} OkStill(log: seq<Event>, e: Event, r: nat, req: Request, n: nat)
    requires n <= |log|
    ensures OkBefore(log + [e], r, req, n) == OkBefore(log, r, req, n)
  {
    if OkBefore(log, r, req, n) {
      var j: nat :| j < n && OkAt(log, r, req, j);
      assert OkAt(log + [e], r, req, j);
    }
    if OkBefore(log + [e], r, req, n) {
      var j: nat :| j < n && OkAt(log + [e], r, req, j);
      assert OkAt(log, r, req, j);
    }
  }

  lemma {:induction false} TrueStill(log: seq<Event>, e: Event, i: nat)
    requires i < |log| && TrueReturn(log, i)
    ensures TrueReturn(log + [e], i)
  {
    if log[i].Returned? { OkStill(log, e, log[i].r, log[i].req, i); }
  }

  /** No call begins or ends and nothing is answered. */
  lemma {:induction false} CallsAside(s: State, t: State)
    requires CallsOk(s) && t.callers == s.callers && t.ambFree == s.ambFree && t.next == s.next
    requires t.log == s.log || exists e :: t.log == s.log + [e] && !e.Answered? && !e.Returned?
    ensures CallsOk(t)
  {
    if t.log != s.log {
      var e :| t.log == s.log + [e] && !e.Answered? && !e.Returned?;
      forall i | 0 <= i < |t.log| ensures AnswerKnown(t, i) && ReturnKnown(t, i) && TrueReturn(t.log, i) {
        if i < |s.log| { assert AnswerKnown(s, i) && ReturnKnown(s, i); TrueStill(s.log, e, i); }
      }
    } else {
      forall i | 0 <= i < |t.log| ensures AnswerKnown(t, i) && ReturnKnown(t, i) {
        assert AnswerKnown(s, i) && ReturnKnown(s, i);
      }
    }
  }

  /** Call r, the only one, returns what it holds. */
  lemma {:induction false} CallsReturn(s: State, t: State, r: nat, ok: bool)
    requires CallsOk(s) && r in s.callers && r < s.next && t.next == s.next && t.callers == map[]
    requires t.log == s.log + [Returned(r, s.callers[r].req, ok)]
    requires ok <==> OkBefore(s.log, r, s.callers[r].req, |s.log|)
    ensures CallsOk(t)
  {
    var e := t.log[|s.log|];
    OkStill(s.log, e, r, e.req, |s.log|);
    forall k | 0 <= k < |s.log| && s.log[k].Returned? ensures s.log[k].r != r { assert ReturnKnown(s, k); }
    forall i | 0 <= i < |t.log| ensures AnswerKnown(t, i) && ReturnKnown(t, i) && TrueReturn(t.log, i) {
      if i < |s.log| {
        assert AnswerKnown(s, i) && ReturnKnown(s, i);
        TrueStill(s.log, e, i);
      }
    }
  }

  /** The only client, waiting in call r, is answered. */
  lemma {:induction false} CallsAnswered(s: State, t: State, r: nat, e: Event)
    requires CallsOk(s) && !s.ambFree && r in s.callers && r < s.next && t.next == s.next
    requires e.Answered? && e.r == r && t.log == s.log + [e]
    requires t.ambFree && t.callers == s.callers[r := Waiting(s.callers[r].req, e.ok)]
    ensures CallsOk(t)
  {
    forall i | 0 <= i < |t.log| ensures AnswerKnown(t, i) && ReturnKnown(t, i) && TrueReturn(t.log, i) {
      if i < |s.log| { assert AnswerKnown(s, i) && ReturnKnown(s, i); TrueStill(s.log, e, i); }
    }
  }

  lemma {:induction false} ClientCalls(s: State, st: Step)
    requires Inv(s) && CallsOk(s) && Enabled(s, st) && (st.Begin? || st.Send? || st.Wake?) && |s.handles| == |s.names|
    ensures CallsOk(AmProtocol.Take(s, st))
  {
    var t := AmProtocol.Take(s, st);
    hide AmSide;
    if !st.Begin? {
      assert CallerAt(s, st.r);
      forall j | 0 <= j < |s.log| && s.log[j].Answered? && s.log[j].r == st.r
        ensures s.callers[st.r].Waiting? && s.callers[st.r].ok == s.log[j].ok
      {
        assert AnswerKnown(s, j);
      }
    }
    if t.log == s.log {
      forall i | 0 <= i < |t.log| ensures AnswerKnown(t, i) && ReturnKnown(t, i) {
        assert AnswerKnown(s, i) && ReturnKnown(s, i);
      }
    } else {
      var ok := if st.Wake? then s.callers[st.r].ok else false;
      if ok {
        var j: nat :| AnsweredIn(s.log, st.r, s.callers[st.r].req, true, j);
        assert OkAt(s.log, st.r, s.callers[st.r].req, j);
      }
      assert t.callers == map[];
      CallsReturn(s, t, st.r, ok);
    }
  }

  lemma {:induction false} ReplyCalls(s: State)
    requires Inv(s) && CallsOk(s) && Enabled(s, AmReply) && |s.handles| == |s.names|
    ensures CallsOk(AmProtocol.Take(s, AmReply))
  {
    var t := AmProtocol.Take(s, AmReply);
    assert Open(s)[0] == s.am.msg && TagAt(s, 0);
    hide AmSide, OnRecord;
    if s.am.msg.tag.Some? {
      var r := s.am.msg.tag.value;
      assert CallerAt(s, r);
      hide AmbSide, CallsOk;
      CallsAnswered(s, t, r, t.log[|s.log|]);
    } else {
      hide AmbSide, CallsOk;
      CallsAside(s, t);
    }
  }

  lemma {:induction false} StepCalls(s: State, st: Step)
    requires Inv(s) && CallsOk(s) && Enabled(s, st) && |s.handles| == |s.names|
    ensures CallsOk(AmProtocol.Take(s, st))
  {
    hide Inv, CallsOk;
    if st.Begin? || st.Send? || st.Wake? {
      ClientCalls(s, st);
    } else if st.AmReply? {
      ReplyCalls(s);
    } else {
      if st.AmReceive? { ReceiveFrame(s, st.started, st.targets, st.own); }
      if st.AppRun? { RunShape(s, st.h, st.ok); RunSays(s, st.h, st.ok); }
      hide ReceiveS, RunS;
      CallsAside(s, AmProtocol.Take(s, st));
    }
  }

  lemma {:induction false} RunSays(s: State, h: nat, ok: bool)
    requires Enabled(s, AppRun(h, ok))
    ensures var t := RunS(s, h, ok); |t.log| == |s.log| + 1 && !t.log[|s.log|].Returned?
  {}

  // ---------- exits, and applications without a record ----------

  predicate ExitDone(req: Request, ok: bool) {
    req.ExitApp? && ok
  }

  /** An exit is answered with success only after pf_exit has returned. */
  ghost predicate ExitAt(log: seq<Event>, i: nat)
    requires i < |log|
  {
    log[i].Answered? && ExitDone(log[i].req, log[i].ok) ==> HasExited(log[..i], log[i].req.name)
  }

  ghost predicate ExitsOk(s: State) {
    && (s.am.AmAnswer? && ExitDone(s.am.msg.req, s.am.ok) ==> HasExited(s.log, s.am.msg.req.name))
    && forall i :: 0 <= i < |s.log| ==> ExitAt(s.log, i)
  }

  /** A live application is on record, or its pf_exit returned failure and the manager dropped
      it all the same. */
  ghost predicate AccountedAt(s: State, h: nat)
    requires 1 <= h <= |s.apps|
  {
    s.apps[h - 1].alive ==> h in s.handles || Exited(h, s.apps[h - 1].name, false) in s.log
  }

  ghost predicate Accounted(s: State) {
    forall h :: 1 <= h <= |s.apps| ==> AccountedAt(s, h)
  }

  lemma {:induction false} ExitsKept(s: State, t: State)
    requires ExitsOk(s) && (t.log == s.log || exists e :: t.log == s.log + [e])
    requires |t.log| > |s.log| && t.log[|s.log|].Answered? ==>
      s.am.AmAnswer? && t.log[|s.log|].req == s.am.msg.req && t.log[|s.log|].ok == s.am.ok
    requires t.am.AmAnswer? && ExitDone(t.am.msg.req, t.am.ok) ==> t.am == s.am || HasExited(s.log, t.am.msg.req.name)
    ensures ExitsOk(t)
  {
    if t.am.AmAnswer? && ExitDone(t.am.msg.req, t.am.ok) {
      var i :| 0 <= i < |s.log| && s.log[i].Exited? && s.log[i].name == t.am.msg.req.name;
      assert t.log[i] == s.log[i];
    }
    forall i | 0 <= i < |t.log| ensures ExitAt(t.log, i) {
      if i < |s.log| {
        assert ExitAt(s.log, i) && t.log[..i] == s.log[..i];
      } else {
        assert t.log[..i] == s.log;
      }
    }
  }

  lemma {:induction false} AccountedKept(s: State, t: State)
    requires Accounted(s) && |t.apps| == |s.apps| && s.handles <= t.handles && s.log <= t.log
    requires forall j :: 0 <= j < |s.apps| ==>
      t.apps[j].name == s.apps[j].name && (t.apps[j].alive ==> s.apps[j].alive)
    ensures Accounted(t)
  {
    forall h | 1 <= h <= |t.apps| ensures AccountedAt(t, h) { assert AccountedAt(s, h); }
  }

  /** What is left of the thread when the manager passes its semaphore is decided by the
      callback it waited for. */
  lemma {:induction false} WakeAccounts(s: State)
    requires AmSide(s) && ExitsOk(s) && Accounted(s) && Enabled(s, AmWake)
    ensures var t := AmProtocol.Take(s, AmWake); ExitsOk(t) && Accounted(t)
  {
    var t, k := AmProtocol.Take(s, AmWake), s.am.k;
    assert RunningAt(s, k);
    if s.am.AmWaitExit? {
      var i :| 0 <= i < |s.log| && s.log[i] == Exited(s.handles[k], s.names[k], s.amOk);
      assert HasExited(s.log, s.names[k]);
    }
    forall h | 1 <= h <= |t.apps| ensures AccountedAt(t, h) {
      assert AccountedAt(s, h);
      if h in s.handles && h != s.handles[k] {
        var j := Position(s.handles, h);
        assert t.handles[j] == h;
      }
    }
    hide AmSide;
    ExitsKept(s, t);
  }

  lemma {:induction false} StartAccounts(s: State, started: bool)
    requires AmSide(s) && Accounted(s) && s.am.AmIdle? && s.amQueue != [] && s.amQueue[0].req.StartApp?
    ensures Accounted(ReceiveS(s, started, {}, false))
  {
    var t := ReceiveS(s, started, {}, false);
    var k := FindName(s.names, s.amQueue[0].req.name);
    forall h | 1 <= h <= |t.apps| ensures AccountedAt(t, h) {
      if h <= |s.apps| {
        assert AccountedAt(s, h);
        if h in s.handles {
          var j := Position(s.handles, h);
          assert t.handles[j] == h;
        }
      } else {
        assert t.handles[k] == h;
      }
    }
  }

  lemma {:induction false} ReceiveAccounts(s: State, started: bool, targets: set<nat>, own: bool)
    requires AmSide(s) && ExitsOk(s) && Accounted(s) && s.am.AmIdle? && s.amQueue != []
    ensures var t := ReceiveS(s, started, targets, own); ExitsOk(t) && Accounted(t)
  {
    var t := ReceiveS(s, started, targets, own);
    ReceiveFrame(s, started, targets, own);
    NoExitYet(s, started, targets, own);
    if s.amQueue[0].req.StartApp? {
      StartIgnores(s, started, targets, own);
      StartAccounts(s, started);
    } else {
      ReceiveThreads(s, started, targets, own);
      hide ReceiveS, AmSide;
      AccountedKept(s, t);
    }
    hide ReceiveS, AmSide;
    ExitsKept(s, t);
  }

  lemma {:induction false} NoExitYet(s: State, started: bool, targets: set<nat>, own: bool)
    requires s.amQueue != [] && |s.handles| == |s.names|
    ensures var t := ReceiveS(s, started, targets, own); t.am.AmAnswer? ==> !ExitDone(t.am.msg.req, t.am.ok)
  {
    hide FindName, FindRunning, FirstRunning, PushAll, Recorded;
  }

  lemma {:induction false} ReceiveThreads(s: State, started: bool, targets: set<nat>, own: bool)
    requires s.amQueue != [] && |s.handles| == |s.names| && !s.amQueue[0].req.StartApp?
    ensures var t := ReceiveS(s, started, targets, own);
      && |t.apps| == |s.apps| && s.handles <= t.handles
      && forall j :: 0 <= j < |s.apps| ==> t.apps[j].name == s.apps[j].name && t.apps[j].alive == s.apps[j].alive
  {
    PassThreads(s.(amQueue := s.amQueue[1..]), s.amQueue[0], targets, own);
    hide FindRunning, PassS;
  }

  lemma {:induction false} PassThreads(s: State, m: AmMsg, targets: set<nat>, own: bool)
    requires |s.handles| == |s.names|
    ensures var t := PassS(s, m, targets, own);
      && |t.apps| == |s.apps| && t.handles == s.handles
      && forall j :: 0 <= j < |s.apps| ==> t.apps[j].name == s.apps[j].name && t.apps[j].alive == s.apps[j].alive
  {
    hide FindRunning, FirstRunning, Recorded, PushAll;
    match m.req
    case Broadcast => Forwarded(s, Recorded(s, targets));
    case Dispatch(name) =>
      var k := FindRunning(s.names, s.handles, name);
      if k < |s.names| { Forwarded(s, {s.handles[k]}); }
    case _ =>
  }

  lemma {:induction false} OneThread(s: State, st: Step)
    requires Enabled(s, st) && |s.handles| == |s.names| && (st.Post? || st.AmSendExit? || st.AppNotify?)
    ensures var t := AmProtocol.Take(s, st);
      && |t.apps| == |s.apps| && s.handles == t.handles && s.log == t.log
      && forall j :: 0 <= j < |s.apps| ==>
           t.apps[j].name == s.apps[j].name && (t.apps[j].alive ==> s.apps[j].alive)
  {
    hide ReceiveS, RunS, OnRecord, Authorized;
  }

  lemma {:induction false} NoThread(s: State, st: Step)
    requires Enabled(s, st) && |s.handles| == |s.names|
    requires st.Begin? || st.Send? || st.Wake? || st.Async? || st.AmReply?
    ensures var t := AmProtocol.Take(s, st); t.apps == s.apps && s.handles == t.handles && s.log <= t.log
  {
    hide ReceiveS, RunS, OnRecord, Authorized;
  }

  /** Steps of clients and applications, and those of the manager between its waits. */
  lemma {:induction false} OtherAccounts(s: State, st: Step)
    requires ExitsOk(s) && Accounted(s) && Enabled(s, st) && |s.handles| == |s.names|
    requires !st.AmReceive? && !st.AmWake? && !st.AppRun?
    ensures var t := AmProtocol.Take(s, st); ExitsOk(t) && Accounted(t)
  {
    hide ExitsOk, Accounted, ReceiveS, RunS, OnRecord, Authorized;
    var t := AmProtocol.Take(s, st);
    ExitsKept(s, t);
    if st.Post? || st.AmSendExit? || st.AppNotify? { OneThread(s, st); } else { NoThread(s, st); }
    hide Enabled, AmProtocol.Take;
    AccountedKept(s, t);
  }

  lemma {:induction false} RunAccounts(s: State, h: nat, ok: bool)
    requires ExitsOk(s) && Accounted(s) && Enabled(s, AppRun(h, ok))
    ensures ExitsOk(RunS(s, h, ok)) && Accounted(RunS(s, h, ok))
  {
    RunShape(s, h, ok);
    hide ExitsOk, Accounted, RunS;
    ExitsKept(s, RunS(s, h, ok));
    AccountedKept(s, RunS(s, h, ok));
  }

  lemma {:induction false} StepAccounts(s: State, st: Step)
    requires AmSide(s) && ExitsOk(s) && Accounted(s) && Enabled(s, st) && |s.handles| == |s.names|
    ensures var t := AmProtocol.Take(s, st); ExitsOk(t) && Accounted(t)
  {
    hide AmSide, ExitsOk, Accounted, ReceiveS, RunS;
    match st
    case AmReceive(started, targets, own) => ReceiveAccounts(s, started, targets, own);
    case AmWake => WakeAccounts(s);
    case AppRun(h, ok) => RunAccounts(s, h, ok);
    case _ => OtherAccounts(s, st);
  }

  // ---------- every run ----------

  lemma {:induction false} RunsAccount(s: State, steps: seq<Step>, t: State)
    requires AmSide(s) && ExitsOk(s) && Accounted(s) && Runs(s, steps, t)
    ensures AmSide(t) && ExitsOk(t) && Accounted(t)
    decreases steps
  {
    hide AmSide, ExitsOk, Accounted;
    if steps != [] {
      AmSideKept(s, steps[0]);
      StepAccounts(s, steps[0]);
      RunsAccount(AmProtocol.Take(s, steps[0]), steps[1..], t);
    }
  }

  lemma {:induction false} SoloRunCalls(s: State, steps: seq<Step>, t: State)
    requires Inv(s) && CallsOk(s) && SoloRun(s, steps, t)
    ensures CallsOk(t)
    decreases steps
  {
    hide Inv, CallsOk;
    if steps != [] {
      StepInv(s, steps[0]);
      StepCalls(s, steps[0]);
      SoloRunCalls(AmProtocol.Take(s, steps[0]), steps[1..], t);
    }
  }

  /** In every run whatever, a successful answer to a start comes after a pf_init that returned
      OK, one to an exit after a pf_exit; and no application is lost: one that lives is on
      record, unless its own pf_exit returned failure. */
  lemma {:induction false} AnswersAreMeant(steps: seq<Step>, t: State)
    requires Runs(AmProtocol.Init(), steps, t)
    ensures forall i :: 0 <= i < |t.log| ==> Meant(t.log, i)
    ensures forall h :: 1 <= h <= |t.apps| && t.apps[h - 1].alive ==>
      h in t.handles || Exited(h, t.apps[h - 1].name, false) in t.log
  {
    RunsAccount(AmProtocol.Init(), steps, t);
    forall i | 0 <= i < |t.log| ensures Meant(t.log, i) { assert AnswerAt(t.log, i) && ExitAt(t.log, i); }
    forall h | 1 <= h <= |t.apps| && t.apps[h - 1].alive
      ensures h in t.handles || Exited(h, t.apps[h - 1].name, false) in t.log
    {
      assert AccountedAt(t, h);
    }
  }

  lemma {:induction false} SoloIsRun(s: State, steps: seq<Step>, t: State)
    requires SoloRun(s, steps, t)
    ensures Runs(s, steps, t)
    decreases steps
  {
    if steps != [] { SoloIsRun(AmProtocol.Take(s, steps[0]), steps[1..], t); }
  }

  /** In every run with one synchronous client at a time a call returns success exactly if the
      manager answered that very call with success before, an answer that means what it says, and
      it returns at most once. */
  lemma {:induction false} ReturnsAreTrue(steps: seq<Step>, t: State)
    requires SoloRun(AmProtocol.Init(), steps, t)
    ensures forall i :: 0 <= i < |t.log| ==> TrueReturn(t.log, i) && Meant(t.log, i)
    ensures forall k, i :: 0 <= k < i < |t.log| && t.log[k].Returned? && t.log[i].Returned? ==> t.log[k].r != t.log[i].r
  {
    InitInv();
    SoloRunCalls(AmProtocol.Init(), steps, t);
    SoloIsRun(AmProtocol.Init(), steps, t);
    AnswersAreMeant(steps, t);
    hide Inv, Meant, SoloRun;
    forall k, i | 0 <= k < i < |t.log| && t.log[k].Returned? && t.log[i].Returned? ensures t.log[k].r != t.log[i].r {
      assert ReturnKnown(t, i);
    }
  }
}
