/** The message loop of an application (appman_main, am/aee/appman.c). */
module AppLoop {
  import opened Seqs

  /** APPMAN_MSG_INIT, _EXIT, _PROCESS_MSG, or a command the loop does not know. */
  datatype Command = InitCmd | ExitCmd | ProcessCmd | BadCmd

  /** One result of x_msg_q_receive. notify: the sender gave a notify function; ignore: what
      that function answers to the PRE notification; ok: the application's callback returns
      AEER_OK. */
  datatype Received = Message(command: Command, notify: bool, ignore: bool, ok: bool) | ReceiveError

  /** What the loop does for its n-th message. */
  datatype Event =
    | Pre(n: nat, command: Command)
    | Called(n: nat, command: Command, ok: bool)
    | Post(n: nat, command: Command, ok: bool)
    | Aborted(n: nat)

  /** The callback and, if there is a notify function, the notification of its result. */
  function CallEvents(n: nat, m: Received): seq<Event>
    requires m.Message?
  {
    [Called(n, m.command, m.ok)] + (if m.notify then [Post(n, m.command, m.ok)] else [])
  }

  function EventsFor(n: nat, m: Received): seq<Event> {
    if m.ReceiveError? then []
    else if m.command.BadCmd? then [Aborted(n)]
    else (if m.notify then [Pre(n, m.command)] else []) + (if m.notify && m.ignore then [] else CallEvents(n, m))
  }

  /** The loop ends: an ignored or failed init, a successful exit, an error. */
  predicate Ends(m: Received) {
    match m
    case ReceiveError => true
    case Message(command, notify, ignore, ok) =>
      match command
      case InitCmd => (notify && ignore) || !ok
      case ExitCmd => !(notify && ignore) && ok
      case ProcessCmd => false
      case BadCmd => true
  }

  /** All that happens from the n-th message on. */
  function Events(input: seq<Received>, n: nat): seq<Event>
    requires n <= |input|
    decreases |input| - n
  {
    if n == |input| then []
    else EventsFor(n, input[n]) + (if Ends(input[n]) then [] else Events(input, n + 1))
  }

  /** The switch of the loop: exit is its b_exit afterwards. */
  method Dispatch(n: nat, m: Received) returns (log: seq<Event>, exit: bool)
    requires m.Message?
    ensures log == EventsFor(n, m) && exit == Ends(m)
  {
    log, exit := [], false;
    match m.command
    case ProcessCmd =>
      if m.notify { log := log + [Pre(n, ProcessCmd)]; }
      if !m.notify || !m.ignore {
        log := log + [Called(n, ProcessCmd, m.ok)];
        if m.notify { log := log + [Post(n, ProcessCmd, m.ok)]; }
      }
    case ExitCmd =>
      if m.notify { log := log + [Pre(n, ExitCmd)]; }
      if !m.notify || !m.ignore {
        log := log + [Called(n, ExitCmd, m.ok)];
        if m.notify { log := log + [Post(n, ExitCmd, m.ok)]; }
        exit := m.ok;
      }
    case InitCmd =>
      if m.notify {
        log := log + [Pre(n, InitCmd)];
        exit := m.ignore;
      }
      if !exit {
        log := log + [Called(n, InitCmd, m.ok)];
        if m.notify { log := log + [Post(n, InitCmd, m.ok)]; }
        exit := !m.ok;
      }
    case BadCmd =>
      log, exit := [Aborted(n)], true;
  }

  /** The loop over the messages of its queue, which are the given ones. */
  method AppmanMain(input: seq<Received>) returns (log: seq<Event>)
    ensures log == Events(input, 0)
  {
    hide EventsFor, Ends, Events;
    log := [];
    EventsEnd(input);
    var n, exit := 0, false;
    while !exit && n < |input|
      invariant n <= |input|
      invariant Events(input, 0) == log + (if exit then [] else Events(input, n))
      decreases |input| - n
    {
      var more := [];
      if input[n].Message? {
        more, exit := Dispatch(n, input[n]);
      } else {
        exit := true;
      }
      TurnIs(input, n);
      ghost var rest := if exit then [] else Events(input, n + 1);
      Regroup(log, more, rest);
      log := log + more;
      n := n + 1;
    }
  }

  lemma {:induction false} EventsEnd(input: seq<Received>)
    ensures Events(input, |input|) == []
  {}

  lemma {:induction false} TurnIs(input: seq<Received>, n: nat)
    requires n < |input|
    ensures Events(input, n) == EventsFor(n, input[n]) + (if Ends(input[n]) then [] else Events(input, n + 1))
    ensures input[n].ReceiveError? ==> EventsFor(n, input[n]) == [] && Ends(input[n])
    ensures forall i :: 0 <= i < |EventsFor(n, input[n])| ==> EventsFor(n, input[n])[i].n == n
  {}

  // ---------- what the notify functions see ----------

  /** The events of message n. */
  function Of(log: seq<Event>, n: nat): seq<Event> {
    if log == [] then [] else (if log[0].n == n then [log[0]] else []) + Of(log[1..], n)
  }

  lemma {:induction false} OfConcat(a: seq<Event>, b: seq<Event>, n: nat)
    ensures Of(a + b, n) == Of(a, n) + Of(b, n)
  {
    if a == [] {
      assert a + b == b;
    } else {
      assert (a + b)[1..] == a[1..] + b && (a + b)[0] == a[0];
      OfConcat(a[1..], b, n);
      var first := if a[0].n == n then [a[0]] else [];
      Regroup(first, Of(a[1..], n), Of(b, n));
    }
  }

  lemma {:induction false} OfNone(log: seq<Event>, n: nat)
    requires forall i :: 0 <= i < |log| ==> log[i].n != n
    ensures Of(log, n) == []
  {
    if log != [] { OfNone(log[1..], n); }
  }

  lemma {:induction false} OfAll(log: seq<Event>, n: nat)
    requires forall i :: 0 <= i < |log| ==> log[i].n == n
    ensures Of(log, n) == log
  {
    if log != [] { OfAll(log[1..], n); }
  }

  /** Messages are handled in the order they were queued. */
  lemma {:induction false} InOrder(input: seq<Received>, n: nat)
    requires n <= |input|
    ensures var log := Events(input, n);
      && (forall i :: 0 <= i < |log| ==> n <= log[i].n < |input|)
      && (forall i, j :: 0 <= i < j < |log| ==> log[i].n <= log[j].n)
    decreases |input| - n
  {
    hide EventsFor, Ends;
    if n < |input| {
      TurnIs(input, n);
      if !Ends(input[n]) { InOrder(input, n + 1); }
    }
  }

  lemma {:induction false} OfEvents(input: seq<Received>, n: nat, k: nat)
    requires n <= k < |input|
    ensures Of(Events(input, n), k)
         == (if forall i :: n <= i < k ==> !Ends(input[i]) then EventsFor(k, input[k]) else [])
    decreases |input| - n
  {
    hide EventsFor, Ends, Of;
    TurnIs(input, n);
    var rest := if Ends(input[n]) then [] else Events(input, n + 1);
    OfConcat(EventsFor(n, input[n]), rest, k);
    if n == k {
      OfAll(EventsFor(n, input[n]), k);
      if !Ends(input[n]) { InOrder(input, n + 1); }
      OfNone(rest, k);
    } else {
      OfNone([], k);
      OfNone(EventsFor(n, input[n]), k);
      if !Ends(input[n]) { OfEvents(input, n + 1, k); }
    }
  }

  /** What was received leaves the loop going: it is no receive error, no unknown command, no
      INIT that was ignored or failed, and no EXIT that was not ignored and succeeded. */
  predicate GoesOn(m: Received) {
    && m.Message? && m.command != BadCmd
    && !(m.command == InitCmd && ((m.notify && m.ignore) || !m.ok))
    && !(m.command == ExitCmd && !(m.notify && m.ignore) && m.ok)
  }

  /** A message is handled exactly if everything received before it left the loop going. */
  lemma {:induction false} HandledExactly(input: seq<Received>, k: nat)
    requires k < |input| && input[k].Message?
    ensures Of(Events(input, 0), k) != [] <==> forall i :: 0 <= i < k ==> GoesOn(input[i])
    ensures input[k].command == BadCmd && (forall i :: 0 <= i < k ==> GoesOn(input[i])) ==>
      Of(Events(input, 0), k) == [Aborted(k)]
  {
    OfEvents(input, 0, k);
    assert forall i :: 0 <= i < k ==> (GoesOn(input[i]) <==> !Ends(input[i]));
  }

  /** A received message whose sender wants to be notified gets one PRE notification and
      then, unless that asked to ignore it, one callback and exactly one notification of how
      that ended; without a notify function there is only the callback. A message behind one
      that ended the loop gets nothing. */
  lemma {:induction false} NotifiedOnce(input: seq<Received>, k: nat)
    requires k < |input| && input[k].Message? && input[k].command != BadCmd
    ensures var m, log := input[k], Of(Events(input, 0), k);
      if exists i :: 0 <= i < k && !GoesOn(input[i]) then log == []
      else if m.notify && m.ignore then log == [Pre(k, m.command)]
      else if m.notify then log == [Pre(k, m.command), Called(k, m.command, m.ok), Post(k, m.command, m.ok)]
      else log == [Called(k, m.command, m.ok)]
  {
    OfEvents(input, 0, k);
    assert forall i :: 0 <= i < k ==> (GoesOn(input[i]) <==> !Ends(input[i]));
  }

  /** Nothing but its own notification follows a failed pf_init or a successful pf_exit. */
  lemma {:induction false} NothingAfterEnd(input: seq<Received>, n: nat, i: nat, j: nat)
    requires n <= |input| && i < j < |Events(input, n)|
    requires var e := Events(input, n)[i];
      e.Called? && ((e.command == InitCmd && !e.ok) || (e.command == ExitCmd && e.ok))
    ensures var e := Events(input, n)[i]; j == i + 1 && Events(input, n)[j] == Post(e.n, e.command, e.ok)
    decreases |input| - n
  {
    hide Events;
    EventsEnd(input);
    TurnIs(input, n);
    var head := EventsFor(n, input[n]);
    if i >= |head| { NothingAfterEnd(input, n + 1, i - |head|, j - |head|); }
  }

  /** As _app_start queues the INIT message first and nobody else sends one, pf_init is called
      at most once, and no other callback is called unless it was called before and returned
      AEER_OK. */
  lemma {:induction false} InitFirst(input: seq<Received>, i: nat)
    requires input != [] && input[0].Message? && input[0].command == InitCmd
    requires forall k :: 0 < k < |input| && input[k].Message? ==> input[k].command != InitCmd
    requires i < |Events(input, 0)| && Events(input, 0)[i].Called?
    ensures var log := Events(input, 0);
      if log[i].command == InitCmd
      then forall j :: 0 <= j < |log| && log[j].Called? && log[j].command == InitCmd ==> j == i
      else exists j :: 0 <= j < i && log[j] == Called(0, InitCmd, true)
  {
    var head := EventsFor(0, input[0]);
    var log := Events(input, 0);
    var at := if input[0].notify then 1 else 0;
    assert at < |head| ==> head[at] == Called(0, InitCmd, input[0].ok);
    if !Ends(input[0]) { NoInit(input, 1); }
    assert log[at] == head[at];
  }

  lemma {:induction false} NoInit(input: seq<Received>, n: nat)
    requires n <= |input| && forall k :: n <= k < |input| && input[k].Message? ==> input[k].command != InitCmd
    ensures forall j :: 0 <= j < |Events(input, n)| && Events(input, n)[j].Called? ==>
      Events(input, n)[j].command != InitCmd
    decreases |input| - n
  {
    if n < |input| && !Ends(input[n]) { NoInit(input, n + 1); }
  }
}
