/** The list of pending timers: stable sorted insertion, and what every step of the daemon
    keeps of the list and of the argument blocks. */
module TimerList {
  import opened Seqs
  import opened TimerModel

  ghost predicate InOrder(m: map<nat, Timer>, q: seq<nat>) {
    forall i, j :: 0 <= i < j < |q| ==> TimerOf(m, q[i]).deadline <= TimerOf(m, q[j]).deadline
  }

  /** Every block ever allocated is either live or was freed exactly once. */
  ghost predicate BlocksOk(blocks: seq<Payload>, live: set<nat>, frees: seq<nat>) {
    && NoDup(frees)
    && forall b: nat :: b < |blocks| <==> b in live || b in frees
  }

  /** What a timer holds is live and comes with a callback; a repeating timer holds something. */
  ghost predicate OwnsAt(m: map<nat, Timer>, live: set<nat>, t: nat) {
    var x := TimerOf(m, t);
    (x.args.Some? ==> x.args.value in live && x.callback) && (x.interval != 0 ==> x.args.Some?)
  }

  /** Timers hold live blocks, no two the same. */
  ghost predicate OwnersOk(m: map<nat, Timer>, live: set<nat>) {
    && (forall t :: t in m ==> OwnsAt(m, live, t))
    && forall t, u :: t in m && u in m && t != u && TimerOf(m, t).args.Some? ==>
         TimerOf(m, t).args != TimerOf(m, u).args
  }

  ghost predicate ListedOk(s: Daemon) {
    && NoDup(s.list) && InOrder(s.timers, s.list)
    && forall t :: t in s.list ==> t in s.timers && TimerOf(s.timers, t).args.Some?
  }

  /** Everything delivered was the contents of the block it is logged for. */
  ghost predicate FiredOk(blocks: seq<Payload>, fired: seq<Fire>) {
    forall f :: f in fired ==> f.block < |blocks| && f.payload == blocks[f.block]
  }

  /** The timer a callback is due for exists and has a callback, unless it was deleted since;
      the copy is one of a block. */
  ghost predicate PendingOk(blocks: seq<Payload>, m: map<nat, Timer>, pending: Option<Pending>) {
    pending.Some? ==>
      var p := pending.value;
      && (p.copy.Some? ==> p.block < |blocks| && p.copy.value == blocks[p.block])
      && (!p.gone ==> p.timer in m && m[p.timer].callback)
  }

  ghost predicate Inv(s: Daemon) {
    && ListedOk(s)
    && OwnersOk(s.timers, s.live)
    && BlocksOk(s.blocks, s.live, s.frees)
    && (forall b :: b in s.live ==> b !in s.frees)
    && FiredOk(s.blocks, s.fired)
    && PendingOk(s.blocks, s.timers, s.pending)
  }

  // ---------- insertion and removal ----------

  /** Insertion goes behind every timer due no later and in front of the first due later. */
  lemma {:induction false} InsertPlace(m: map<nat, Timer>, q: seq<nat>, t: nat) returns (k: nat)
    ensures k <= |q| && Insert(m, q, t) == q[..k] + [t] + q[k..]
    ensures forall i :: 0 <= i < k ==> TimerOf(m, q[i]).deadline <= TimerOf(m, t).deadline
    ensures k < |q| ==> TimerOf(m, t).deadline < TimerOf(m, q[k]).deadline
  {
    if q == [] || TimerOf(m, t).deadline < TimerOf(m, q[0]).deadline {
      k := 0;
    } else {
      var j := InsertPlace(m, q[1..], t);
      k := j + 1;
      assert q[..k] == [q[0]] + q[1..][..j] && q[1..][j..] == q[k..];
      forall i | 0 <= i < k ensures TimerOf(m, q[i]).deadline <= TimerOf(m, t).deadline {
        if i > 0 { assert q[i] == q[1..][i - 1]; }
      }
    }
  }

  /** In a sorted list the new timer comes behind everything due no later than it, in front
      of everything due later, and the list stays sorted. */
  lemma {:induction false} InsertStable(m: map<nat, Timer>, q: seq<nat>, t: nat)
    requires InOrder(m, q)
    ensures InOrder(m, Insert(m, q, t))
    ensures exists k: nat :: (k <= |q| && Insert(m, q, t) == q[..k] + [t] + q[k..]
      && (forall i :: 0 <= i < |q| ==> (i < k <==> TimerOf(m, q[i]).deadline <= TimerOf(m, t).deadline)))
  {
    var k := InsertPlace(m, q, t);
  }

  lemma {:induction false} InsertMembers(m: map<nat, Timer>, q: seq<nat>, t: nat)
    ensures forall u :: u in Insert(m, q, t) <==> u == t || u in q
    ensures NoDup(q) && t !in q ==> NoDup(Insert(m, q, t))
    ensures |Insert(m, q, t)| == |q| + 1
  {
    var k := InsertPlace(m, q, t);
    var p := q[..k] + [t] + q[k..];
    assert q == q[..k] + q[k..];
    if NoDup(q) && t !in q {
      forall i, j | 0 <= i < j < |p| ensures p[i] != p[j] {
        if i == k { assert p[j] in q[k..]; }
        if j == k { assert p[i] in q[..k]; }
      }
    }
  }

  /** Removing a timer undoes adding it. */
  lemma {:induction false} RemoveUndoesAdd(m: map<nat, Timer>, q: seq<nat>, t: nat)
    requires t !in q
    ensures Without(Insert(m, q, t), {t}) == q
  {
    hide *;
    var k := InsertPlace(m, q, t);
    var a, b := q[..k], q[k..];
    assert a + [t] + b == a + ([t] + b) && q == a + b;
    WithoutConcat(a, [t] + b, {t});
    WithoutConcat([t], b, {t});
    WithoutItself(t);
    WithoutNothing(a, {t});
    WithoutNothing(b, {t});
  }

  lemma {:induction false} WithoutItself(t: nat)
    ensures Without([t], {t}) == []
  {}

  lemma {:induction false} WithoutInOrder(m: map<nat, Timer>, q: seq<nat>, f: set<nat>)
    requires InOrder(m, q)
    ensures InOrder(m, Without(q, f))
  {
    if q != [] {
      WithoutInOrder(m, q[1..], f);
      WithoutMembers(q[1..], f);
      forall u | u in Without(q[1..], f) ensures TimerOf(m, q[0]).deadline <= TimerOf(m, u).deadline {
        assert u in q[1..];
        var i := Position(q[1..], u);
        assert u == q[i + 1];
      }
    }
  }

  lemma {:induction false} InOrderFrame(m: map<nat, Timer>, n: map<nat, Timer>, q: seq<nat>)
    requires InOrder(m, q) && forall t :: t in q ==> TimerOf(n, t).deadline == TimerOf(m, t).deadline
    ensures InOrder(n, q)
  {}

  // ---------- the steps ----------

  /** Taking a listed timer off the list. */
  lemma {:induction false} RemoveInv(s: Daemon, t: nat)
    requires Inv(s) && t in s.list
    ensures var r := RemoveS(s, t);
      && Inv(r) && t !in r.list && (forall u :: u != t && u in s.list ==> u in r.list) && r.timers.Keys == s.timers.Keys
      && (forall u :: u != t ==> TimerOf(r.timers, u) == TimerOf(s.timers, u))
      && r == s.(timers := r.timers, list := r.list, live := r.live, frees := r.frees)
    ensures var x, r := TimerOf(s.timers, t), RemoveS(s, t);
      if x.interval == 0 then
        && TimerOf(r.timers, t) == x.(args := None)
        && r == s.(timers := r.timers, list := r.list,
                   live := s.live - {x.args.value}, frees := s.frees + [x.args.value])
      else r == s.(list := r.list)
  {
    var x := TimerOf(s.timers, t);
    WithoutMembers(s.list, {t});
    RemoveListed(s, t);
    hide ListedOk, OwnersOk, BlocksOk, Without, NoDup;
    ListedHasBlock(s, t);
    if x.interval == 0 { FreeOk(s, t); }
  }

  lemma {:induction false} RemoveListed(s: Daemon, t: nat)
    requires ListedOk(s)
    ensures ListedOk(RemoveS(s, t))
  {
    var r := RemoveS(s, t);
    WithoutMembers(s.list, {t});
    WithoutInOrder(s.timers, s.list, {t});
    hide Without;
    assert r.list == Without(s.list, {t});
    assert forall u :: u in r.list ==> u in s.list && u != t;
    InOrderFrame(s.timers, r.timers, r.list);
  }

  lemma {:induction false} FreeOk(s: Daemon, t: nat)
    requires Inv(s) && t in s.list && TimerOf(s.timers, t).interval == 0
    ensures var b := TimerOf(s.timers, t).args.value;
      var m, live, frees := s.timers[t := TimerOf(s.timers, t).(args := None)], s.live - {b}, s.frees + [b];
      && OwnersOk(m, live) && BlocksOk(s.blocks, live, frees) && (forall c :: c in live ==> c !in frees)
  {
    hide ListedOk;
    ListedHasBlock(s, t);
    var b := TimerOf(s.timers, t).args.value;
    var m, live := s.timers[t := TimerOf(s.timers, t).(args := None)], s.live - {b};
    assert OwnsAt(s.timers, s.live, t);
    NoDupConcat(s.frees, [b]);
    forall u | u in m ensures OwnsAt(m, live, u) { if u != t { assert OwnsAt(s.timers, s.live, u); } }
  }

  lemma {:induction false} ListedHasBlock(s: Daemon, t: nat)
    requires Inv(s) && t in s.list
    ensures t in s.timers && TimerOf(s.timers, t).args.Some?
  {}

  /** Listing a timer again, with new times, that is not listed. */
  lemma {:induction false} AddInv(s: Daemon, t: nat, x: Timer)
    requires Inv(s) && t !in s.list && t in s.timers && x.args.Some? && x.args.value in s.live && x.callback
    requires forall u :: u in s.timers && u != t ==> TimerOf(s.timers, u).args != x.args
    ensures var s1 := s.(timers := s.timers[t := x]); Inv(s1) && Inv(AddS(s1, t))
  {
    hide ListedOk, BlocksOk, FiredOk, Insert;
    AddOwners(s.timers, s.live, t, x);
    AddListed(s, t, x);
  }

  lemma {:induction false} AddOwners(m: map<nat, Timer>, live: set<nat>, t: nat, x: Timer)
    requires OwnersOk(m, live) && t in m && x.args.Some? && x.args.value in live && x.callback
    requires forall u :: u in m && u != t ==> TimerOf(m, u).args != x.args
    ensures OwnersOk(m[t := x], live)
  {
    var n := m[t := x];
    forall u | u in n ensures OwnsAt(n, live, u) { if u != t { assert OwnsAt(m, live, u); } }
  }

  lemma {:induction false} AddListed(s: Daemon, t: nat, x: Timer)
    requires ListedOk(s) && t !in s.list && x.args.Some?
    ensures var s1 := s.(timers := s.timers[t := x]); ListedOk(s1) && ListedOk(AddS(s1, t))
  {
    var m := s.timers[t := x];
    InOrderFrame(s.timers, m, s.list);
    InsertStable(m, s.list, t);
    InsertMembers(m, s.list, t);
  }

  /** What a round does up to the unlock: a one-shot leaves the list and its block is freed,
      a repeating timer is listed again exactly one interval later and keeps its block; the
      thread holds a copy of what a one-shot was to deliver. */
  lemma {:induction false} BeginEffect(s: Daemon)
    requires Inv(s) && s.list != []
    ensures var t, x, r := s.list[0], TimerOf(s.timers, s.list[0]), BeginS(s);
      && Inv(r) && t in s.timers && x.args.Some? && x.args.value in s.live && x.args.value < |s.blocks| && x.callback
      && var b := x.args.value;
      && r.pending == Some(Pending(t, x.deadline, b, if x.interval == 0 then Some(s.blocks[b]) else None, false))
      && r.fired == s.fired && r.blocks == s.blocks && r.status == s.status && r.timers.Keys == s.timers.Keys
      && (forall u :: u != t ==> TimerOf(r.timers, u) == TimerOf(s.timers, u))
      && if x.interval == 0
         then TimerOf(r.timers, t) == x.(args := None) && r.list == s.list[1..]
              && r.live == s.live - {b} && r.frees == s.frees + [b]
         else TimerOf(r.timers, t) == x.(deadline := x.deadline + x.interval)
              && r.list == Insert(r.timers, s.list[1..], t) && r.live == s.live && r.frees == s.frees
  {
    hide Inv, Insert, Without, NoDup;
    var t, x := s.list[0], TimerOf(s.timers, s.list[0]);
    HeadBlock(s);
    RemoveHead(s);
    RemoveInv(s, t);
    if x.interval != 0 { RearmInv(s); }
    PendInv(Requeue(s), BeginS(s).pending.value);
  }

  lemma {:induction false} PendInv(s: Daemon, p: Pending)
    requires Inv(s) && PendingOk(s.blocks, s.timers, Some(p))
    ensures Inv(s.(pending := Some(p)))
  {}

  /** What the rest of a round does: nothing to the list and the blocks; what it delivers, if
      anything, is the contents of a block. */
  lemma {:induction false} CallInv(s: Daemon)
    requires Inv(s) && s.pending.Some?
    ensures var p, r := s.pending.value, CallS(s); var x := TimerOf(s.timers, p.timer);
      && Inv(r) && r == s.(pending := None, fired := r.fired, status := r.status)
      && (p.gone ==> r.fired == s.fired && r.status == DeletedRead)
      && (!p.gone && x.interval == 0 && p.copy.None? ==> r.fired == s.fired && r.status == NullRead)
      && (!p.gone && (x.interval != 0 || p.copy.Some?) ==> r.status == s.status)
      && (!p.gone && x.interval == 0 && p.copy.Some? ==>
            r.fired == s.fired + [Fire(p.timer, p.deadline, p.block, p.copy.value)])
      && (!p.gone && x.interval != 0 ==>
            && x.args.Some? && x.args.value < |s.blocks|
            && r.fired == s.fired + [Fire(p.timer, p.deadline, x.args.value, s.blocks[x.args.value])])
  {
    var p := s.pending.value;
    if !p.gone { assert OwnsAt(s.timers, s.live, p.timer); }
  }

  /** What one uninterrupted round of the expiry loop does: the head fires once with its own
      deadline and the bytes of its block. */
  lemma {:induction false} FireEffect(s: Daemon)
    requires Inv(s) && s.list != []
    ensures var t, x, r := s.list[0], TimerOf(s.timers, s.list[0]), FireS(s);
      && Inv(r) && t in s.timers && x.args.Some? && x.args.value in s.live && x.args.value < |s.blocks|
      && r.fired == s.fired + [Fire(t, x.deadline, x.args.value, s.blocks[x.args.value])]
      && r.blocks == s.blocks && r.status == s.status && r.pending == None && r.timers.Keys == s.timers.Keys
      && (forall u :: u != t ==> TimerOf(r.timers, u) == TimerOf(s.timers, u))
      && if x.interval == 0
         then TimerOf(r.timers, t) == x.(args := None) && r.list == s.list[1..]
              && r.live == s.live - {x.args.value} && r.frees == s.frees + [x.args.value]
         else TimerOf(r.timers, t) == x.(deadline := x.deadline + x.interval)
              && r.list == Insert(r.timers, s.list[1..], t) && r.live == s.live && r.frees == s.frees
  {
    hide Inv, Insert, BeginS;
    BeginEffect(s);
    CallInv(BeginS(s));
  }

  /** A repeating head that left the list, with its next deadline, and listed again. */
  lemma {:induction false} RearmInv(s: Daemon)
    requires Inv(s) && s.list != [] && TimerOf(s.timers, s.list[0]).interval != 0
    ensures var t, x := s.list[0], TimerOf(s.timers, s.list[0]);
      var s1 := s.(list := s.list[1..], timers := s.timers[t := x.(deadline := x.deadline + x.interval)]);
      && RemoveS(s, t) == s.(list := s.list[1..]) && t !in s.list[1..]
      && Inv(s1) && Inv(AddS(s1, t)) && Requeue(s) == AddS(s1, t)
  {
    hide Inv, Insert, Without, NoDup;
    var t, x := s.list[0], TimerOf(s.timers, s.list[0]);
    HeadBlock(s);
    RemoveHead(s);
    RemoveInv(s, t);
    AddInv(RemoveS(s, t), t, x.(deadline := x.deadline + x.interval));
  }

  /** The list without its head. */
  lemma {:induction false} RemoveHead(s: Daemon)
    requires s.list != [] && NoDup(s.list)
    ensures Without(s.list, {s.list[0]}) == s.list[1..]
  {
    WithoutOne(s.list, 0);
    assert s.list[..0] + s.list[1..] == s.list[1..];
  }

  lemma {:induction false} HeadBlock(s: Daemon)
    requires Inv(s) && s.list != []
    ensures var t, x := s.list[0], TimerOf(s.timers, s.list[0]);
      && t in s.list && t in s.timers && x.args.Some? && x.args.value in s.live && x.args.value < |s.blocks|
      && x.callback && NoDup(s.list)
    ensures forall u :: u in s.timers && u != s.list[0] ==>
      TimerOf(s.timers, u).args != TimerOf(s.timers, s.list[0]).args
    ensures s.list[0] !in s.list[1..]
    ensures forall u :: u in s.list <==> u == s.list[0] || u in s.list[1..]
  {
    assert OwnsAt(s.timers, s.live, s.list[0]);
  }

  lemma {:induction false} StartInv(s: Daemon, t: nat, now: int, delay: nat, flag: nat, p: Payload)
    requires Inv(s) && t in s.timers
    ensures Inv(StartS(s, t, now, delay, flag, p).1)
  {
    hide Inv;
    NewBlock(s, p);
    ArmInv(s.(blocks := s.blocks + [p], live := s.live + {|s.blocks|}), t, now, delay, flag, |s.blocks|);
  }

  /** Starting a timer with a live block that no timer holds. */
  lemma {:induction false} ArmInv(s: Daemon, t: nat, now: int, delay: nat, flag: nat, b: nat)
    requires Inv(s) && t in s.timers && b in s.live && forall u :: u in s.timers ==>
      TimerOf(s.timers, u).args != Some(b)
    ensures Inv(ArmS(s, t, now, delay, flag, b).1)
    ensures ArmS(s, t, now, delay, flag, b).0 == OK ==>
      var s1 := if t in s.list then RemoveS(s, t) else s;
      && Inv(s1.(timers := s1.timers[t := Armed(now, delay, flag, b)]))
      && t !in s1.list
  {
    if ArmS(s, t, now, delay, flag, b).0 == OK {
      if t in s.list { RemoveInv(s, t); ListedHasBlock(s, t); }
      hide Inv, Insert;
      var s1 := if t in s.list then RemoveS(s, t) else s;
      assert forall u :: u in s1.timers && u != t ==> TimerOf(s1.timers, u) == TimerOf(s.timers, u);
      AddInv(s1, t, Armed(now, delay, flag, b));
    }
  }

  lemma {:induction false} NewBlock(s: Daemon, p: Payload)
    requires Inv(s)
    ensures Inv(s.(blocks := s.blocks + [p], live := s.live + {|s.blocks|}))
    ensures forall u :: u in s.timers ==> TimerOf(s.timers, u).args != Some(|s.blocks|)
    ensures |s.blocks| !in s.live
  {
    forall u | u in s.timers
      ensures OwnsAt(s.timers, s.live + {|s.blocks|}, u) && TimerOf(s.timers, u).args != Some(|s.blocks|)
    {
      assert OwnsAt(s.timers, s.live, u);
    }
  }

  lemma {:induction false} RetimeInv(s: Daemon, t: nat, d: int)
    requires Inv(s) && t in s.timers && t !in s.list
    ensures Inv(s.(timers := s.timers[t := TimerOf(s.timers, t).(deadline := d)]))
  {
    var m := s.timers[t := TimerOf(s.timers, t).(deadline := d)];
    InOrderFrame(s.timers, m, s.list);
    forall u | u in m ensures OwnsAt(m, s.live, u) { assert OwnsAt(s.timers, s.live, u); }
  }

  lemma {:induction false} ForgetInv(s: Daemon, t: nat)
    requires Inv(s) && t !in s.list
    ensures Inv(DeleteS(s, t))
  {
    var m := s.timers - {t};
    InOrderFrame(s.timers, m, s.list);
    forall u | u in m ensures OwnsAt(m, s.live, u) { assert OwnsAt(s.timers, s.live, u); }
  }

  lemma {:induction false} CreateInv(s: Daemon, t: nat)
    requires Inv(s) && t !in s.timers
    ensures Inv(CreateS(s, t)) && t !in s.list
  {
    var m := s.timers[t := NEW_TIMER];
    InOrderFrame(s.timers, m, s.list);
    forall u | u in m ensures OwnsAt(m, s.live, u) { if u != t { assert OwnsAt(s.timers, s.live, u); } }
  }

  /** Every API call and each half of a round of the expiry loop keeps the invariant. */
  lemma {:induction false} TakeInv(s: Daemon, st: Step)
    requires Inv(s) && Allowed(s, st)
    ensures Inv(Take(s, st))
  {
    hide OwnersOk, BlocksOk, InOrder, NoDup, Insert, Without;
    match st
    case Create(t) => { assert forall u :: u in s.list ==> u in s.timers; CreateInv(s, t); }
    case Start(t, now, delay, flag, p) => StartInv(s, t, now, delay, flag, p);
    case Stop(t, now) =>
      if t in s.list {
        RemoveInv(s, t);
        var s1 := RemoveS(s, t);
        RetimeInv(s1, t, TimerOf(s1.timers, t).deadline - now);
      }
    case Delete(t) =>
      if t in s.list { RemoveInv(s, t); }
      ForgetInv(if t in s.list then RemoveS(s, t) else s, t);
    case Begin(now) => if Due(s, now) { BeginEffect(s); }
    case Call => CallInv(s);
  }

  /** On every run, API calls falling anywhere between the halves of the rounds, the list is
      sorted and duplicate-free, listed timers hold live blocks, no block is shared, every
      block is live or was freed exactly once, and everything that was ever delivered was a
      block's contents. */
  lemma {:induction false} RunInv(s: Daemon, steps: seq<Step>)
    requires Inv(s) && RunAllowed(s, steps)
    ensures Inv(Run(s, steps))
    decreases steps
  {
    if steps != [] {
      TakeInv(s, steps[0]);
      RunInv(Take(s, steps[0]), steps[1..]);
    }
  }

  lemma {:induction false} InitInv()
    ensures Inv(Init())
  {}
}
