/** Freeing an application handle (am/aee/aee.c): the handles the application owns hang on
    the auxiliary list of its AEE; each is delinked and "auto-freed", then the list head is
    freed. */
module AeeTeardown {
  import opened Seqs
  import opened HandleModel
  import opened HandleInv
  import opened HandleRuns
  import opened HandleTheorems
  import opened HandleThreads
  import opened HandleLibrary

  const PRIMARY_AEE: nat := 64
  const SECONDARY_AEE: nat := 65

  /** aee_free_secondary_handle accepts and calls nothing. */
  const SECONDARY_CB := FreeCb([], true)

  /** The auxiliary list of head a holds AEE handles; the secondary ones are on no primary
      list and not being freed. */
  ghost predicate Drainable(s: State, a: nat) {
    && a < |s.slots| && Active(At(s, a)) && At(s, a).typ == AUX_LINK_HEAD && !At(s, a).freeing
    && forall i :: i in At(s, a).auxList ==> Owned(At(s, i))
  }

  ghost predicate Owned(x: Slot) {
    x.typ == PRIMARY_AEE || (x.typ == SECONDARY_AEE && x.owner.None? && !x.freeing)
  }

  /** One member: delink it, then auto-free it, which frees a secondary handle and does
      nothing to a primary one. */
  function MemberOps(s: State, i: nat): seq<Op> {
    [DelinkAux(MakeHandle(s, i))]
    + (if At(s, i).typ == SECONDARY_AEE then [Free(MakeHandle(s, i), SECONDARY_CB)] else [])
  }

  function DrainOps(s: State, q: seq<nat>): seq<Op> {
    if q == [] then [] else MemberOps(s, q[0]) + DrainOps(s, q[1..])
  }

  /** All the library calls of aee_free_handle for the AEE whose auxiliary head is slot a. */
  function TeardownOps(s: State, a: nat): seq<Op> {
    DrainOps(s, At(s, a).auxList) + [Free(MakeHandle(s, a), SECONDARY_CB)]
  }

  /** The secondary members of q, last first: the order in which they end up free. */
  function Freed(s: State, q: seq<nat>): seq<nat> {
    if q == [] then []
    else Freed(s, q[1..]) + (if At(s, q[0]).typ == SECONDARY_AEE then [q[0]] else [])
  }

  /** What draining makes of a member. */
  function Drained(x: Slot): Slot {
    if x.typ == SECONDARY_AEE then x.(auxHead := 0, gen := x.gen + 1, freeing := true) else x.(auxHead := 0)
  }

  /** t is s with the members q drained from the list of head a, which keeps rest. */
  ghost predicate DrainedTo(s: State, t: State, a: nat, q: seq<nat>, rest: seq<nat>) {
    && Inv(t) && t.halt == Running && At(t, a) == At(s, a).(auxList := rest)
    && t.free == Freed(s, q) + s.free && t.prim == s.prim
    && (forall i :: i in q ==> At(t, i) == Drained(At(s, i)))
    && (forall j: nat :: j != a && j !in q ==> At(t, j) == At(s, j))
  }

  lemma {:induction false} MemberStep(s: State, a: nat)
    requires Inv(s) && s.halt == Running && Drainable(s, a) && At(s, a).auxList != []
    ensures var q := At(s, a).auxList; q[0] != a && DrainedTo(s, ExecAll(s, MemberOps(s, q[0])), a, [q[0]], q[1..])
  {
    var i := At(s, a).auxList[0];
    var h := MakeHandle(s, i);
    assert Owned(At(s, i)) by { assert i in At(s, a).auxList; }
    hide Inv, DelinkAuxS, FreeS, ExecAll, MakeHandle, Drainable, DrainedTo;
    DelinkStep(s, a);
    var s1 := DelinkAuxS(s, h).1;
    if At(s, i).typ == SECONDARY_AEE {
      FreeStep(s1, i);
      SameGenSameHandle(s, s1, i);
      RunTwo(s, h);
      SecondaryDrained(s, s1, FreeS(s1, h, SECONDARY_CB).1, a, i);
    } else {
      RunOne(s, h);
      PrimaryDrained(s, s1, a, i);
    }
  }

  lemma {:induction false} PrimaryDrained(s: State, t: State, a: nat, i: nat)
    requires Inv(t) && t.halt == Running && t == s.(slots := t.slots) && At(s, i).typ != SECONDARY_AEE
    requires At(t, a) == At(s, a).(auxList := At(t, a).auxList) && At(t, i) == At(s, i).(auxHead := 0)
    requires forall j: nat :: j != a && j != i ==> At(t, j) == At(s, j)
    ensures DrainedTo(s, t, a, [i], At(t, a).auxList)
  {
    hide Inv;
    assert Freed(s, [i]) == [];
  }

  lemma {:induction false} SecondaryDrained(s: State, s1: State, t: State, a: nat, i: nat)
    requires Inv(t) && t.halt == Running && s1 == s.(slots := s1.slots) && At(s, i).typ == SECONDARY_AEE && i != a
    requires At(s1, a) == At(s, a).(auxList := At(s1, a).auxList) && At(s1, i) == At(s, i).(auxHead := 0)
    requires forall j: nat :: j != a && j != i ==> At(s1, j) == At(s, j)
    requires t.free == [i] + s1.free && t.prim == s1.prim
    requires At(t, i) == At(s1, i).(gen := At(s1, i).gen + 1, freeing := true)
    requires forall j: nat :: j != i ==> At(t, j) == At(s1, j)
    ensures DrainedTo(s, t, a, [i], At(s1, a).auxList)
  {
    hide Inv;
    assert Freed(s, [i]) == [i];
  }

  lemma {:induction false} DrainCompose(s: State, s1: State, t: State, a: nat, q: seq<nat>)
    requires q != [] && NoDup(q) && a !in q
    requires DrainedTo(s, s1, a, [q[0]], q[1..]) && DrainedTo(s1, t, a, q[1..], [])
    requires Freed(s1, q[1..]) == Freed(s, q[1..])
    ensures DrainedTo(s, t, a, q, [])
  {
    hide Inv;
    assert forall i :: i in q <==> i == q[0] || i in q[1..];
    assert Freed(s, q) + s.free == Freed(s, q[1..]) + (Freed(s, [q[0]]) + s.free) by { FreedStep(s, q); }
    hide Freed, Drained, At;
    assert q[0] in [q[0]] && q[0] !in q[1..];
    forall i | i in q[1..] ensures At(s1, i) == At(s, i) { assert i !in [q[0]] && i != a; }
  }

  lemma {:induction false} FreedStep(s: State, q: seq<nat>)
    requires q != []
    ensures Freed(s, q) == Freed(s, q[1..]) + Freed(s, [q[0]])
  {
    assert Freed(s, [q[0]]) == if At(s, q[0]).typ == SECONDARY_AEE then [q[0]] else [];
  }

  lemma {:induction false} RunOne(s: State, h: nat)
    requires s.halt == Running
    ensures ExecAll(s, [DelinkAux(h)] + []) == DelinkAuxS(s, h).1
  {
    assert ([DelinkAux(h)] + [])[1..] == [];
  }

  lemma {:induction false} RunTwo(s: State, h: nat)
    requires s.halt == Running && DelinkAuxS(s, h).1.halt == Running
    ensures ExecAll(s, [DelinkAux(h)] + [Free(h, SECONDARY_CB)]) == FreeS(DelinkAuxS(s, h).1, h, SECONDARY_CB).1
  {
    var s1 := DelinkAuxS(s, h).1;
    assert ([DelinkAux(h)] + [Free(h, SECONDARY_CB)])[1..] == [Free(h, SECONDARY_CB)];
    assert ExecAll(s1, [Free(h, SECONDARY_CB)]) == ExecAll(Exec(s1, Free(h, SECONDARY_CB)), []);
  }

  /** Delinking the first member of an auxiliary list. */
  lemma {:induction false} DelinkStep(s: State, a: nat)
    requires Inv(s) && s.halt == Running && Drainable(s, a) && At(s, a).auxList != []
    ensures var q := At(s, a).auxList; var (c, t) := DelinkAuxS(s, MakeHandle(s, q[0]));
      && c == OK && Inv(t) && t == s.(slots := t.slots) && q[0] != a && 0 < q[0] < |s.slots| && |t.slots| == |s.slots|
      && Active(At(s, q[0])) && At(s, q[0]).auxList == []
      && At(t, a) == At(s, a).(auxList := q[1..]) && At(t, q[0]) == At(s, q[0]).(auxHead := 0)
    ensures var q := At(s, a).auxList; var t := DelinkAuxS(s, MakeHandle(s, q[0])).1;
      forall j: nat :: j != a && j != q[0] ==> At(t, j) == At(s, j)
  {
    var q, i := At(s, a).auxList, At(s, a).auxList[0];
    hide *;
    FirstMember(s, a);
    DelinkOfMember(s, i);
    LeaveAuxInv(s, i);
    FirstLeaves(s, a);
  }

  lemma {:induction false} DelinkOfMember(s: State, i: nat)
    requires Decode(s, MakeHandle(s, i)) == i != 0 && At(s, i).typ >= RES_BY_HANDLE_LIB && At(s, i).auxHead != 0
    ensures DelinkAuxS(s, MakeHandle(s, i)) == (OK, LeaveAux(s, i))
  {
    hide Decode, MakeHandle, LeaveAux;
  }

  /** The first member of an auxiliary list. */
  lemma {:induction false} FirstMember(s: State, a: nat)
    requires Inv(s) && Drainable(s, a) && At(s, a).auxList != []
    ensures var i := At(s, a).auxList[0]; i != a && a < |s.slots| && 0 < i < |s.slots| && At(s, i).auxHead == a != 0
    ensures var i := At(s, a).auxList[0];
      Active(At(s, i)) && At(s, i).auxList == [] && At(s, i).typ >= RES_BY_HANDLE_LIB
    ensures var i := At(s, a).auxList[0];
      Decode(s, MakeHandle(s, i)) == i && NoDup(At(s, a).auxList) && MakeHandle(s, i) != NULL_HANDLE
  {
    var i := At(s, a).auxList[0];
    assert i in At(s, a).auxList && AuxListAt(s.slots, a) && AuxSlotAt(s.slots, i);
    AuxFacts(s, a);
    HandleDecodes(s, i);
  }

  lemma {:induction false} FirstLeaves(s: State, a: nat)
    requires var q := At(s, a).auxList; q != [] && NoDup(q) && q[0] != a && At(s, q[0]).auxHead == a
    requires a < |s.slots| && At(s, a).auxList[0] < |s.slots|
    ensures var q := At(s, a).auxList; var t := LeaveAux(s, q[0]);
      && t == s.(slots := t.slots) && |t.slots| == |s.slots|
      && At(t, a) == At(s, a).(auxList := q[1..]) && At(t, q[0]) == At(s, q[0]).(auxHead := 0)
      && forall j: nat :: j != a && j != q[0] ==> At(t, j) == At(s, j)
  {
    var q := At(s, a).auxList;
    WithoutOne(q, 0);
    assert q[..0] + q[1..] == q[1..];
  }

  /** Auto-freeing a secondary handle that is on no list. */
  lemma {:induction false} FreeStep(s: State, i: nat)
    requires Inv(s) && s.halt == Running && 0 < i < |s.slots| && Active(At(s, i)) && At(s, i).auxList == []
    requires At(s, i).owner.None? && !At(s, i).freeing && At(s, i).auxHead == 0
    ensures var (c, t) := FreeS(s, MakeHandle(s, i), SECONDARY_CB);
      && c == OK && Inv(t) && t.halt == Running && t.free == [i] + s.free && t.prim == s.prim
      && At(t, i) == At(s, i).(gen := At(s, i).gen + 1, freeing := true)
    ensures var t := FreeS(s, MakeHandle(s, i), SECONDARY_CB).1; forall j: nat :: j != i ==> At(t, j) == At(s, j)
  {
    hide Inv, Decode, MakeHandle, Retire, Release;
    HandleDecodes(s, i);
    var s1 := MarkFreeing(s, i, true);
    PutInv(s, i, At(s, i).(freeing := true));
    RetireFacts(s1, i);
    RetireSlots(s1, i);
    RetireOthers(s1, i);
    assert FreeS(s, MakeHandle(s, i), SECONDARY_CB) == (OK, Retire(s1, i));
  }

  lemma {:induction false} RetireOthers(s: State, i: nat)
    requires i < |s.slots| && At(s, i).owner.None? && At(s, i).auxHead == 0
    ensures forall j: nat :: j != i ==> At(Retire(s, i), j) == At(s, j)
  {}

  /** Draining the list of head a: every member is visited once; secondary ones are freed,
      primary ones stay as they were but unlinked, and no other slot changes. */
  lemma {:induction false} DrainEffect(s: State, a: nat)
    requires Inv(s) && s.halt == Running && Drainable(s, a)
    ensures DrainedTo(s, ExecAll(s, DrainOps(s, At(s, a).auxList)), a, At(s, a).auxList, [])
    decreases |At(s, a).auxList|
  {
    var q := At(s, a).auxList;
    if q != [] {
      hide *;
      DrainableFacts(s, a);
      DrainOpsStep(s, q);
      var s1 := ExecAll(s, MemberOps(s, q[0]));
      MemberStep(s, a);
      DrainedKeeps(s, s1, a);
      DrainEffect(s1, a);
      ExecAllConcat(s, MemberOps(s, q[0]), DrainOps(s, q[1..]));
      DrainCompose(s, s1, ExecAll(s1, DrainOps(s1, q[1..])), a, q);
    } else {
      assert ExecAll(s, DrainOps(s, q)) == s;
    }
  }

  /** An active slot is inside the array. */
  lemma {:induction false} SlotCount(s: State, a: nat)
    requires Active(At(s, a))
    ensures a < |s.slots|
  {}

  lemma {:induction false} SameOps(s: State, t: State, q: seq<nat>)
    requires forall i :: i in q ==> At(t, i) == At(s, i)
    ensures DrainOps(t, q) == DrainOps(s, q) && Freed(t, q) == Freed(s, q)
  {
    if q != [] {
      assert q[0] in q;
      SameOps(s, t, q[1..]);
    }
  }

  /** The teardown never aborts. Afterwards the auxiliary head is free, so is every secondary
      member, in front of what was free before; every primary member is active, unlinked and
      otherwise as before; and no other slot and no primary list has changed. */
  lemma {:induction false} TeardownEffect(s: State, a: nat)
    requires Inv(s) && s.halt == Running && Drainable(s, a)
    ensures var q := At(s, a).auxList; var t := ExecAll(s, TeardownOps(s, a));
      && Inv(t) && t.halt == Running && t.free == [a] + Freed(s, q) + s.free && t.prim == s.prim
      && !Active(At(t, a)) && At(t, a).gen == At(s, a).gen + 1
      && (forall i :: i in q && At(s, i).typ == SECONDARY_AEE ==> !Active(At(t, i)) && At(t, i).gen == At(s, i).gen + 1)
      && (forall i :: i in q && At(s, i).typ == PRIMARY_AEE ==> Active(At(t, i)) && At(t, i) == At(s, i).(auxHead := 0))
    ensures var q := At(s, a).auxList;
      forall j: nat :: j != a && j !in q ==> At(ExecAll(s, TeardownOps(s, a)), j) == At(s, j)
  {
    var q := At(s, a).auxList;
    AuxFacts(s, a);
    MembersAlive(s, a);
    hide Inv, ExecAll, FreeS, MakeHandle, Drainable, DrainedTo;
    DrainEffect(s, a);
    var s1 := ExecAll(s, DrainOps(s, q));
    TeardownMiddle(s, s1, a, q);
    SameGenSameHandle(s, s1, a);
    FreeHeadStep(s1, a);
    ExecAllConcat(s, DrainOps(s, q), [Free(MakeHandle(s, a), SECONDARY_CB)]);
    RunFree(s1, MakeHandle(s, a));
    TeardownEnd(s, s1, FreeS(s1, MakeHandle(s, a), SECONDARY_CB).1, a, q);
  }

  lemma {:induction false} MembersAlive(s: State, a: nat)
    requires Inv(s) && Drainable(s, a)
    ensures forall i :: i in At(s, a).auxList ==> Active(At(s, i))
    ensures Active(At(s, a)) && At(s, a).typ == AUX_LINK_HEAD && !At(s, a).freeing
  {
    forall i | i in At(s, a).auxList ensures Active(At(s, i)) {
      assert AuxListAt(s.slots, a) && AuxSlotAt(s.slots, i);
    }
  }

  lemma {:induction false} DrainableFacts(s: State, a: nat)
    requires Inv(s) && Drainable(s, a)
    ensures var q := At(s, a).auxList; NoDup(q) && a !in q && a != 0
    ensures Active(At(s, a)) && a < |s.slots|
  {
    AuxFacts(s, a);
    assert AuxListAt(s.slots, a);
  }

  lemma {:induction false} TeardownMiddle(s: State, t: State, a: nat, q: seq<nat>)
    requires DrainedTo(s, t, a, q, [])
    ensures Inv(t) && t.halt == Running && At(t, a) == At(s, a).(auxList := [])
  {
    hide Inv;
  }

  lemma {:induction false} TeardownEnd(s: State, s1: State, t: State, a: nat, q: seq<nat>)
    requires DrainedTo(s, s1, a, q, []) && a !in q && Active(At(s, a))
    requires forall i :: i in q ==> Active(At(s, i))
    requires Inv(t) && t.halt == Running && t.free == [a] + s1.free && t.prim == s1.prim
    requires At(t, a).gen == At(s1, a).gen + 1 && forall j: nat :: j != a ==> At(t, j) == At(s1, j)
    ensures t.free == [a] + Freed(s, q) + s.free && t.prim == s.prim
    ensures !Active(At(t, a)) && At(t, a).gen == At(s, a).gen + 1
    ensures forall i :: i in q && At(s, i).typ == SECONDARY_AEE ==>
      !Active(At(t, i)) && At(t, i).gen == At(s, i).gen + 1
    ensures forall i :: i in q && At(s, i).typ == PRIMARY_AEE ==>
      Active(At(t, i)) && At(t, i) == At(s, i).(auxHead := 0)
    ensures forall j: nat :: j != a && j !in q ==> At(t, j) == At(s, j)
  {
    hide Inv, Freed;
  }

  lemma {:induction false} RunFree(s: State, h: nat)
    requires s.halt == Running
    ensures ExecAll(s, [Free(h, SECONDARY_CB)]) == FreeS(s, h, SECONDARY_CB).1
  {
    assert ExecAll(s, [Free(h, SECONDARY_CB)]) == ExecAll(Exec(s, Free(h, SECONDARY_CB)), []);
  }

  /** aux_link_head_free lets an empty head go. */
  lemma {:induction false} FreeHeadStep(s: State, a: nat)
    requires Inv(s) && s.halt == Running && Active(At(s, a)) && At(s, a).typ == AUX_LINK_HEAD
    requires At(s, a).auxList == [] && !At(s, a).freeing
    ensures var t := FreeS(s, MakeHandle(s, a), SECONDARY_CB).1;
      && Inv(t) && t.halt == Running && t.free == [a] + s.free && t.prim == s.prim
      && At(t, a).gen == At(s, a).gen + 1
      && forall j: nat :: j != a ==> At(t, j) == At(s, j)
  {
    assert AuxSlotAt(s.slots, a) && PrimSlotAt(s.slots, s.prim, a);
    assert a != 0;
    hide Inv, Decode, MakeHandle, Retire, Release;
    HandleDecodes(s, a);
    var s1 := MarkFreeing(s, a, true);
    PutInv(s, a, At(s, a).(freeing := true));
    RetireFacts(s1, a);
    RetireSlots(s1, a);
    RetireOthers(s1, a);
    assert FreeS(s, MakeHandle(s, a), SECONDARY_CB).1 == Retire(s1, a);
  }

  /** How u_handle_autofree ends: Aborts is its own abort; PastTable a read behind the table of
      auto-free functions registered for a group. */
  datatype AutoFreed = Done | Aborts | PastTable

  /** An invalid handle is ignored, a type without an auto-free function aborts, and so does a
      refused free. The AEE registers functions for the first two types of its group. */
  function AutoFreeS(s: State, h: nat): (AutoFreed, State) {
    var i := Decode(s, h);
    if i == 0 || At(s, i).typ == PRIMARY_AEE then (Done, s)
    else if At(s, i).typ == SECONDARY_AEE then
      var (c, t) := FreeS(s, h, SECONDARY_CB);
      (if c == OK then Done else Aborts, t)
    else (if At(s, i).typ < PRIMARY_AEE then Aborts else PastTable, s)
  }

  /** Auto-freeing goes through exactly for an invalid handle, a primary handle, and a secondary
      handle that is on no primary list and not being freed; only then is a slot freed. The
      table is left exactly for types behind its two. */
  lemma {:induction false} AutoFreeEffect(s: State, h: nat)
    requires Inv(s) && s.halt == Running
    ensures var i := Decode(s, h); var (r, t) := AutoFreeS(s, h);
      && (r == Done && t.halt == Running
          <==> i == 0 || At(s, i).typ == PRIMARY_AEE
               || (At(s, i).typ == SECONDARY_AEE && At(s, i).owner.None? && !At(s, i).freeing))
      && (r == PastTable <==> i != 0 && At(s, i).typ > SECONDARY_AEE)
      && (if i != 0 && At(s, i).typ == SECONDARY_AEE && r == Done && t.halt == Running
          then At(t, i).gen == At(s, i).gen + 1 && t.free == [i] + s.free
          else t.halt == Running ==> t == s)
      && InModel(t)
  {
    hide Inv, Retire;
    var i := Decode(s, h);
    if i != 0 && At(s, i).typ == SECONDARY_AEE && !At(s, i).freeing {
      var s1 := MarkFreeing(s, i, true);
      NoMembers(s, i);
      PutInv(s, i, At(s, i).(freeing := true));
      assert AutoFreeS(s, h) == (Done, Retire(s1, i));
      RetireFacts(s1, i);
      RetireHalt(s1, i);
      if At(s, i).owner.None? { RetireSlots(s1, i); }
    }
  }

  lemma {:induction false} RetireHalt(s: State, i: nat)
    requires s.halt == Running
    ensures Retire(s, i).halt == Running || Retire(s, i).halt == StillLinked
  {}

  /** Only auxiliary heads have members. */
  lemma {:induction false} NoMembers(s: State, i: nat)
    requires Inv(s) && i < |s.slots| && At(s, i).typ != AUX_LINK_HEAD
    ensures At(s, i).auxList == []
  {
    if At(s, i).auxList != [] { HeadFacts(s.slots, i); }
  }

  /** u_handle_autofree on the array. */
  method AutoFree(lib: HandleLib, h: nat) returns (r: AutoFreed)
    requires lib.Valid()
    modifies lib, lib.world
    ensures lib.Settled() && (r, lib.abs) == AutoFreeS(old(lib.abs), h)
  {
    hide Inv, Rep, Decode, FreeS;
    r := Done;
    AutoFreeEffect(lib.abs, h);
    var code, typ, obj := lib.GetTypeObj(h);
    if code == OK {
      if typ == SECONDARY_AEE {
        var freed := lib.Free(h, SECONDARY_CB);
        r := if freed == OK then Done else Aborts;
      } else if typ != PRIMARY_AEE {
        r := if typ < PRIMARY_AEE then Aborts else PastTable;
      }
    }
  }

  /** A handle that decodes is the handle of its slot. */
  lemma {:induction false} HandleOfSlot(s: State, h: nat)
    requires Inv(s) && Decode(s, h) != 0
    ensures h == MakeHandle(s, Decode(s, h))
  {}

  /** What the loop of aee_free_handle needs to know about one member: the handle after it, and
      what is left to do once it is gone. */
  lemma {:induction false} DrainTurn(s: State, a: nat)
    requires Inv(s) && s.halt == Running && Drainable(s, a) && At(s, a).auxList != []
    ensures var q := At(s, a).auxList; var t := ExecAll(s, MemberOps(s, q[0]));
      && Inv(t) && t.halt == Running && Drainable(t, a) && At(t, a).auxList == q[1..]
      && MakeHandle(t, a) == MakeHandle(s, a) && FirstHandle(t, a) == NextAuxS(s, MakeHandle(s, q[0])).1
      && ExecAll(t, TeardownOps(t, a)) == ExecAll(s, TeardownOps(s, a))
  {
    var q := At(s, a).auxList;
    hide *;
    DrainableFacts(s, a);
    NextOfFirst(s, a);
    var t := ExecAll(s, MemberOps(s, q[0]));
    MemberStep(s, a);
    DrainedKeeps(s, t, a);
    assert TeardownOps(s, a) == DrainOps(s, q) + [Free(MakeHandle(s, a), SECONDARY_CB)] by { TeardownIs(s, a); }
    var last := [Free(MakeHandle(s, a), SECONDARY_CB)];
    DrainOpsStep(s, q);
    TeardownIs(t, a);
    assert TeardownOps(s, a) == MemberOps(s, q[0]) + (DrainOps(s, q[1..]) + last);
    ExecAllConcat(s, MemberOps(s, q[0]), DrainOps(s, q[1..]) + last);
    FirstHandleIs(s, t, a);
  }

  lemma {:induction false} TeardownIs(s: State, a: nat)
    ensures TeardownOps(s, a) == DrainOps(s, At(s, a).auxList) + [Free(MakeHandle(s, a), SECONDARY_CB)]
  {}

  lemma {:induction false} FirstHandleIs(s: State, t: State, a: nat)
    requires var q := At(s, a).auxList; q != [] && At(t, a).auxList == q[1..]
    requires forall i :: i in At(t, a).auxList ==> MakeHandle(t, i) == MakeHandle(s, i)
    ensures var q := At(s, a).auxList; FirstHandle(t, a) == if |q| == 1 then NULL_HANDLE else MakeHandle(s, q[1])
  {
    hide MakeHandle;
    if At(t, a).auxList != [] { assert At(t, a).auxList[0] in At(t, a).auxList; }
  }

  /** Draining the first member leaves the rest of the list as it was, and drainable. */
  lemma {:induction false} DrainedKeeps(s: State, t: State, a: nat)
    requires Drainable(s, a) && At(s, a).auxList != [] && NoDup(At(s, a).auxList) && a !in At(s, a).auxList
    requires Active(At(s, a)) && DrainedTo(s, t, a, [At(s, a).auxList[0]], At(s, a).auxList[1..])
    ensures var r := At(s, a).auxList[1..]; Inv(t) && t.halt == Running && Drainable(t, a) && At(t, a).auxList == r
    ensures var r := At(s, a).auxList[1..]; DrainOps(t, r) == DrainOps(s, r) && Freed(t, r) == Freed(s, r)
    ensures MakeHandle(t, a) == MakeHandle(s, a)
    ensures forall i :: i in At(t, a).auxList ==> MakeHandle(t, i) == MakeHandle(s, i)
  {
    hide Inv;
    var q := At(s, a).auxList;
    SlotCount(t, a);
    assert forall i :: i in q[1..] ==> i in q && i != q[0] && i != a;
    SameOps(s, t, q[1..]);
  }

  lemma {:induction false} DrainOpsStep(s: State, q: seq<nat>)
    requires q != []
    ensures DrainOps(s, q) == MemberOps(s, q[0]) + DrainOps(s, q[1..])
  {}

  /** The handle of the first member of the list of head a, NULL_HANDLE when it is empty. */
  function FirstHandle(s: State, a: nat): nat {
    var q := At(s, a).auxList; if q == [] then NULL_HANDLE else MakeHandle(s, q[0])
  }

  /** u_handle_next_aux_linked on the head gives the first member, on that member the second. */
  lemma {:induction false} NextOfFirst(s: State, a: nat)
    requires Inv(s) && Drainable(s, a)
    ensures NextAuxS(s, MakeHandle(s, a)) == (OK, FirstHandle(s, a))
    ensures var q := At(s, a).auxList; q != [] ==>
      NextAuxS(s, MakeHandle(s, q[0])) == (OK, if |q| == 1 then NULL_HANDLE else MakeHandle(s, q[1]))
  {
    var q := At(s, a).auxList;
    HandleDecodes(s, a);
    assert AuxSlotAt(s.slots, a);
    MembersAlive(s, a);
    if q != [] {
      assert q[0] in q;
      MemberOfAux(s, a, q[0]);
      HandleDecodes(s, q[0]);
      hide Inv, Decode, MakeHandle;
      assert AuxNext(s, q[0]) == if |q| == 1 then 0 else q[1];
      if |q| > 1 { assert q[1] in q; NoZero(s, a); }
      assert a != 0;
    }
  }

  lemma {:induction false} NoZero(s: State, a: nat)
    requires Inv(s) && Drainable(s, a)
    ensures 0 !in At(s, a).auxList
  {
    AuxFacts(s, a);
  }

  /** The body of the loop: delink the member, auto-free it. */
  method DropFirst(lib: HandleLib, ghost a: nat, h: nat)
    requires lib.Valid() && Drainable(lib.abs, a) && At(lib.abs, a).auxList != []
    requires h == MakeHandle(lib.abs, At(lib.abs, a).auxList[0])
    modifies lib, lib.world
    ensures lib.Settled() && lib.abs == ExecAll(old(lib.abs), MemberOps(old(lib.abs), At(old(lib.abs), a).auxList[0]))
  {
    ghost var s := lib.abs;
    ghost var i := At(s, a).auxList[0];
    hide *;
    FirstMember(s, a);
    DelinkStep(s, a);
    DroppedMember(s, a);
    var code := lib.DelinkAux(h);
    var r := AutoFree(lib, h);
  }

  /** The calls on one member, the second seen from the state the first leaves. */
  lemma {:induction false} DroppedMember(s: State, a: nat)
    requires Inv(s) && s.halt == Running && Drainable(s, a) && At(s, a).auxList != []
    ensures var h := MakeHandle(s, At(s, a).auxList[0]); var t := DelinkAuxS(s, h).1;
      && ExecAll(s, MemberOps(s, At(s, a).auxList[0])) == AutoFreeS(t, h).1
  {
    var i := At(s, a).auxList[0];
    var h := MakeHandle(s, i);
    assert Owned(At(s, i)) by { assert i in At(s, a).auxList; }
    hide Inv, DelinkAuxS, FreeS, ExecAll, MakeHandle, Drainable, Decode;
    DelinkStep(s, a);
    var t := DelinkAuxS(s, h).1;
    SameGenSameHandle(s, t, i);
    HandleDecodes(t, i);
    if At(s, i).typ == SECONDARY_AEE { RunTwo(s, h); } else { RunOne(s, h); }
  }

  /** The part of aee_free_handle that frees what the application owns: walk the auxiliary
      list by handle, saving the next one, delink and auto-free each, free the list head. */
  method FreeOwned(lib: HandleLib, hAux: nat)
    requires lib.Valid() && Decode(lib.abs, hAux) != 0 && Drainable(lib.abs, Decode(lib.abs, hAux))
    modifies lib, lib.world
    ensures lib.Valid() && lib.abs == ExecAll(old(lib.abs), TeardownOps(old(lib.abs), Decode(old(lib.abs), hAux)))
  {
    hide *;
    ghost var a := Decode(lib.abs, hAux);
    ValidFacts(lib);
    HandleOfSlot(lib.abs, hAux);
    NextOfFirst(lib.abs, a);
    var code, h := lib.NextAux(hAux);
    while h != NULL_HANDLE
      invariant lib.Valid() && lib.abs.halt == Running && Inv(lib.abs) && Drainable(lib.abs, a)
      invariant hAux == MakeHandle(lib.abs, a) && h == FirstHandle(lib.abs, a)
      invariant ExecAll(lib.abs, TeardownOps(lib.abs, a)) == ExecAll(old(lib.abs), TeardownOps(old(lib.abs), a))
      decreases |At(lib.abs, a).auxList|
    {
      NotEmptyYet(lib.abs, a);
      DrainTurn(lib.abs, a);
      FirstMember(lib.abs, a);
      var code', next := lib.NextAux(h);
      DropFirst(lib, a, h);
      SettledRuns(lib);
      h := next;
    }
    if At(lib.abs, a).auxList != [] { FirstMember(lib.abs, a); }
    FirstHandleNull(lib.abs, a);
    LastFree(lib.abs, a);
    code := lib.Free(hAux, SECONDARY_CB);
    SettledRuns(lib);
  }

  lemma {:induction false} ValidFacts(lib: HandleLib)
    requires lib.Valid()
    ensures lib.abs.halt == Running && Inv(lib.abs)
  {}

  lemma {:induction false} SettledRuns(lib: HandleLib)
    requires lib.Settled() && lib.abs.halt == Running
    ensures lib.Valid()
  {}

  lemma {:induction false} NotEmptyYet(s: State, a: nat)
    requires FirstHandle(s, a) != NULL_HANDLE
    ensures At(s, a).auxList != [] && FirstHandle(s, a) == MakeHandle(s, At(s, a).auxList[0])
  {}

  lemma {:induction false} FirstHandleNull(s: State, a: nat)
    requires At(s, a).auxList != [] ==> MakeHandle(s, At(s, a).auxList[0]) != NULL_HANDLE
    ensures FirstHandle(s, a) == NULL_HANDLE <==> At(s, a).auxList == []
  {}

  /** With no member left, the only call to come frees the head. */
  lemma {:induction false} LastFree(s: State, a: nat)
    requires Inv(s) && s.halt == Running && Drainable(s, a) && At(s, a).auxList == []
    ensures ExecAll(s, TeardownOps(s, a)) == FreeS(s, MakeHandle(s, a), SECONDARY_CB).1
    ensures InModel(FreeS(s, MakeHandle(s, a), SECONDARY_CB).1)
    ensures FreeS(s, MakeHandle(s, a), SECONDARY_CB).1.halt == Running
    ensures Inits(SECONDARY_CB.ops) == {}
  {
    var h := MakeHandle(s, a);
    assert TeardownOps(s, a) == [Free(h, SECONDARY_CB)];
    RunFree(s, h);
    hide Inv, FreeS, MakeHandle;
    FreeHeadStep(s, a);
  }
}
