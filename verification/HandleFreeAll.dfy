/** What u_handle_free_all promises when each accepting callback delinks its own handle and
    the callbacks otherwise leave the list alone. */
module HandleFreeAll {
  import opened Seqs
  import opened HandleModel
  import opened HandleInv
  import opened HandleRuns
  import opened HandleTheorems
  import opened HandleParse

  /** The lists a script links into or delinks from, at any depth. */
  function Touches(op: Op): set<HLink>
    decreases op, 1
  {
    match op
    case Link(l, _) => {l}
    case Delink(l, _) => {l}
    case LinkInit(l) => {l}
    case Free(_, cb) => TouchesAll(cb.ops)
    case FreeAll(_, frees) => TouchesFrees(frees)
    case Parse(_, parses) => TouchesParses(parses)
    case _ => {}
  }

  function TouchesAll(ops: seq<Op>): set<HLink>
    decreases ops, 0
  {
    if ops == [] then {} else Touches(ops[0]) + TouchesAll(ops[1..])
  }

  function TouchesFrees(frees: seq<FreeCb>): set<HLink>
    decreases frees, 0
  {
    if frees == [] then {} else TouchesAll(frees[0].ops) + TouchesFrees(frees[1..])
  }

  function TouchesParses(parses: seq<ParseCb>): set<HLink>
    decreases parses, 0
  {
    if parses == [] then {} else TouchesAll(parses[0].ops) + TouchesParses(parses[1..])
  }

  /** List l has the same members, each still the same active slot. */
  ghost predicate Same(s: State, t: State, l: HLink) {
    && l in t.prim && Members(t, l) == Members(s, l)
    && forall i :: i in Members(s, l) ==> At(t, i).gen == At(s, i).gen
  }

  /** The step did not abort and left l alone. */
  ghost predicate Alone(s: State, t: State, l: HLink) {
    t.halt == Running ==> Inv(t) && Same(s, t, l)
  }

  lemma {:induction false} MembersActive(s: State, l: HLink)
    requires Inv(s)
    ensures forall i :: i in Members(s, l) ==> 0 < i < |s.slots| && Active(At(s, i)) && At(s, i).owner == Some(l)
  {
    hide Inv;
    forall i | i in Members(s, l) ensures 0 < i < |s.slots| && Active(At(s, i)) && At(s, i).owner == Some(l) {
      MemberFacts(s, l, i);
    }
  }

  lemma {:induction false} AllocAlone(s: State, typ: nat, obj: int, tag: int, l: HLink)
    requires Inv(s) && s.halt == Running && l in s.prim
    ensures AllocS(s, typ, obj, tag).2.halt == Running ==> Same(s, AllocS(s, typ, obj, tag).2, l)
  {
    hide Inv;
    MembersActive(s, l);
    if typ != INV_HANDLE_TYPE && CanAlloc(s) {
      AllocFacts(s, typ, obj, tag);
      hide AllocS;
    }
  }

  /** Retiring a slot other than a member; for a member the library aborts. */
  lemma {:induction false} RetireAlone(s: State, i: nat, l: HLink)
    requires Inv(s) && s.halt == Running && i < |s.slots|
    requires Active(s.slots[i]) && s.slots[i].auxList == [] && l in s.prim
    ensures Retire(s, i).halt == Running ==> Same(s, Retire(s, i), l)
  {
    hide Inv;
    MembersActive(s, l);
    if Retire(s, i).halt == Running {
      RetireFacts(s, i);
      RetireSlots(s, i);
      hide Retire;
    }
  }

  /** A script that does not touch l cannot free or move its members, whatever else it does:
      freeing a linked handle aborts. */
  lemma {:induction false} ExecAlone(s: State, op: Op, l: HLink)
    requires Inv(s) && s.halt == Running && l in s.prim && l !in Touches(op)
    ensures Alone(s, Exec(s, op), l)
    decreases op, 1
  {
    hide Inv, Same, Decode, LinkS, LinkInitS, DelinkS, LinkAuxS, DelinkAuxS, SetObjS, AllocS, CallFree;
    ExecKeeps(s, op);
    SameWrap(s, s, l);
    match op
    case LinkInit(k) => LinkAlone(s, k, 0, l);
    case Link(k, h) => LinkAlone(s, k, h, l);
    case Delink(k, h) => DelinkAlone(s, k, h, l);
    case LinkAux(ah, h) => FieldAlone(s, ah, h, 0, l);
    case SetObj(h, obj) => FieldAlone(s, 0, h, obj, l);
    case Alloc(typ, obj, tag) => AllocAlone(s, typ, obj, tag, l);
    case AllocAuxHead(obj, tag) => AllocAlone(s, AUX_LINK_HEAD, obj, tag, l);
    case DelinkAux(h) => FieldAlone(s, 0, h, 0, l);
    case Free(h, cb) =>
      var i := Decode(s, h);
      if i != 0 && !At(s, i).freeing {
        DecodedActive(s, h);
        CallFreeAlone(s, i, cb, l);
      }
    case FreeAll(k, frees) =>
      if k in s.prim && k !in s.parsing && k !in s.freeAll {
        BracketInv(s, k);
        FreesAlone(s.(freeAll := s.freeAll + {k}), k, frees, l);
        SameWrap(s, FreeAllLoop(s.(freeAll := s.freeAll + {k}), k, frees).1, l);
      }
    case Parse(k, parses) =>
      if k in s.prim && k !in s.parsing {
        var s0 := s.(parsing := s.parsing + {k});
        BracketInv(s, k);
        ParsesAlone(s0, k, Nth(Members(s0, k), 0), 0, parses, l);
        SameWrap(s, ParseLoop(s0, k, Nth(Members(s0, k), 0), 0, parses), l);
      }
  }

  /** Header flags play no part in Same. */
  lemma {:induction false} SameWrap(s: State, t: State, l: HLink)
    ensures forall p, q, p', q' :: Same(s.(parsing := p, freeAll := q), t, l) ==>
      Same(s, t.(parsing := p', freeAll := q'), l)
    ensures l in s.prim ==> Same(s, s, l)
  {}

  lemma {:induction false} LinkAlone(s: State, k: HLink, h: nat, l: HLink)
    requires l in s.prim && k != l
    ensures Same(s, LinkS(s, k, h).1, l) && Same(s, LinkInitS(s, k), l)
  {}

  lemma {:induction false} DelinkAlone(s: State, k: HLink, h: nat, l: HLink)
    requires l in s.prim && k != l
    ensures Same(s, DelinkS(s, k, h).1, l)
  {}

  lemma {:induction false} FieldAlone(s: State, ah: nat, h: nat, obj: int, l: HLink)
    requires Inv(s) && l in s.prim
    ensures Same(s, LinkAuxS(s, ah, h).1, l) && Same(s, DelinkAuxS(s, h).1, l) && Same(s, SetObjS(s, h, obj).1, l)
  {
    hide Inv;
    if DelinkAuxS(s, h).0 == OK { UnhookFacts(s, Decode(s, h)); }
  }

  lemma {:induction false} ExecAllAlone(s: State, ops: seq<Op>, l: HLink)
    requires Inv(s) && s.halt == Running && l in s.prim && l !in TouchesAll(ops)
    ensures Alone(s, ExecAll(s, ops), l)
    decreases ops, 0
  {
    hide Inv;
    if ops != [] {
      var s1 := Exec(s, ops[0]);
      ExecAlone(s, ops[0], l);
      if s1.halt == Running {
        ExecAllAlone(s1, ops[1..], l);
      } else {
        ExecAllHalted(s1, ops[1..]);
      }
    }
  }

  lemma {:induction false} CallFreeAlone(s: State, i: nat, cb: FreeCb, l: HLink)
    requires Inv(s) && s.halt == Running && i < |s.slots| && Active(s.slots[i]) && !s.slots[i].freeing
    requires l in s.prim && l !in TouchesAll(cb.ops)
    ensures Alone(s, CallFree(s, i, cb).1, l)
    decreases cb, 0
  {
    hide Inv, Retire;
    CallFreeKeeps(s, i, cb);
    var s1 := MarkFreeing(s, i, true);
    PutInv(s, i, At(s, i).(freeing := true));
    if s.slots[i].typ == AUX_LINK_HEAD {
      if s1.slots[i].auxList == [] { RetireAlone(s1, i, l); }
    } else {
      var s2 := ExecAll(s1, cb.ops);
      ExecAllAlone(s1, cb.ops, l);
      ExecAllKeeps(s1, cb.ops);
      if s2.halt == Running {
        AfterFreeCb(s, i, s2, LinksAll(cb.ops));
        if cb.accept { RetireAlone(s2, i, l); }
      }
    }
  }

  lemma {:induction false} FreesAlone(s: State, k: HLink, frees: seq<FreeCb>, l: HLink)
    requires Inv(s) && s.halt == Running && k in s.prim && l in s.prim && l !in TouchesFrees(frees)
    ensures Alone(s, FreeAllLoop(s, k, frees).1, l)
    decreases frees, 0
  {
    hide Inv, CallFree;
    var m := Members(s, k);
    if m != [] && !At(s, m[0]).freeing && frees != [] {
      MemberFacts(s, k, m[0]);
      CallFreeAlone(s, m[0], frees[0], l);
      CallFreeKeeps(s, m[0], frees[0]);
      var (ok, s1) := CallFree(s, m[0], frees[0]);
      if s1.halt == Running && ok { FreesAlone(s1, k, frees[1..], l); }
    }
  }

  lemma {:induction false} ParsesAlone(s: State, k: HLink, cur: nat, idx: nat, parses: seq<ParseCb>, l: HLink)
    requires Inv(s) && s.halt == Running && k in s.prim && l in s.prim && l !in TouchesParses(parses)
    ensures Alone(s, ParseLoop(s, k, cur, idx, parses), l)
    decreases parses, 1
  {
    hide Inv, CallParse;
    if cur != 0 && cur in Members(s, k) && parses != [] {
      var s1 := CallParse(s, k, cur, idx, parses[0]);
      CallParseAlone(s, k, cur, idx, parses[0], l);
      CallParseKeeps(s, k, cur, idx, parses[0]);
      if s1.halt == Running {
        match parses[0].result
        case HPNext =>
          var idx' := if |Members(s1, k)| >= |Members(s, k)| then idx + 1 else idx;
          ParsesAlone(s1, k, After(Members(s, k), cur), idx', parses[1..], l);
        case HPRestart => ParsesAlone(s1, k, Nth(Members(s1, k), 0), 0, parses[1..], l);
        case _ =>
      }
    }
  }

  lemma {:induction false} CallParseAlone(s: State, k: HLink, cur: nat, idx: nat, cb: ParseCb, l: HLink)
    requires Inv(s) && s.halt == Running && cur in Members(s, k) && l in s.prim && l !in TouchesAll(cb.ops)
    ensures Alone(s, CallParse(s, k, cur, idx, cb), l)
    decreases cb, 0
  {
    hide Inv;
    var m := Members(s, k);
    MemberFacts(s, k, cur);
    CallParseKeeps(s, k, cur, idx, cb);
    PutInv(s, cur, At(s, cur).(parsing := true));
    LogVisitInv(MarkParsing(s, cur, true), k, idx, cur, m);
    ExecAllAlone(Log(MarkParsing(s, cur, true), Visit(k, idx, |m|, cur, m)), cb.ops, l);
  }

  // ---------- u_handle_free_all ----------

  /** The callback of the member whose handle is h: if it accepts, it delinks h from l once
      and otherwise leaves l alone; if it refuses, it leaves l alone. */
  ghost predicate WellBehaved(cb: FreeCb, l: HLink, h: nat) {
    if cb.accept then exists k: nat :: DelinksAt(cb.ops, l, h, k)
    else l !in TouchesAll(cb.ops)
  }

  ghost predicate DelinksAt(ops: seq<Op>, l: HLink, h: nat, k: nat) {
    k < |ops| && ops[k] == Delink(l, h) && l !in TouchesAll(ops[..k]) && l !in TouchesAll(ops[k + 1..])
  }

  /** The callbacks recorded for the members m of l behave well. */
  ghost predicate AllBehave(s: State, l: HLink, m: seq<nat>, frees: seq<FreeCb>) {
    forall k :: 0 <= k < |m| && k < |frees| ==> WellBehaved(frees[k], l, MakeHandle(s, m[k]))
  }

  lemma {:induction false} FirstBehaves(s: State, l: HLink, m: seq<nat>, frees: seq<FreeCb>)
    requires AllBehave(s, l, m, frees) && m != [] && frees != []
    ensures WellBehaved(frees[0], l, MakeHandle(s, m[0]))
  {}

  /** So do those for the members left, whose handles are what they were. */
  lemma {:induction false} RestBehave(s: State, t: State, l: HLink, m: seq<nat>, frees: seq<FreeCb>)
    requires AllBehave(s, l, m, frees) && m != [] && frees != []
    requires forall j :: j in m[1..] ==> At(t, j).gen == At(s, j).gen
    ensures AllBehave(t, l, m[1..], frees[1..])
  {
    hide WellBehaved, MakeHandle;
    var m', frees' := m[1..], frees[1..];
    forall k | 0 <= k < |m'| && k < |frees'| ensures WellBehaved(frees'[k], l, MakeHandle(t, m'[k])) {
      assert m'[k] in m' && m'[k] == m[k + 1] && frees'[k] == frees[k + 1];
      SameGenSameHandle(s, t, m'[k]);
    }
  }

  /** An accepting callback takes its own member off l and leaves the others as they were. */
  lemma {:induction false} AcceptTakesOne(s: State, l: HLink, i: nat, cb: FreeCb)
    requires Inv(s) && s.halt == Running && i in Members(s, l) && l !in s.parsing
    requires cb.accept && WellBehaved(cb, l, MakeHandle(s, i))
    ensures var t := ExecAll(s, cb.ops); t.halt == Running ==>
      && Inv(t) && l in t.prim && Members(t, l) == Without(Members(s, l), {i})
      && (forall j :: j in Members(t, l) ==> At(t, j).gen == At(s, j).gen)
  {
    hide Inv, MakeHandle, ExecAll, TouchesAll, Without, GuarOn;
    var h := MakeHandle(s, i);
    var k: nat :| DelinksAt(cb.ops, l, h, k);
    var pre, post := cb.ops[..k], cb.ops[k + 1..];
    assert cb.ops == pre + ([Delink(l, h)] + post);
    ExecAllConcat(s, pre, [Delink(l, h)] + post);
    var s1 := ExecAll(s, pre);
    MemberFacts(s, l, i);
    ExecAllAlone(s, pre, l);
    ExecAllKeeps(s, pre);
    if s1.halt == Running {
      SameGenSameHandle(s, s1, i);
      SameParsing(s, s1, LinksAll(pre));
      WithoutMembers(Members(s, l), {i});
      DelinkThenAlone(s1, l, i, post);
    } else {
      ExecAllHalted(s1, [Delink(l, h)] + post);
    }
  }

  lemma {:induction false} SameParsing(s: State, t: State, links: set<HLink>)
    requires Guar(s, t, links)
    ensures t.parsing == s.parsing
  {}

  /** Delinking a member, and then a script that leaves the list alone. */
  lemma {:induction false} DelinkThenAlone(s: State, l: HLink, i: nat, post: seq<Op>)
    requires Inv(s) && s.halt == Running && i in Members(s, l) && l !in s.parsing && l !in TouchesAll(post)
    ensures var t := ExecAll(s, [Delink(l, MakeHandle(s, i))] + post); t.halt == Running ==>
      && Inv(t) && l in t.prim && Members(t, l) == Without(Members(s, l), {i})
      && (forall j :: j in Members(t, l) ==> At(t, j).gen == At(s, j).gen)
  {
    hide Inv, MakeHandle, DelinkS, TouchesAll;
    var delink := Delink(l, MakeHandle(s, i));
    assert ([delink] + post)[1..] == post;
    DelinkWorks(s, l, i);
    WithoutMembers(Members(s, l), {i});
    ExecAllAlone(Exec(s, delink), post, l);
  }

  /** One round of the loop for the member at the head: it leaves the list and its handle
      dies if the callback accepts, and nothing about the list changes if it refuses. */
  lemma {:induction false} RoundEffect(s: State, l: HLink, cb: FreeCb)
    requires Inv(s) && s.halt == Running && l !in s.parsing && Members(s, l) != []
    requires !At(s, Members(s, l)[0]).freeing && WellBehaved(cb, l, MakeHandle(s, Members(s, l)[0]))
    ensures var m := Members(s, l); var (ok, t) := CallFree(s, m[0], cb); t.halt == Running ==>
      && ok == cb.accept && Inv(t) && t.parsing == s.parsing && l in t.prim
      && Members(t, l) == (if cb.accept then m[1..] else m)
      && (cb.accept ==> At(t, m[0]).gen == At(s, m[0]).gen + 1)
      && (forall j :: j in Members(t, l) ==> At(t, j).gen == At(s, j).gen && At(t, j).freeing == At(s, j).freeing)
  {
    hide Inv, MakeHandle, GuarOn, ExecAll, Without, LinksAll, TouchesAll, Release;
    var m, i := Members(s, l), Members(s, l)[0];
    assert i in m;
    MemberFacts(s, l, i);
    CallFreeKeeps(s, i, cb);
    var (ok, t) := CallFree(s, i, cb);
    var s1 := MarkFreeing(s, i, true);
    PutInv(s, i, At(s, i).(freeing := true));
    SameGenSameHandle(s, s1, i);
    ExecAllKeeps(s1, cb.ops);
    var s2 := ExecAll(s1, cb.ops);
    if t.halt == Running {
      AfterFreeCb(s, i, s2, LinksAll(cb.ops));
      if cb.accept {
        AcceptTakesOne(s1, l, i, cb);
        WithoutOne(m, 0);
        RetireFacts(s2, i);
        RetireSlots(s2, i);
      } else {
        ExecAllAlone(s1, cb.ops, l);
      }
      GuarFacts(s, t, LinksAll(cb.ops), s.parsing);
      StillFreeing(s, t, l);
    }
  }

  lemma {:induction false} GuarFacts(s: State, t: State, links: set<HLink>, protected: set<HLink>)
    requires GuarOn(s, t, links, protected)
    ensures t.parsing == s.parsing && forall i: nat :: SlotKept(At(s, i), At(t, i))
  {}

  /** FREEING marks of members whose generation is unchanged are unchanged. */
  lemma {:induction false} StillFreeing(s: State, t: State, l: HLink)
    requires Inv(s) && forall i: nat :: SlotKept(At(s, i), At(t, i))
    ensures forall j :: j in Members(s, l) && At(t, j).gen == At(s, j).gen ==> At(t, j).freeing == At(s, j).freeing
  {
    hide Inv;
    MembersActive(s, l);
    forall j | j in Members(s, l) && At(t, j).gen == At(s, j).gen ensures At(t, j).freeing == At(s, j).freeing {
      assert SlotKept(At(s, j), At(t, j));
    }
  }

  /** How many members u_handle_free_all frees: up to the first that is being freed already
      or whose callback refuses. */
  function Accepted(s: State, m: seq<nat>, frees: seq<FreeCb>): nat {
    if m == [] || frees == [] || At(s, m[0]).freeing || !frees[0].accept then 0
    else 1 + Accepted(s, m[1..], frees[1..])
  }

  /** u_handle_free_all with well-behaved callbacks: it succeeds exactly when every member
      is accepted, in which case the list is empty; otherwise the list that remains is the
      suffix starting at the refused handle. Every slot in front of it was freed (HandleFreed
      says when it is still free), every slot from there on is the one it was and not being
      freed by this call. */
  lemma {:induction false} FreeAllEffect(s: State, l: HLink, frees: seq<FreeCb>)
    requires Inv(s) && s.halt == Running && l in s.prim && l !in s.parsing && l !in s.freeAll
    requires AllBehave(s, l, Members(s, l), frees)
    ensures var m := Members(s, l); var (c, t) := FreeAllS(s, l, frees); var k := Accepted(s, m, frees);
      t.halt == Running ==>
      && Inv(t) && FreedTo(s, t, l, m, k)
      && (c == OK <==> k == |m|) && (c == FreeNotAllowed <==> k < |m|)
  {
    hide Inv, HandleOf, WellBehaved, FreeAllLoop, Accepted, GuarOn;
    var s0 := s.(freeAll := s.freeAll + {l});
    assert AllBehave(s0, l, Members(s0, l), frees);
    BracketInv(s, l);
    FreeAllKeeps(s, l, frees);
    FreeLoopEffect(s0, l, frees);
    AcceptedSame(s, s0, Members(s, l), frees);
  }

  lemma {:induction false} AcceptedSame(s: State, t: State, m: seq<nat>, frees: seq<FreeCb>)
    requires forall j :: j in m ==> At(t, j).freeing == At(s, j).freeing
    ensures Accepted(s, m, frees) == Accepted(t, m, frees) <= |m|
  {
    if m != [] && frees != [] { AcceptedSame(s, t, m[1..], frees[1..]); }
  }

  /** From s to t the first k members m of l were freed and the others are as they were. */
  ghost predicate FreedTo(s: State, t: State, l: HLink, m: seq<nat>, k: nat) {
    && k <= |m| && Members(t, l) == m[k..]
    && (forall j :: 0 <= j < k ==> At(t, m[j]).gen > At(s, m[j]).gen)
    && (forall j :: k <= j < |m| ==> At(t, m[j]).gen == At(s, m[j]).gen && At(t, m[j]).freeing == At(s, m[j]).freeing)
  }

  lemma {:induction false} FreedOneMore(s: State, s1: State, t: State, l: HLink, m: seq<nat>, k: nat)
    requires m != [] && FreedTo(s1, t, l, m[1..], k)
    requires At(t, m[0]).gen > At(s, m[0]).gen
    requires forall j :: j in m[1..] ==> At(s1, j).gen == At(s, j).gen && At(s1, j).freeing == At(s, j).freeing
    ensures FreedTo(s, t, l, m, k + 1)
  {
    forall j | 0 < j < |m| ensures m[j] == m[1..][j - 1] && m[j] in m[1..] {}
  }

  lemma {:induction false} FreeLoopEffect(s: State, l: HLink, frees: seq<FreeCb>)
    requires Inv(s) && s.halt == Running && l in s.prim && l !in s.parsing
    requires AllBehave(s, l, Members(s, l), frees)
    ensures var m := Members(s, l); var (ok, t) := FreeAllLoop(s, l, frees); var k := Accepted(s, m, frees);
      t.halt == Running ==> FreedTo(s, t, l, m, k) && (ok <==> k == |m|)
    decreases frees
  {
    hide Inv, MakeHandle, CallFree, WellBehaved, AllBehave, GuarOn, FreedTo;
    var m := Members(s, l);
    if m != [] && frees != [] && !At(s, m[0]).freeing {
      FirstBehaves(s, l, m, frees);
      RoundEffect(s, l, frees[0]);
      var (ok, s1) := CallFree(s, m[0], frees[0]);
      if s1.halt == Running && ok {
        RestBehave(s, s1, l, m, frees);
        FreeLoopEffect(s1, l, frees[1..]);
        AcceptedSame(s, s1, m[1..], frees[1..]);
        var t := FreeAllLoop(s1, l, frees[1..]).1;
        if t.halt == Running {
          FreeAllLoopKeeps(s1, l, frees[1..]);
          GuarFacts(s1, t, LinksFrees(frees[1..]), s1.parsing);
          assert SlotKept(At(s1, m[0]), At(t, m[0]));
          FreedOneMore(s, s1, t, l, m, Accepted(s1, m[1..], frees[1..]));
        }
      } else if s1.halt == Running {
        NoneFreed(s, s1, l, m);
      }
    } else {
      NoneFreed(s, s, l, m);
    }
  }

  /** The loop ends by the length of the list: with well-behaved callbacks it makes at most one
      for each member, so whatever callbacks the run has recorded beyond those are not made. */
  lemma {:induction false} FreeLoopEnds(s: State, l: HLink, frees: seq<FreeCb>, more: seq<FreeCb>)
    requires Inv(s) && s.halt == Running && l in s.prim && l !in s.parsing && |frees| >= |Members(s, l)|
    requires AllBehave(s, l, Members(s, l), frees)
    ensures FreeAllLoop(s, l, frees + more) == FreeAllLoop(s, l, frees)
    decreases frees
  {
    hide Inv, MakeHandle, CallFree, WellBehaved, AllBehave;
    var m := Members(s, l);
    if m != [] {
      assert (frees + more)[0] == frees[0] && (frees + more)[1..] == frees[1..] + more;
      if !At(s, m[0]).freeing {
        FirstBehaves(s, l, m, frees);
        RoundEffect(s, l, frees[0]);
        var (ok, s1) := CallFree(s, m[0], frees[0]);
        if s1.halt == Running && ok {
          RestBehave(s, s1, l, m, frees);
          FreeLoopEnds(s1, l, frees[1..], more);
        }
      }
    }
  }

  lemma {:induction false} NoneFreed(s: State, t: State, l: HLink, m: seq<nat>)
    requires Members(t, l) == m ==>
      forall j :: j in m ==> At(t, j).gen == At(s, j).gen && At(t, j).freeing == At(s, j).freeing
    ensures Members(t, l) == m ==> FreedTo(s, t, l, m, 0)
  {}
}
