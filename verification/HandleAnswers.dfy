/** What each call of the handle library answers, and what it then has done: the return codes and
    effects, stated on handles, lists and slots. */
module HandleAnswers {
  import opened Seqs
  import opened HandleModel
  import opened HandleInv
  import opened HandleRuns
  import opened HandleTheorems
  import opened HandleParse

  /** The handle names an active slot of a client type. */
  predicate ClientHandle(s: State, h: nat) {
    Decode(s, h) != 0 && At(s, Decode(s, h)).typ >= RES_BY_HANDLE_LIB
  }

  /** Only slot i differs. */
  ghost predicate OnlySlot(s: State, t: State, i: nat) {
    |t.slots| == |s.slots| && forall j: nat :: j != i ==> At(t, j) == At(s, j)
  }

  // ---------- allocation ----------

  /** Element k of the free list that initialisation and growth thread. */
  lemma {:induction false} DownOrder(low: nat, n: nat, k: nat)
    requires low <= n && k < n - low
    ensures |Down(low, n)| == n - low && Down(low, n)[k] == n - k
    decreases n
  {
    DownMembers(low, n);
    if k > 0 { DownOrder(low, n - 1, k - 1); }
  }

  /** q starts with 1000 slots from n on, the highest first. */
  predicate NewestFirst(q: seq<nat>, n: nat) {
    |q| >= 1000 && forall k :: 0 <= k < 1000 ==> q[k] == n + 999 - k
  }

  /** An allocation takes the first free slot. The array grows by 1000 slots exactly if that
      leaves 10 or fewer free, and the new ones come first, the highest in front. */
  lemma {:induction false} AllocGrowth(s: State, typ: nat, obj: int, tag: int)
    requires Inv(s) && s.halt == Running && typ != INV_HANDLE_TYPE && CanAlloc(s)
    ensures var t := AllocS(s, typ, obj, tag).2;
      if |s.free| <= 11
      then |t.slots| == |s.slots| + 1000 && NewestFirst(t.free, |s.slots|) && t.free[1000..] == s.free[1..]
      else |t.slots| == |s.slots| && t.free == s.free[1..]
  {
    hide Inv, Bump, HandleOf, Down;
    FreeHead(s);
    if |s.free| <= 11 {
      var added := Down(Total(s), Total(s) + GROW_BY);
      DownMembers(Total(s), Total(s) + GROW_BY);
      forall k | 0 <= k < 1000 ensures added[k] == |s.slots| + 999 - k {
        DownOrder(Total(s), Total(s) + GROW_BY, k);
      }
      assert AllocS(s, typ, obj, tag).2.free == added + s.free[1..];
    }
  }

  lemma {:induction false} NewSlot(s: State, typ: nat, obj: int, tag: int)
    requires Inv(s) && s.halt == Running && AllocS(s, typ, obj, tag).0 == OK
    ensures s.free != [] && s.free[0] < |s.slots|
    ensures var x := At(AllocS(s, typ, obj, tag).2, s.free[0]);
      x.typ == typ && x.obj == obj && x.tag == tag && x.owner == None && x.auxHead == 0
  {
    FreeHead(s);
    hide Inv;
  }

  /** The reserved type is refused, and nothing else is. A new handle holds what it was given and
      is on no list. */
  lemma {:induction false} AllocAnswers(s: State, typ: nat, obj: int, tag: int)
    requires Inv(s) && s.halt == Running
    ensures var (c, h, t) := AllocS(s, typ, obj, tag);
      && (c == InvHandleType <==> typ == INV_HANDLE_TYPE)
      && (typ == INV_HANDLE_TYPE ==> h == NULL_HANDLE && t == s)
      && (c == OK <==> typ != INV_HANDLE_TYPE && CanAlloc(s))
      && (c == OK ==> Decode(t, h) == s.free[0] && h != NULL_HANDLE)
      && (c == OK ==> var x := At(t, s.free[0]);
                      x.typ == typ && x.obj == obj && x.tag == tag && x.owner == None && x.auxHead == 0)
  {
    if AllocS(s, typ, obj, tag).0 == OK { NewSlot(s, typ, obj, tag); }
    hide Inv, Ready, Reuse, Decode, HandleOf;
    FreeHead(s);
    if typ != INV_HANDLE_TYPE {
      AllocSucceeds(s, typ, obj, tag);
      if CanAlloc(s) { AllocInv(s, typ, obj, tag); NullDecodes(AllocS(s, typ, obj, tag).2); }
    }
  }

  lemma {:induction false} NullDecodes(s: State)
    ensures Decode(s, NULL_HANDLE) == 0
  {}

  // ---------- primary lists ----------

  /** Linking: an invalid handle or one of the library's own types is refused, and so is one on a
      list; otherwise the slot is the new last member and nothing else changed. */
  lemma {:induction false} LinkAnswers(s: State, l: HLink, h: nat)
    requires Inv(s) && s.halt == Running && l in s.prim
    ensures var (c, t) := LinkS(s, l, h); var i := Decode(s, h);
      && (c == InvHandle <==> !ClientHandle(s, h))
      && (c == AlreadyLinked <==> ClientHandle(s, h) && At(s, i).owner.Some?)
      && (c == OK <==> ClientHandle(s, h) && At(s, i).owner.None?)
      && (c != OK ==> t == s)
      && (c == OK ==>
            && t.halt == Running && Inv(t) && OnlySlot(s, t, i) && At(t, i) == At(s, i).(owner := Some(l))
            && Members(t, l) == Members(s, l) + [i] && t.free == s.free
            && (forall k :: k != l ==> Members(t, k) == Members(s, k)))
  {
    hide Inv;
    LinkInv(s, l, h);
  }

  /** Delinking: refused for an invalid handle, one on no list, and, while the list is parsed, one
      the parse is not calling back for; otherwise the slot leaves its list. */
  lemma {:induction false} DelinkAnswers(s: State, l: HLink, h: nat)
    requires Inv(s) && s.halt == Running
    requires ClientHandle(s, h) && At(s, Decode(s, h)).owner.Some? ==> At(s, Decode(s, h)).owner.value == l
    ensures var (c, t) := DelinkS(s, l, h); var i := Decode(s, h);
      && (c == InvHandle <==> !ClientHandle(s, h))
      && (c == NotLinked <==> ClientHandle(s, h) && At(s, i).owner.None?)
      && (c == NotAllowed <==> ClientHandle(s, h) && At(s, i).owner.Some? && l in s.parsing && !At(s, i).parsing)
      && (c == OK <==> ClientHandle(s, h) && At(s, i).owner.Some? && (l !in s.parsing || At(s, i).parsing))
      && (c != OK ==> t == s)
      && (c == OK ==>
            && t.halt == Running && Inv(t) && OnlySlot(s, t, i) && At(t, i) == At(s, i).(owner := None)
            && i in Members(s, l) && i !in Members(t, l) && t.free == s.free
            && Members(t, l) == Without(Members(s, l), {i}) && (forall k :: k != l ==> Members(t, k) == Members(s, k)))
  {
    DelinkInv(s, l, h);
    var i := Decode(s, h);
    if ClientHandle(s, h) { assert PrimSlotAt(s.slots, s.prim, i); }
    hide Inv;
    WithoutMembers(Members(s, l), {i});
  }

  // ---------- auxiliary lists ----------

  ghost predicate AuxHandle(s: State, h: nat) {
    Decode(s, h) != 0 && At(s, Decode(s, h)).typ == AUX_LINK_HEAD
  }

  /** Linking to an auxiliary head: the head and the handle must be valid and the handle on no
      auxiliary list; it is then first on the list of the head. */
  lemma {:induction false} LinkAuxAnswers(s: State, ah: nat, h: nat)
    requires Inv(s) && s.halt == Running
    ensures var (c, t) := LinkAuxS(s, ah, h); var a, i := Decode(s, ah), Decode(s, h);
      && (c == InvAuxHead <==> !AuxHandle(s, ah))
      && (c == InvHandle <==> AuxHandle(s, ah) && !ClientHandle(s, h))
      && (c == AlreadyLinked <==> AuxHandle(s, ah) && ClientHandle(s, h) && At(s, i).auxHead != 0)
      && (c == OK <==> AuxHandle(s, ah) && ClientHandle(s, h) && At(s, i).auxHead == 0)
      && (c != OK ==> t == s)
      && (c == OK ==>
            && Inv(t) && At(t, i) == At(s, i).(auxHead := a) && At(t, a) == At(s, a).(auxList := [i] + At(s, a).auxList)
            && t == s.(slots := t.slots) && |t.slots| == |s.slots|
            && (forall j: nat :: j != i && j != a ==> At(t, j) == At(s, j)))
  {
    hide Inv;
    LinkAuxInv(s, ah, h);
  }

  /** Leaving an auxiliary list: refused for an invalid handle and for one on none; otherwise the
      slot is on no auxiliary list, and off the one it was on. */
  lemma {:induction false} DelinkAuxAnswers(s: State, h: nat)
    requires Inv(s) && s.halt == Running
    ensures var (c, t) := DelinkAuxS(s, h); var i := Decode(s, h); var a := At(s, i).auxHead;
      && (c == InvHandle <==> !ClientHandle(s, h))
      && (c == NotLinked <==> ClientHandle(s, h) && a == 0)
      && (c == OK <==> ClientHandle(s, h) && a != 0)
      && (c != OK ==> t == s)
      && (c == OK ==>
            && Inv(t) && a != i && At(t, i) == At(s, i).(auxHead := 0)
            && At(t, a) == At(s, a).(auxList := Without(At(s, a).auxList, {i}))
            && t == s.(slots := t.slots) && |t.slots| == |s.slots|
            && (forall j: nat :: j != i && j != a ==> At(t, j) == At(s, j)))
  {
    hide Inv;
    var i := Decode(s, h);
    if ClientHandle(s, h) && At(s, i).auxHead != 0 { LeaveAuxInv(s, i); }
  }

  /** The next handle: for an auxiliary head the first on its list, for a member the one behind
      it, and NULL at the end of the list and for a handle on none. */
  lemma {:induction false} NextAuxAnswers(s: State, h: nat, k: nat)
    requires Inv(s) && Decode(s, h) != 0
    ensures NextAuxS(s, h).0 == OK
    ensures var i := Decode(s, h); var q := At(s, i).auxList;
      At(s, i).auxHead == 0 ==> NextAuxS(s, h).1 == if q == [] then NULL_HANDLE else MakeHandle(s, q[0])
    ensures var i := Decode(s, h); var q := At(s, At(s, i).auxHead).auxList;
      At(s, i).auxHead != 0 && k < |q| && q[k] == i ==>
        NextAuxS(s, h).1 == if k + 1 < |q| then MakeHandle(s, q[k + 1]) else NULL_HANDLE
  {
    var i := Decode(s, h);
    var a := At(s, i).auxHead;
    DecodedActive(s, h);
    NoZeroAux(s, i);
    NoZeroAux(s, a);
    hide MakeHandle, Decode, FreeOk, PrimOk, StatOk;
    if a != 0 && k < |At(s, a).auxList| && At(s, a).auxList[k] == i {
      assert AuxSlotAt(s.slots, i) && AuxListAt(s.slots, a);
      AfterAt(At(s, a).auxList, k);
    }
  }

  lemma {:induction false} NoZeroAux(s: State, a: nat)
    requires Inv(s)
    ensures 0 !in At(s, a).auxList
  {
    forall j | j in At(s, a).auxList ensures j != 0 {
      assert AuxListAt(s.slots, a) && AuxSlotAt(s.slots, j);
    }
  }

  /** An invalid handle has no next. */
  lemma {:induction false} NextAuxInvalid(s: State, h: nat)
    ensures NextAuxS(s, h).0 == InvHandle <==> Decode(s, h) == 0
    ensures Decode(s, h) == 0 ==> NextAuxS(s, h).1 == NULL_HANDLE
  {}

  /** The object of a valid handle becomes the new one; nothing else changes. */
  lemma {:induction false} SetObjAnswers(s: State, h: nat, obj: int)
    requires Inv(s) && s.halt == Running
    ensures var (c, t) := SetObjS(s, h, obj); var i := Decode(s, h);
      && (c == InvHandle <==> i == 0) && (c == OK <==> i != 0)
      && (c != OK ==> t == s)
      && (c == OK ==> At(t, i) == At(s, i).(obj := obj) && OnlySlot(s, t, i) && t == s.(slots := t.slots))
  {}

  // ---------- freeing ----------

  /** The callback of slot i refuses: a client's by its answer, that of an auxiliary head while
      anything is attached to it. */
  predicate Refuses(s: State, i: nat, cb: FreeCb) {
    if At(s, i).typ == AUX_LINK_HEAD then At(s, i).auxList != [] else !cb.accept
  }

  /** Freeing, in a run that does not stop: an invalid handle is refused. A handle that is being
      freed already, or whose callback refuses, is not allowed to be freed. Otherwise, and only
      then, the answer is OK: the slot was freed by this call, is the first free one, and the
      handle no longer valid. A refused handle stays valid, and if its callback made no calls
      nothing has changed at all. */
  lemma {:induction false} FreeAnswers(s: State, h: nat, cb: FreeCb)
    requires Inv(s) && s.halt == Running && FreeS(s, h, cb).1.halt == Running
    ensures var (c, t) := FreeS(s, h, cb); var i := Decode(s, h);
      && (c == InvHandle <==> i == 0)
      && (c == FreeNotAllowed <==> i != 0 && (At(s, i).freeing || Refuses(s, i, cb)))
      && (c == OK <==> i != 0 && At(t, i).gen == At(s, i).gen + 1)
      && (c == OK ==> !Active(At(t, i)) && t.free != [] && t.free[0] == i && Decode(t, h) == 0)
      && (c != OK ==> At(t, i).gen == At(s, i).gen && Decode(t, h) == i)
      && (c == InvHandle ==> t == s)
      && (c == FreeNotAllowed && (At(s, i).freeing || At(s, i).typ == AUX_LINK_HEAD || cb.ops == []) ==> t == s)
  {
    hide Inv, Decode, CallFree;
    var i := Decode(s, h);
    if i != 0 {
      DecodedActive(s, h);
      if !At(s, i).freeing {
        FreedOrNot(s, i, cb);
        var t := CallFree(s, i, cb).1;
        DecodeLater(s, t, h);
        NextGeneration(At(s, i).gen);
      }
    }
  }

  lemma {:induction false} NextGeneration(g: nat)
    ensures (g + 1) % 256 != g % 256
  {}

  lemma {:induction false} FreedOrNot(s: State, i: nat, cb: FreeCb)
    requires Inv(s) && s.halt == Running && 0 < i < |s.slots| && Active(s.slots[i]) && !s.slots[i].freeing
    requires CallFree(s, i, cb).1.halt == Running
    ensures var (ok, t) := CallFree(s, i, cb);
      && |s.slots| <= |t.slots|
      && (ok <==> !Refuses(s, i, cb))
      && (ok ==> At(t, i).gen == At(s, i).gen + 1 && !Active(At(t, i)) && t.free != [] && t.free[0] == i)
      && (!ok ==> At(t, i).gen == At(s, i).gen && Active(At(t, i)))
      && (!ok && (At(s, i).typ == AUX_LINK_HEAD || cb.ops == []) ==> t == s)
  {
    hide Inv, Retire, GuarOn;
    var s1 := MarkFreeing(s, i, true);
    PutInv(s, i, At(s, i).(freeing := true));
    Unmarked(s, i);
    CallFreeKeeps(s, i, cb);
    Longer(s, CallFree(s, i, cb).1, LinksAll(cb.ops));
    if At(s, i).typ == AUX_LINK_HEAD {
      if s1.slots[i].auxList == [] { RetireFacts(s1, i); RetireSlots(s1, i); }
    } else {
      var s2 := ExecAll(s1, cb.ops);
      ExecAllKeeps(s1, cb.ops);
      AfterFreeCb(s, i, s2, LinksAll(cb.ops));
      if cb.accept { RetireFacts(s2, i); RetireSlots(s2, i); }
    }
  }

  lemma {:induction false} Longer(s: State, t: State, links: set<HLink>)
    requires Good(s, t, links)
    ensures t.halt == Running ==> |s.slots| <= |t.slots|
  {}

  /** Taking back a FREEING mark that was just set. */
  lemma {:induction false} Unmarked(s: State, i: nat)
    requires i < |s.slots| && !s.slots[i].freeing
    ensures MarkFreeing(MarkFreeing(s, i, true), i, false) == s
  {
    var t := MarkFreeing(MarkFreeing(s, i, true), i, false);
    assert t.slots == s.slots;
  }

  /** u_handle_free_all is not allowed during a parse of the list, nor inside itself; it then
      changes nothing. */
  lemma {:induction false} FreeAllGuards(s: State, l: HLink, frees: seq<FreeCb>)
    requires Inv(s) && s.halt == Running && l in s.prim && FreeAllS(s, l, frees).1.halt == Running
    ensures var (c, t) := FreeAllS(s, l, frees);
      && (c == NotAllowed <==> l in s.parsing)
      && (c == RecursionError <==> l !in s.parsing && l in s.freeAll)
      && (l in s.parsing || l in s.freeAll ==> t == s)
      && t.freeAll == s.freeAll
  {
    hide Inv, FreeAllLoop;
    FreeAllKeeps(s, l, frees);
  }

  // ---------- handle_parse ----------

  /** handle_parse is refused inside itself, for the same list, and otherwise answers OK; the
      list is marked for as long as it runs. */
  lemma {:induction false} ParseGuards(s: State, l: HLink, parses: seq<ParseCb>)
    requires Inv(s) && s.halt == Running && l in s.prim && ParseS(s, l, parses).1.halt == Running
    ensures var (c, t) := ParseS(s, l, parses);
      && (c == RecursionError <==> l in s.parsing) && (c == OK <==> l !in s.parsing)
      && (l in s.parsing ==> t == s)
      && t.parsing == s.parsing
  {
    hide Inv, ParseLoop;
    ParseKeeps(s, l, parses);
  }

  /** The callback for slot cur of list l, as handle_parse makes it. */
  function VisitOf(s: State, l: HLink, cur: nat, idx: nat): Event {
    Visit(l, idx, |Members(s, l)|, cur, Members(s, l))
  }

  /** The callbacks for l that a parse makes come behind those made before. */
  ghost predicate VisitsFollow(s: State, t: State, l: HLink, made: seq<Event>) {
    Visits(s.trace, l) + made <= Visits(t.trace, l)
  }

  lemma {:induction false} VisitsGrow(s: State, l: HLink, cur: nat, idx: nat, parses: seq<ParseCb>)
    requires Inv(s) && s.halt == Running && l in s.parsing && l in s.prim
    requires ParseLoop(s, l, cur, idx, parses).halt == Running
    ensures VisitsFollow(s, ParseLoop(s, l, cur, idx, parses), l, [])
    decreases parses
  {
    hide Inv, Visits, CallParse;
    if cur == 0 || parses == [] {
      assert Visits(s.trace, l) + [] == Visits(s.trace, l);
    } else {
      FirstVisit(s, l, cur, idx, parses);
      FollowLess(s, ParseLoop(s, l, cur, idx, parses), l, VisitOf(s, l, cur, idx));
    }
  }

  lemma {:induction false} FollowLess(s: State, t: State, l: HLink, e: Event)
    requires VisitsFollow(s, t, l, [e])
    ensures VisitsFollow(s, t, l, [])
  {
    hide Visits;
    assert Visits(s.trace, l) + [] == Visits(s.trace, l);
  }

  /** The first callback is for slot cur, with the index and the count. */
  lemma {:induction false} FirstVisit(s: State, l: HLink, cur: nat, idx: nat, parses: seq<ParseCb>)
    requires Inv(s) && s.halt == Running && l in s.parsing && l in s.prim && cur != 0 && parses != []
    requires ParseLoop(s, l, cur, idx, parses).halt == Running
    ensures cur in Members(s, l)
    ensures VisitsFollow(s, ParseLoop(s, l, cur, idx, parses), l, [VisitOf(s, l, cur, idx)])
    decreases parses, 0
  {
    hide Inv, Visits, CallParse;
    CallbackKeepsRest(s, l, cur, idx, parses[0]);
    var s1, t := CallParse(s, l, cur, idx, parses[0]), ParseLoop(s, l, cur, idx, parses);
    if t != s1 {
      var m := Members(s, l);
      if parses[0].result == HPNext {
        VisitsGrow(s1, l, After(m, cur), if |Members(s1, l)| >= |m| then idx + 1 else idx, parses[1..]);
      } else {
        VisitsGrow(s1, l, Nth(Members(s1, l), 0), 0, parses[1..]);
      }
      assert Visits(s1.trace, l) + [] == Visits(s1.trace, l);
    }
  }

  /** The callback that follows the one for cur, if the script has one: slot next, index idx'. */
  ghost predicate SecondVisit(s: State, t: State, l: HLink, cur: nat, idx: nat, s1: State, next: nat, idx': nat) {
    VisitsFollow(s, t, l, [VisitOf(s, l, cur, idx), VisitOf(s1, l, next, idx')])
  }

  /** After HP_BREAK the call makes no further callback for the list; after HP_RESTART the next
      one is for the then first member with index 0, and there is none if the list is empty;
      after HP_NEXT it is for the member that was behind the current one, with the same index
      if the count went down and the next one if not. Any other answer aborts. */
  lemma {:induction false} ParseGoesOn(s: State, l: HLink, cur: nat, idx: nat, parses: seq<ParseCb>)
    requires Inv(s) && s.halt == Running && l in s.parsing && l in s.prim && cur in Members(s, l) && |parses| >= 2
    requires CallParse(s, l, cur, idx, parses[0]).halt == Running
    ensures parses[0].result == HPOther ==> ParseLoop(s, l, cur, idx, parses).halt == ParseRet
    ensures var s1, t := CallParse(s, l, cur, idx, parses[0]), ParseLoop(s, l, cur, idx, parses);
      var m, m1, one := Members(s, l), Members(s1, l), VisitOf(s, l, cur, idx);
      t.halt == Running ==>
      && (parses[0].result == HPBreak ==> Visits(t.trace, l) == Visits(s.trace, l) + [one])
      && (parses[0].result == HPRestart ==>
            if m1 == [] then Visits(t.trace, l) == Visits(s.trace, l) + [one]
            else SecondVisit(s, t, l, cur, idx, s1, m1[0], 0))
      && (parses[0].result == HPNext ==>
            if After(m, cur) == 0 then Visits(t.trace, l) == Visits(s.trace, l) + [one]
            else SecondVisit(s, t, l, cur, idx, s1, After(m, cur), if |m1| >= |m| then idx + 1 else idx))
  {
    hide Inv, Visits, CallParse;
    var s1, t := CallParse(s, l, cur, idx, parses[0]), ParseLoop(s, l, cur, idx, parses);
    var m, m1 := Members(s, l), Members(s1, l);
    NoZeroMember(s, l);
    CallbackKeepsRest(s, l, cur, idx, parses[0]);
    NoZeroMember(s1, l);
    if t.halt == Running {
      if parses[0].result == HPRestart && m1 != [] {
        Second(s, s1, t, l, cur, idx, m1[0], 0, parses);
      }
      if parses[0].result == HPNext && After(m, cur) != 0 {
        Second(s, s1, t, l, cur, idx, After(m, cur), if |m1| >= |m| then idx + 1 else idx, parses);
      }
    }
  }

  lemma {:induction false} Second(s: State, s1: State, t: State, l: HLink, cur: nat, idx: nat, next: nat, idx': nat,
                                  parses: seq<ParseCb>)
    requires |parses| >= 2 && Inv(s1) && s1.halt == Running && l in s1.parsing && l in s1.prim && next != 0
    requires t == ParseLoop(s1, l, next, idx', parses[1..]) && t.halt == Running
    requires Visits(s1.trace, l) == Visits(s.trace, l) + [VisitOf(s, l, cur, idx)]
    ensures SecondVisit(s, t, l, cur, idx, s1, next, idx')
  {
    hide Inv, Visits, ParseLoop;
    FirstVisit(s1, l, next, idx', parses[1..]);
    var one, two := VisitOf(s, l, cur, idx), VisitOf(s1, l, next, idx');
    assert Visits(s1.trace, l) + [two] == Visits(s.trace, l) + [one, two];
  }
}
