/** mw/handle.c as a class: the slot array, its free list and counters, updated in place.
    Every method leaves the object in the state its HandleModel function computes. */
module HandleLibrary {
  import opened Seqs
  import opened HandleModel
  import opened HandleInv
  import opened HandleRuns
  import opened HandleThreads

  /** The run made no call the library forbids without checking, and no parse lost its place. */
  predicate InModel(s: State) {
    s.halt != Outside && s.halt != LostCursor
  }

  /** The list headers a script initialises. */
  function InitsOne(op: Op): set<HLink>
    decreases op, 1
  {
    match op
    case LinkInit(l) => {l}
    case Free(_, cb) => Inits(cb.ops)
    case FreeAll(_, frees) => InitsFrees(frees)
    case Parse(_, parses) => InitsParses(parses)
    case _ => {}
  }

  function Inits(ops: seq<Op>): set<HLink>
    decreases ops, 0
  {
    if ops == [] then {} else InitsOne(ops[0]) + Inits(ops[1..])
  }

  function InitsFrees(frees: seq<FreeCb>): set<HLink>
    decreases frees, 0
  {
    if frees == [] then {} else Inits(frees[0].ops) + InitsFrees(frees[1..])
  }

  function InitsParses(parses: seq<ParseCb>): set<HLink>
    decreases parses, 0
  {
    if parses == [] then {} else Inits(parses[0].ops) + InitsParses(parses[1..])
  }

  class HandleLib {
    var slots: seq<HCtrl>
    var freeHandles: nat
    var numTotal: nat
    var numFree: nat
    var numPeakUsed: nat
    var numUsedPerGrp: seq<nat>
    var aborted: bool

    ghost var abs: State
    ghost const world: set<HLink>  // the list headers the clients own

    /** The object represents abs. */
    ghost predicate Valid()
      reads this, world
    {
      && !aborted && abs.halt == Running && Inv(abs) && abs.prim.Keys <= world
      && Rep(slots, abs)
      && Scalars()
      && forall l :: l in abs.prim ==> Header(l)
    }

    ghost predicate Scalars()
      reads this
    {
      && freeHandles == Nth(abs.free, 0) && numTotal == Total(abs) && numFree == |abs.free|
      && numPeakUsed == abs.peak && numUsedPerGrp == abs.grp
    }

    ghost predicate Header(l: HLink)
      reads this, l
    {
      && l.Lists(Members(abs, l))
      && l.parsing == (l in abs.parsing) && l.freeAll == (l in abs.freeAll)
    }

    /** Either the library is in a valid state or it has aborted. */
    ghost predicate Settled()
      reads this, world
    {
      if abs.halt == Running then Valid() else aborted
    }

    /** u_handle_usr_init: slots 1..n threaded on the free list, slot 0 sacrificed. */
    constructor (n: nat, ghost w: set<HLink>)
      requires 0 < n < MAX_INDEX
      ensures Valid() && abs == Init(n) && world == w
    {
      world := w;
      aborted := false;
      numTotal, numPeakUsed, numUsedPerGrp := n, 0, [0, 0];
      var arr, head, free := [BlankCtrl(0)], 0, 0;
      for idx := 0 to n
        invariant free == idx && head == idx
        invariant arr == [BlankCtrl(0)] + BlankCtrls(1, 0, idx)
      {
        arr := arr + [BlankCtrl(head)];
        head := idx + 1;
        free := free + 1;
      }
      slots, freeHandles, numFree := arr, head, free;
      abs := Init(n);
      new;
      InitInv(n);
      InitRep(arr, n);
    }

    /** get_h_ctrl_from_handle, giving the slot number or 0. */
    function FromHandle(h: nat): (i: nat)
      reads this
    {
      var i := h % 0x10000;
      if h / 0x1000000 == 0 && i > 0 && i <= numTotal && i < |slots|
         && slots[i].count == (h / 0x10000) % 256 && slots[i].active
      then i else 0
    }

    /** make_handle */
    function ToHandle(i: nat): nat
      requires i < |slots|
      reads this
    {
      i % 0x10000 + slots[i].count * 0x10000
    }

    lemma {:induction false} Lookup(h: nat)
      requires Valid()
      ensures FromHandle(h) == Decode(abs, h) < |slots| == |abs.slots|
      ensures SlotRep(slots[FromHandle(h)], At(abs, FromHandle(h)))
      ensures FromHandle(h) != 0 ==> Active(abs.slots[FromHandle(h)])
    {
      var i := h % 0x10000;
      if i < |slots| { assert SlotRep(slots[i], abs.slots[i]); }
    }

    // ---------- primary lists ----------

    /** The slot becomes the last of a list whose tail is given. */
    method ThreadLast(tail: nat, i: nat)
      requires i < |slots| && tail < |slots| && i != tail
      modifies this`slots
      ensures slots == LinkThread(old(slots), tail, i)
    {
      slots := slots[i := slots[i].(linked := true, hNext := 0, hPrev := tail)];
      if tail != 0 {
        slots := slots[tail := slots[tail].(hNext := i)];
      }
    }

    /** The neighbours of the slot are joined and its links reset. */
    method CutOut(i: nat)
      requires i < |slots| && slots[i].hNext < |slots| && slots[i].hPrev < |slots|
      requires slots[i].hNext != i && slots[i].hPrev != i
      modifies this`slots
      ensures slots == DelinkThread(old(slots), i)
    {
      slots := slots[i := slots[i].(linked := false)];
      if slots[i].hNext != 0 {
        slots := slots[slots[i].hNext := slots[slots[i].hNext].(hPrev := slots[i].hPrev)];
      }
      if slots[i].hPrev != 0 {
        slots := slots[slots[i].hPrev := slots[slots[i].hPrev].(hNext := slots[i].hNext)];
      }
      slots := slots[i := slots[i].(hNext := 0, hPrev := 0)];
    }

    method LinkInit(l: HLink)
      requires Valid() && l in world && l !in abs.prim
      modifies this, l
      ensures Valid() && abs == LinkInitS(old(abs), l)
    {
      hide Inv;
      LinkInitInv(abs, l);
      l.Init();
      BracketSubsets(abs);
      abs := LinkInitS(abs, l);
      hide HLink.Lists;
      forall k | k in abs.prim && k != l ensures Header(k) { assert old(Header(k)); }
    }

    /** The slot joins the tail of the list. */
    method Attach(l: HLink, i: nat)
      requires Valid() && l in abs.prim && 0 < i < |slots| && Inv(Linked(abs, l, i))
      requires Active(At(abs, i)) && At(abs, i).owner.None?
      modifies this, world
      ensures Valid() && abs == Linked(old(abs), l, i)
    {
      hide Inv, Rep, LinkThread;
      RepSize(slots, abs);
      LinkTail(abs, l, i);
      LinkRep(slots, abs, l, i);
      ThreadLast(l.tail, i);
      l.Append(i, abs.prim[l]);
      Relisted(abs, l, i);
      hide HLink.Lists, Linked;
      abs := Linked(abs, l, i);
      forall k | k in abs.prim && k != l ensures Header(k) { assert old(Header(k)); }
    }

    /** The slot leaves the list it is on. */
    method Detach(l: HLink, i: nat)
      requires Valid() && l in abs.prim && i in abs.prim[l] && Inv(Delinked(abs, l, i))
      modifies this, world
      ensures Valid() && abs == Delinked(old(abs), l, i)
    {
      hide Inv, Rep, Without, DelinkThread;
      DelinkRep(slots, abs, l, i);
      ghost var k := DelinkPlace(slots, abs, l, i);
      var next, prev := slots[i].hNext, slots[i].hPrev;
      CutOut(i);
      l.Remove(next, prev, abs.prim[l], k);
      Relisted(abs, l, i);
      hide HLink.Lists, Delinked;
      abs := Delinked(abs, l, i);
      forall m | m in abs.prim && m != l ensures Header(m) { assert old(Header(m)); }
    }

    /** u_handle_link: the handle joins the tail of the list. */
    method Link(l: HLink, h: nat) returns (r: Code)
      requires Valid() && LinkS(abs, l, h).1.halt == Running
      modifies this, world
      ensures Valid() && (r, abs) == LinkS(old(abs), l, h)
    {
      hide Inv, Rep, Decode, FromHandle, Linked;
      Lookup(h);
      var i := FromHandle(h);
      if i == 0 || slots[i].typ < RES_BY_HANDLE_LIB {
        return InvHandle;
      }
      if slots[i].linked {
        return AlreadyLinked;
      }
      assert l in abs.prim;
      LinkInv(abs, l, h);
      Attach(l, i);
      return OK;
    }

    /** u_handle_delink: refused while the list is being parsed, except for a handle a parse
        callback is running for. */
    method Delink(l: HLink, h: nat) returns (r: Code)
      requires Valid() && DelinkS(abs, l, h).1.halt == Running
      modifies this, world
      ensures Valid() && (r, abs) == DelinkS(old(abs), l, h)
    {
      hide Inv, Rep, Decode, FromHandle, Delinked;
      Lookup(h);
      var i := FromHandle(h);
      if i == 0 || slots[i].typ < RES_BY_HANDLE_LIB {
        return InvHandle;
      }
      if !slots[i].linked {
        return NotLinked;
      }
      OwnerLists(abs, i);
      BracketSubsets(abs);
      assert l in abs.prim;
      if l.parsing && !slots[i].parsing {
        return NotAllowed;
      }
      DelinkInv(abs, l, h);
      Detach(l, i);
      return OK;
    }

    // ---------- auxiliary lists ----------

    /** The slot becomes the first on the list of an auxiliary head. */
    method ThreadAux(a: nat, i: nat)
      requires a < |slots| && i < |slots| && slots[a].auxNext < |slots| && i != a
      requires slots[a].auxNext != i && slots[a].auxNext != a
      modifies this`slots
      ensures slots == LinkAuxThread(old(slots), a, i)
    {
      var first := slots[a].auxNext;
      slots := slots[i := slots[i].(auxNext := first, auxPrev := 0, auxHead := a)];
      if first != 0 {
        slots := slots[first := slots[first].(auxPrev := i)];
      }
      slots := slots[a := slots[a].(auxNext := i, auxCount := slots[a].auxCount + 1)];
    }

    /** u_handle_link_to_aux: the handle becomes the first on the list of the head. */
    method LinkAux(ah: nat, h: nat) returns (r: Code)
      requires Valid()
      modifies this
      ensures Valid() && (r, abs) == LinkAuxS(old(abs), ah, h)
    {
      hide Inv, Rep, Decode, FromHandle, LinkAuxThread;
      Lookup(ah);
      Lookup(h);
      var a, i := FromHandle(ah), FromHandle(h);
      if a == 0 || slots[a].typ != AUX_LINK_HEAD {
        return InvAuxHead;
      }
      if i == 0 || slots[i].typ < RES_BY_HANDLE_LIB {
        return InvHandle;
      }
      if slots[i].auxHead != 0 {
        return AlreadyLinked;
      }
      LinkAuxInv(abs, ah, h);
      AuxRoles(abs, a, i);
      LinkAuxRep(slots, abs, a, i);
      LinkAuxSlots(slots, abs, a, i);
      ThreadAux(a, i);
      abs := LinkAuxS(abs, ah, h).1;
      KeepHeaders();
      return OK;
    }

    /** The slot is cut out of the list of its auxiliary head. */
    method UnthreadAux(i: nat)
      requires i < |slots| && slots[i].auxHead < |slots| && slots[i].auxNext < |slots| && slots[i].auxPrev < |slots|
      modifies this`slots
      ensures slots == LeaveAuxThread(old(slots), i)
    {
      var next, prev, a := slots[i].auxNext, slots[i].auxPrev, slots[i].auxHead;
      if next != 0 {
        slots := slots[next := slots[next].(auxPrev := prev)];
      }
      if prev != 0 {
        slots := slots[prev := slots[prev].(auxNext := next)];
      } else {
        slots := slots[a := slots[a].(auxNext := next)];
      }
      slots := slots[i := slots[i].(auxNext := 0, auxPrev := 0, auxHead := 0)];
      if slots[a].auxCount > 0 {
        slots := slots[a := slots[a].(auxCount := slots[a].auxCount - 1)];
      }
    }

    /** delink_from_aux for a slot known to be on an auxiliary list. */
    method LeaveAuxList(i: nat)
      requires Valid() && i < |slots| && slots[i].auxHead != 0
      modifies this
      ensures Valid() && abs == LeaveAux(old(abs), i) && |slots| == |old(slots)|
    {
      hide Inv, LeaveAux, LeaveAuxThread;
      LeaveAuxRep(slots, abs, i);
      LeaveAuxInv(abs, i);
      ghost var t := LeaveAux(abs, i);
      hide Rep;
      UnthreadAux(i);
      abs := t;
      KeepHeaders();
    }

    method DelinkAux(h: nat) returns (r: Code)
      requires Valid()
      modifies this
      ensures Valid() && (r, abs) == DelinkAuxS(old(abs), h)
    {
      hide Inv, Rep, Decode, FromHandle, LeaveAux;
      Lookup(h);
      var i := FromHandle(h);
      if i == 0 || slots[i].typ < RES_BY_HANDLE_LIB {
        return InvHandle;
      }
      if slots[i].auxHead == 0 {
        return NotLinked;
      }
      LeaveAuxList(i);
      return OK;
    }

    /** u_handle_next_aux_linked: the following handle, or the first one for a head. */
    method NextAux(h: nat) returns (r: Code, next: nat)
      requires Valid()
      ensures (r, next) == NextAuxS(abs, h)
    {
      hide Inv, Decode, FromHandle;
      Lookup(h);
      var i := FromHandle(h);
      if i == 0 {
        return InvHandle, NULL_HANDLE;
      }
      AuxNextRep(slots, abs, i);
      if slots[i].auxNext == 0 {
        return OK, NULL_HANDLE;
      }
      return OK, ToHandle(slots[i].auxNext);
    }

    method SetObj(h: nat, obj: int) returns (r: Code)
      requires Valid()
      modifies this
      ensures Valid() && (r, abs) == SetObjS(old(abs), h, obj)
    {
      hide Inv, Rep, Decode, FromHandle;
      Lookup(h);
      var i := FromHandle(h);
      if i == 0 {
        return InvHandle;
      }
      SetSlot(i, slots[i].(obj := obj), At(abs, i).(obj := obj));
      return OK;
    }

    /** u_handle_get_type_obj */
    method GetTypeObj(h: nat) returns (r: Code, typ: nat, obj: int)
      requires Valid()
      ensures r == (if Decode(abs, h) == 0 then InvHandle else OK)
      ensures r == OK ==> typ == At(abs, Decode(abs, h)).typ && obj == At(abs, Decode(abs, h)).obj
    {
      Lookup(h);
      var i := FromHandle(h);
      if i == 0 {
        return InvHandle, 0, 0;
      }
      return OK, slots[i].typ, slots[i].obj;
    }

    // ---------- allocation ----------

    /** realloc_handle(HANDLE_REALLOC_NUM): new slots behind the old ones, each threaded in
        front of the free list. */
    method Expand(ghost g: State)
      requires Rep(slots, g) && |slots| > 0 && freeHandles == Nth(g.free, 0)
      requires numFree == |g.free| && numTotal == Total(g)
      modifies this`slots, this`freeHandles, this`numFree, this`numTotal
      ensures Rep(slots, Grow(g)) && |slots| == |old(slots)| + GROW_BY
      ensures freeHandles == Nth(Grow(g).free, 0) && numFree == |Grow(g).free| && numTotal == Total(Grow(g))
      ensures forall i :: 0 <= i < |old(slots)| ==> slots[i] == old(slots)[i]
    {
      hide Rep;
      ghost var c, size, head := slots, |slots|, freeHandles;
      RepSize(c, g);
      GrowRep(c, g);
      for idx := numTotal to numTotal + GROW_BY
        invariant |slots| == idx + 1 && numTotal == size - 1
        invariant slots == c + BlankCtrls(size, head, idx + 1 - size)
        invariant freeHandles == (if idx == numTotal then head else idx)
        invariant numFree == |g.free| + (idx - numTotal)
      {
        slots := slots + [BlankCtrl(freeHandles)];
        freeHandles := idx + 1;
        numFree := numFree + 1;
      }
      GrowFree(g);
      numTotal := numTotal + GROW_BY;
    }

    /** The first free slot leaves the free list, which grows if it gets short. */
    method TakeFree() returns (i: nat)
      requires Valid() && CanAlloc(abs)
      modifies this`slots, this`freeHandles, this`numFree, this`numTotal
      ensures |abs.free| > 0 && |abs.slots| > 0 && i == abs.free[0] < |slots| && Rep(slots, Ready(abs))
      ensures freeHandles == Nth(Ready(abs).free, 0) && numFree == |Ready(abs).free| && numTotal == Total(Ready(abs))
    {
      hide Inv, Rep;
      FreeHead(abs);
      PopRep(slots, abs);
      RepSize(slots, abs);
      ReadyIs(abs);
      hide Ready;
      i := freeHandles;
      freeHandles := slots[i].hNext;
      numFree := numFree - 1;
      if numFree <= GROW_AT {
        Expand(abs.(free := abs.free[1..]));
      }
    }

    /** u_handle_alloc. The 16-bit slot range must not be exhausted by growth. */
    method Alloc(typ: nat, obj: int, tag: int) returns (r: Code, h: nat)
      requires Valid() && (typ != INV_HANDLE_TYPE ==> CanAlloc(abs))
      modifies this
      ensures Valid() && (r, h, abs) == AllocS(old(abs), typ, obj, tag)
    {
      hide Inv, Rep, Reuse, Ready, HandleOf, FreshCtrl, CanAlloc, Fresh, Popped, HLink.Lists;
      if typ == INV_HANDLE_TYPE {
        return InvHandleType, NULL_HANDLE;
      }
      ghost var s, q := AllocStart(abs, typ, obj, tag);
      var i := TakeFree();
      AllocRep(slots, q, i, typ, obj, tag);
      var grp := typ / GROUP_SIZE;
      if grp < NB_GROUPS {
        numUsedPerGrp := numUsedPerGrp[grp := numUsedPerGrp[grp] + 1];
      }
      if numTotal >= numFree && numTotal - numFree > numPeakUsed {
        numPeakUsed := numTotal - numFree;
      }
      slots := slots[i := FreshCtrl(slots[i], typ, obj, tag)];
      abs := Reuse(q, i, typ, obj, tag);
      hide AllocS, Bump;
      KeepHeaders();
      return OK, ToHandle(i);
    }

    // ---------- freeing ----------

    /** The slot is invalidated and becomes the first free one. */
    method ReleaseSlot(i: nat)
      requires Valid() && i < |slots| && Active(At(abs, i)) && At(abs, i).owner.None?
      requires At(abs, i).auxHead == 0 && At(abs, i).auxList == []
      modifies this
      ensures Valid() && abs == Release(old(abs), i)
    {
      hide Inv, Rep, Release;
      RepSize(slots, abs);
      ReleaseInv(abs, i);
      ReleaseRep(slots, abs, i);
      ReleaseIs(abs, i);
      slots := slots[i := ReleasedCtrl(slots[i], freeHandles)];
      freeHandles := i;
      numFree := numFree + 1;
      var grp := slots[i].typ / GROUP_SIZE;
      if grp < NB_GROUPS && numUsedPerGrp[grp] > 0 {
        numUsedPerGrp := numUsedPerGrp[grp := numUsedPerGrp[grp] - 1];
      }
      abs := Release(abs, i);
      KeepHeaders();
    }

    /** After an accepting callback: abort if the slot is still on a list, else take it off
        its auxiliary list and free it. */
    method RetireSlot(i: nat)
      requires Valid() && i < |slots| && Active(At(abs, i)) && At(abs, i).auxList == []
      modifies this
      ensures Settled() && abs == Retire(old(abs), i)
    {
      hide Inv, Rep, Release, LeaveAux;
      RepSize(slots, abs);
      if slots[i].linked {
        aborted := true;
        abs := abs.(halt := StillLinked);
        return;
      }
      UnhookFacts(abs, i);
      if slots[i].auxHead != 0 {
        LeaveAuxList(i);
      }
      RepSize(slots, abs);
      ReleaseSlot(i);
    }

    method MarkFreeing(i: nat, b: bool)
      requires Valid() && i < |slots|
      modifies this
      ensures Valid() && abs == HandleModel.MarkFreeing(old(abs), i, b)
    {
      hide Inv, Rep;
      RepSize(slots, abs);
      SetSlot(i, slots[i].(freeing := b), At(abs, i).(freeing := b));
    }

    method MarkParsing(i: nat, b: bool)
      requires Valid() && i < |slots|
      modifies this
      ensures Valid() && abs == HandleModel.MarkParsing(old(abs), i, b)
    {
      hide Inv, Rep;
      RepSize(slots, abs);
      SetSlot(i, slots[i].(parsing := b), At(abs, i).(parsing := b));
    }

    /** The part of u_handle_free and u_handle_free_all around the client's callback, whose
        library calls are given by the script. An auxiliary head has the library's own
        callback, aux_link_head_free. */
    method CallFree(i: nat, cb: FreeCb) returns (ok: bool)
      requires Valid() && i < |slots| && Active(At(abs, i)) && !At(abs, i).freeing
      requires InModel(HandleModel.CallFree(abs, i, cb).1) && Inits(cb.ops) <= world
      modifies this, world
      ensures Settled() && (ok, abs) == HandleModel.CallFree(old(abs), i, cb)
      decreases cb, 1
    {
      hide Inv, Rep, Retire;
      ghost var s := abs;
      MarkFreeing(i, true);
      RepSize(slots, abs);
      if slots[i].typ == AUX_LINK_HEAD {
        ok := slots[i].auxCount == 0;
      } else {
        CallbackReturns(s, i, cb);
        Run(cb.ops);
        if aborted {
          return false;
        }
        ok := cb.accept;
      }
      RepSize(slots, abs);
      if ok {
        RetireSlot(i);
      } else {
        MarkFreeing(i, false);
      }
    }

    /** u_handle_free */
    method Free(h: nat, cb: FreeCb) returns (r: Code)
      requires Valid() && InModel(FreeS(abs, h, cb).1) && Inits(cb.ops) <= world
      modifies this, world
      ensures Settled() && (r, abs) == FreeS(old(abs), h, cb)
      decreases cb, 2
    {
      hide Inv, Rep, Decode, FromHandle, HandleModel.CallFree;
      Lookup(h);
      var i := FromHandle(h);
      if i == 0 {
        return InvHandle;
      }
      if slots[i].freeing {
        return FreeNotAllowed;
      }
      var ok := CallFree(i, cb);
      return if ok then OK else FreeNotAllowed;
    }

    /** u_handle_free_all: frees the head of the list until it is empty or a free fails.
        A run that records no more callbacks stops there. */
    method FreeAll(l: HLink, frees: seq<FreeCb>) returns (r: Code)
      requires Valid() && l in abs.prim && InModel(FreeAllS(abs, l, frees).1) && InitsFrees(frees) <= world
      modifies this, world
      ensures Settled() && (r, abs) == FreeAllS(old(abs), l, frees)
      decreases frees, 1
    {
      hide Inv, Rep, FreeAllLoop;
      if l.parsing {
        return NotAllowed;
      }
      if l.freeAll {
        return RecursionError;
      }
      ghost var s := abs;
      SetFreeAll(l, true);
      var success := FreeMembers(l, frees);
      if aborted {
        return if success then OK else FreeNotAllowed;
      }
      FreeAllMarks(s, l, frees);
      SetFreeAll(l, false);
      return if success then OK else FreeNotAllowed;
    }

    /** One turn of the loop of u_handle_free_all for the first member. */
    method FreeTurn(l: HLink, cb: FreeCb) returns (success: bool)
      requires Valid() && l.head != 0 && l in abs.prim && Inits(cb.ops) <= world
      requires var m := Members(abs, l); m != [] && m[0] < |slots| && Active(At(abs, m[0])) && Nth(m, 0) == m[0]
      requires InModel(FreeFirst(abs, l, cb).1)
      modifies this, world
      ensures Settled() && (success, abs) == FreeFirst(old(abs), l, cb)
      decreases cb, 2
    {
      hide Inv, Rep, HandleModel.CallFree;
      RepSize(slots, abs);
      var i := l.head;
      if slots[i].freeing {
        return false;
      }
      success := CallFree(i, cb);
      if aborted {
        success := false;
      }
    }

    /** The loop of u_handle_free_all. */
    method FreeMembers(l: HLink, frees: seq<FreeCb>) returns (success: bool)
      requires Valid() && l in abs.prim && InModel(FreeAllLoop(abs, l, frees).1) && InitsFrees(frees) <= world
      modifies this, world
      ensures Settled() && (success, abs) == FreeAllLoop(old(abs), l, frees)
      decreases frees, 0
    {
      hide Inv, Rep, FreeFirst, HLink.Lists;
      ghost var result := FreeAllLoop(abs, l, frees);
      var k := 0;
      success := true;
      FreeEnds(abs, l, frees);
      while success && l.head != 0
        invariant 0 <= k <= |frees| && InitsFrees(frees[k..]) <= world
        invariant Settled() && (success ==> Valid() && l in abs.prim)
        invariant if success then FreeAllLoop(abs, l, frees[k..]) == result else (false, abs) == result
        decreases |frees| - k, success
      {
        HeadFirst(l);
        FreeRound(abs, l, frees[k..]);
        RepSize(slots, abs);
        if k == |frees| {
          success := false;
        } else {
          assert frees[k..][1..] == frees[k + 1..];
          success := FreeTurn(l, frees[k]);
          k := k + 1;
        }
      }
      if success {
        HeadFirst(l);
        FreeEnds(abs, l, frees[k..]);
      }
    }

    lemma {:induction false} HeadFirst(l: HLink)
      requires Valid() && l in abs.prim
      ensures l.head == Nth(Members(abs, l), 0) && (l.head == 0 <==> Members(abs, l) == [])
    {
      assert Header(l);
      hide Rep, Inv;
      NoZeroMember(abs, l);
    }

    // ---------- parsing ----------

    /** One callback of handle_parse, with the library calls it makes. */
    method CallParse(l: HLink, cur: nat, idx: nat, cb: ParseCb)
      requires Valid() && cur in Members(abs, l)
      requires InModel(HandleModel.CallParse(abs, l, cur, idx, cb)) && Inits(cb.ops) <= world
      modifies this, world
      ensures Settled() && abs == HandleModel.CallParse(old(abs), l, cur, idx, cb)
      decreases cb, 0
    {
      hide Inv, Rep;
      MemberFacts(abs, l, cur);
      RepSize(slots, abs);
      ghost var s, m := abs, Members(abs, l);
      MarkParsing(cur, true);
      LogInv(slots, abs, l, idx, cur, m);
      abs := Log(abs, Visit(l, idx, |m|, cur, m));
      KeepHeaders();
      ParseReturns(abs, cur, cb.ops);
      Run(cb.ops);
      if !aborted {
        RepSize(slots, abs);
        MarkParsing(cur, false);
      }
    }

    /** handle_parse: a callback for each member, the next one being saved before the call.
        A run that records no more callbacks stops there. */
    method Parse(l: HLink, parses: seq<ParseCb>) returns (r: Code)
      requires Valid() && l in abs.prim && InModel(ParseS(abs, l, parses).1) && InitsParses(parses) <= world
      modifies this, world
      ensures Settled() && (r, abs) == ParseS(old(abs), l, parses)
      decreases parses, 2
    {
      hide Inv, Rep, ParseLoop;
      if l.parsing {
        return RecursionError;
      }
      ghost var s := abs;
      SetParsing(l, true);
      ParseMembers(l, parses);
      if aborted {
        return OK;
      }
      ParseMarks(s, l, parses);
      SetParsing(l, false);
      return OK;
    }

    /** One turn of the loop: the next slot and the count are saved, the callback is made,
        and its answer decides where to go on. */
    method ParseTurn(l: HLink, cur: nat, idx: nat, cb: ParseCb) returns (done: bool, cur': nat, idx': nat)
      requires Valid() && cur in Members(abs, l)
      requires InModel(HandleModel.CallParse(abs, l, cur, idx, cb)) && Inits(cb.ops) <= world
      modifies this, world
      ensures Settled()
      ensures (abs, done, cur', idx')
           == AfterTurn(old(abs), HandleModel.CallParse(old(abs), l, cur, idx, cb), l, cur, idx, cb.result)
      decreases cb, 1
    {
      hide Inv, Rep, HandleModel.CallParse;
      NextRep(slots, abs, l, cur);
      TurnFacts(abs, l, cur, idx, cb);
      var next, count := slots[cur].hNext, l.count;
      CallParse(l, cur, idx, cb);
      if aborted {
        return true, 0, 0;
      }
      match cb.result {
        case HPNext =>
          if l.count >= count {
            return false, next, idx + 1;
          }
          if count - l.count == 1 {
            return false, next, idx;
          }
          aborted := true;
          abs := abs.(halt := ParseOp);
          return true, 0, 0;
        case HPBreak =>
          return true, 0, 0;
        case HPRestart =>
          return false, l.head, 0;
        case HPOther =>
          aborted := true;
          abs := abs.(halt := ParseRet);
          return true, 0, 0;
      }
    }

    /** The loop of handle_parse. */
    method ParseMembers(l: HLink, parses: seq<ParseCb>)
      requires Valid() && l in abs.prim && InitsParses(parses) <= world
      requires InModel(ParseLoop(abs, l, Nth(Members(abs, l), 0), 0, parses))
      modifies this, world
      ensures Settled() && abs == ParseLoop(old(abs), l, Nth(Members(old(abs), l), 0), 0, parses)
      decreases parses, 0
    {
      hide Inv, Rep, HandleModel.CallParse, AfterTurn;
      ghost var result := ParseLoop(abs, l, Nth(Members(abs, l), 0), 0, parses);
      var cur, idx, k, done := l.head, 0, 0, false;
      while !done && cur != 0
        invariant 0 <= k <= |parses| && InitsParses(parses[k..]) <= world
        invariant Settled() && (!done ==> Valid() && l in abs.prim)
        invariant if done then abs == result else ParseLoop(abs, l, cur, idx, parses[k..]) == result
        decreases |parses| - k, !done
      {
        ParseRound(abs, l, cur, idx, parses[k..]);
        if k == |parses| {
          done := true;
        } else {
          assert parses[k..][1..] == parses[k + 1..];
          done, cur, idx := ParseTurn(l, cur, idx, parses[k]);
          k := k + 1;
        }
      }
    }

    // ---------- runs of library calls ----------

    /** The calls a callback makes, in order, until one of them aborts. */
    method Run(ops: seq<Op>)
      requires Valid() && InModel(ExecAll(abs, ops)) && Inits(ops) <= world
      modifies this, world
      ensures Settled() && abs == ExecAll(old(abs), ops)
      decreases ops, 0
    {
      hide Inv, Rep, Exec;
      if ops != [] {
        ghost var s1 := Exec(abs, ops[0]);
        if s1.halt != Running { ExecAllHalted(s1, ops[1..]); }
        Call(ops[0]);
        if !aborted {
          Run(ops[1..]);
        }
      }
    }

    method Call(op: Op)
      requires Valid() && InModel(Exec(abs, op)) && InitsOne(op) <= world
      modifies this, world
      ensures Settled() && abs == Exec(old(abs), op)
      decreases op, 3
    {
      hide Inv, Rep, AllocS, LinkS, DelinkS, LinkAuxS, DelinkAuxS, SetObjS, FreeS, FreeAllS, ParseS;
      CallInModel(abs, op);
      match op {
        case LinkInit(l) => LinkInit(l);
        case Alloc(typ, obj, tag) => var _, _ := Alloc(typ, obj, tag);
        case AllocAuxHead(obj, tag) => var _, _ := Alloc(AUX_LINK_HEAD, obj, tag);
        case Link(l, h) => var _ := Link(l, h);
        case Delink(l, h) => var _ := Delink(l, h);
        case LinkAux(ah, h) => var _ := LinkAux(ah, h);
        case DelinkAux(h) => var _ := DelinkAux(h);
        case SetObj(h, obj) => var _ := SetObj(h, obj);
        case Free(h, cb) => var _ := Free(h, cb);
        case FreeAll(l, frees) => var _ := FreeAll(l, frees);
        case Parse(l, parses) => var _ := Parse(l, parses);
      }
    }

    method SetFreeAll(l: HLink, b: bool)
      requires Valid() && l in abs.prim
      modifies this, world
      ensures Valid() && abs == old(abs).(freeAll := if b then old(abs).freeAll + {l} else old(abs).freeAll - {l})
    {
      hide Inv, Rep, HLink.Lists;
      MarkInv(abs, l);
      l.freeAll := b;
      abs := abs.(freeAll := if b then abs.freeAll + {l} else abs.freeAll - {l});
      forall k | k in abs.prim ensures Header(k) { assert old(Header(k)); }
    }

    method SetParsing(l: HLink, b: bool)
      requires Valid() && l in abs.prim
      modifies this, world
      ensures Valid() && abs == old(abs).(parsing := if b then old(abs).parsing + {l} else old(abs).parsing - {l})
    {
      hide Inv, Rep, HLink.Lists;
      MarkInv(abs, l);
      l.parsing := b;
      abs := abs.(parsing := if b then abs.parsing + {l} else abs.parsing - {l});
      forall k | k in abs.prim ensures Header(k) { assert old(Header(k)); }
    }

    /** Flags, object and tag of a slot may be written at any time. */
    method SetSlot(i: nat, c: HCtrl, ghost x: Slot)
      requires Valid() && i < |slots| && SlotRep(c, x) && SameH(slots[i], c) && SameAux(slots[i], c)
      requires var y := At(abs, i);
        x.gen == y.gen && x.typ == y.typ && x.owner == y.owner && x.auxHead == y.auxHead && x.auxList == y.auxList
      modifies this
      ensures Valid() && abs == Put(old(abs), i, x) && slots == old(slots)[i := c]
    {
      hide Inv;
      RepPut(slots, abs, i, x, c);
      PutInv(abs, i, x);
      hide Rep;
      slots := slots[i := c];
      abs := Put(abs, i, x);
      KeepHeaders();
    }

    /** Headers stay right as long as the lists and the header marks stay the same. */
    twostate lemma {:induction false} KeepHeaders()
      requires abs.prim == old(abs).prim && abs.parsing == old(abs).parsing && abs.freeAll == old(abs).freeAll
      requires forall l :: l in abs.prim ==> old(Header(l)) && unchanged(l)
      ensures forall l :: l in abs.prim ==> Header(l)
    {
      forall l | l in abs.prim ensures Header(l) { assert old(Header(l)); }
    }
  }

  lemma {:induction false} BracketSubsets(s: State)
    requires Inv(s)
    ensures s.parsing <= s.prim.Keys && s.freeAll <= s.prim.Keys
  {}

  /** Linking and delinking change slots and one list, and nothing else of the state. */
  lemma {:induction false} Relisted(s: State, l: HLink, i: nat)
    requires l in s.prim
    ensures Linked(s, l, i) == s.(slots := Linked(s, l, i).slots, prim := s.prim[l := s.prim[l] + [i]])
    ensures Delinked(s, l, i) == s.(slots := Delinked(s, l, i).slots, prim := s.prim[l := Without(s.prim[l], {i})])
    ensures |Linked(s, l, i).slots| == |s.slots| == |Delinked(s, l, i).slots|
  {}

  lemma {:induction false} OwnerLists(s: State, i: nat)
    requires Inv(s) && i < |s.slots| && s.slots[i].owner.Some?
    ensures s.slots[i].owner.value in s.prim && i in s.prim[s.slots[i].owner.value]
  {
    assert PrimSlotAt(s.slots, s.prim, i);
  }

  /** Where in its list a linked slot is, and who its neighbours are. */
  lemma {:induction false} DelinkPlace(c: seq<HCtrl>, s: State, l: HLink, i: nat) returns (k: nat)
    requires Inv(s) && Rep(c, s) && l in s.prim && i in s.prim[l]
    ensures i < |c| && var q := s.prim[l];
      && k < |q| && q[k] == i && 0 !in q && c[i].hNext == Nth(q, k + 1) && c[i].hPrev == Nth(q, k - 1)
      && Without(q, {i}) == q[..k] + q[k + 1..] && c[i].hNext != i && c[i].hPrev != i
  {
    var q := s.prim[l];
    k := Position(q, i);
    MemberFacts(s, l, i);
    NoZeroMember(s, l);
    assert PrimAt(c, q, k);
    hide Inv, Rep;
    WithoutOne(q, k);
  }

  /** A head and a client slot are different, and neither is on the other's kind of list. */
  lemma {:induction false} AuxRoles(s: State, a: nat, i: nat)
    requires Inv(s) && a < |s.slots| && i < |s.slots|
    requires s.slots[a].typ == AUX_LINK_HEAD && s.slots[i].typ >= RES_BY_HANDLE_LIB
    ensures a != i && s.slots[a].auxHead == 0 && s.slots[i].auxList == []
  {
    assert AuxSlotAt(s.slots, a);
    if s.slots[i].auxList != [] { HeadFacts(s.slots, i); }
  }

  lemma {:induction false} LinkAuxSlots(c: seq<HCtrl>, s: State, a: nat, i: nat)
    requires Inv(s) && Rep(c, s) && 0 < a < |c| && 0 < i < |c| && a != i
    requires s.slots[a].typ == AUX_LINK_HEAD && s.slots[a].auxHead == 0 && s.slots[i].auxHead == 0
    ensures c[a].auxNext < |c| && c[a].auxNext != i && c[a].auxNext != a
    ensures var s1 := Put(s, i, At(s, i).(auxHead := a));
      Put(s1, a, At(s1, a).(auxList := [i] + At(s1, a).auxList)) == s.(slots := JoinAux(s.slots, a, i))
  {
    AuxFacts(s, a);
    assert AuxEntry(c[a], s.slots[a]);
    var q := s.slots[a].auxList;
    if q != [] { assert q[0] in q; }
  }

  /** The auxiliary link of a slot is the next member, or the first one of the list it heads. */
  lemma {:induction false} AuxNextRep(c: seq<HCtrl>, s: State, i: nat)
    requires Inv(s) && Rep(c, s) && 0 < i < |c|
    ensures c[i].auxNext == AuxNext(s, i) < |c|
    ensures c[i].auxNext != 0 ==> SlotRep(c[c[i].auxNext], At(s, c[i].auxNext))
  {
    var a := s.slots[i].auxHead;
    if a != 0 {
      assert AuxSlotAt(s.slots, i);
      var q := s.slots[a].auxList;
      MemberOfAux(s, a, i);
      AuxFacts(s, a);
      var k := Position(q, i);
      assert AuxAt(c, q, k);
      AuxNeighbours(c, q, a, k);
      AfterAt(q, k);
    } else {
      assert AuxEntry(c[i], s.slots[i]);
      var q := s.slots[i].auxList;
      if q != [] { assert q[0] in q; MemberOfAux(s, i, q[0]); }
    }
  }

  lemma {:induction false} RepSize(c: seq<HCtrl>, s: State)
    requires Rep(c, s)
    ensures |c| == |s.slots|
    ensures forall i :: 0 <= i < |c| ==> SlotRep(c[i], s.slots[i])
  {}

  lemma {:induction false} PopRep(c: seq<HCtrl>, s: State)
    requires Inv(s) && Rep(c, s) && s.free != []
    ensures s.free[0] < |c| && c[s.free[0]].hNext == Nth(s.free[1..], 0) && Rep(c, s.(free := s.free[1..]))
  {
    hide Inv;
    PopThread(c, s.free);
  }

  /** Size and head of the free list after growth. */
  lemma {:induction false} GrowFree(s: State)
    requires |s.slots| > 0
    ensures |Grow(s).free| == |s.free| + GROW_BY && Nth(Grow(s).free, 0) == Total(s) + GROW_BY
    ensures Total(Grow(s)) == Total(s) + GROW_BY
  {
    DownAt(Total(s), Total(s) + GROW_BY, 0);
    hide Down;
  }

  lemma {:induction false} ReadyIs(s: State)
    requires |s.slots| > 0 && |s.free| > 0
    ensures Ready(s) == var s1 := s.(free := s.free[1..]); if |s1.free| <= GROW_AT then Grow(s1) else s1
  {
    hide Grow;
  }

  /** What Alloc knows before it touches the array. */
  lemma {:induction false} AllocStart(s: State, typ: nat, obj: int, tag: int) returns (s': State, q: State)
    requires Inv(s) && s.halt == Running && typ != INV_HANDLE_TYPE && CanAlloc(s)
    ensures s' == s && |s.free| > 0 && |s.slots| > 0 && q == Ready(s) && |q.grp| == NB_GROUPS
    ensures q == s.(slots := q.slots, free := q.free) && InUse(q) > 0 && Popped(q, s.free[0])
    ensures var t := Reuse(q, s.free[0], typ, obj, tag);
      && AllocS(s, typ, obj, tag) == (OK, HandleOf(s.free[0], At(q, s.free[0]).gen + 1), t) && Inv(t)
  {
    hide Rep, HandleOf, Popped, Count, MaxUsed;
    s', q := s, Ready(s);
    FreeHead(s);
    AllocInv(s, typ, obj, tag);
    ReadyFacts(s);
  }

  lemma {:induction false} AllocRep(c: seq<HCtrl>, q: State, i: nat, typ: nat, obj: int, tag: int)
    requires Rep(c, q) && Popped(q, i) && i < |c| && InUse(q) > 0
    ensures var t := Reuse(q, i, typ, obj, tag); var d := FreshCtrl(c[i], typ, obj, tag);
      && Rep(c[i := d], t) && |c| == |q.slots| && |t.slots| == |q.slots|
      && t == q.(slots := t.slots, grp := Bump(q.grp, typ), trace := t.trace,
                 peak := if InUse(q) > q.peak then InUse(q) else q.peak)
      && i % 0x10000 + d.count * 0x10000 == HandleOf(i, At(q, i).gen + 1)
  {
    hide *;
    ReuseRep(c, q, i, typ, obj, tag);
    RepSize(c, q);
    ReuseShape(c[i], q, i, typ, obj, tag);
  }

  lemma {:induction false} ReuseShape(d: HCtrl, q: State, i: nat, typ: nat, obj: int, tag: int)
    requires i < |q.slots| && SlotRep(d, q.slots[i])
    ensures var t := Reuse(q, i, typ, obj, tag);
      && |t.slots| == |q.slots|
      && t == q.(slots := t.slots, grp := Bump(q.grp, typ), trace := t.trace,
                 peak := if InUse(q) > q.peak then InUse(q) else q.peak)
    ensures i % 0x10000 + FreshCtrl(d, typ, obj, tag).count * 0x10000 == HandleOf(i, At(q, i).gen + 1)
  {
    hide Bump, Fresh;
    NextCount(q.slots[i].gen);
  }

  lemma {:induction false} NextCount(g: nat)
    ensures (g % 256 + 1) % 256 == (g + 1) % 256
  {}

  lemma {:induction false} ReleaseIs(s: State, i: nat)
    requires Inv(s) && i < |s.slots|
    ensures Release(s, i) == s.(slots := Release(s, i).slots, free := [i] + s.free, grp := Drop(s.grp, At(s, i).typ),
                                trace := Release(s, i).trace)
    ensures |Release(s, i).slots| == |s.slots| && |s.grp| == NB_GROUPS
  {}

  /** When the callback of slot i returns without an abort, the slot is still the active
      slot it was called for, and heads no auxiliary list. */
  lemma {:induction false} CallbackReturns(s: State, i: nat, cb: FreeCb)
    requires Inv(s) && s.halt == Running && i < |s.slots| && Active(s.slots[i]) && s.slots[i].typ != AUX_LINK_HEAD
    ensures var s2 := ExecAll(HandleModel.MarkFreeing(s, i, true), cb.ops);
      s2.halt == Running ==> i < |s2.slots| && Active(At(s2, i)) && At(s2, i).auxList == []
  {
    var s1 := HandleModel.MarkFreeing(s, i, true);
    PutInv(s, i, At(s, i).(freeing := true));
    ExecAllKeeps(s1, cb.ops);
    hide Inv, ExecAll;
    if ExecAll(s1, cb.ops).halt == Running { AfterFreeCb(s, i, ExecAll(s1, cb.ops), LinksAll(cb.ops)); }
  }

  /** Header marks play no part in the shape, nor in what the slot array represents. */
  lemma {:induction false} MarkInv(s: State, l: HLink)
    requires Inv(s) && l in s.prim
    ensures forall p, f :: p <= s.parsing + {l} && f <= s.freeAll + {l} ==> Inv(s.(parsing := p, freeAll := f))
    ensures forall c, p, f :: Rep(c, s) ==> Rep(c, s.(parsing := p, freeAll := f))
  {}

  /** The loop body of u_handle_free_all for the first member. */
  function FreeFirst(s: State, l: HLink, cb: FreeCb): (bool, State) {
    var i := Nth(Members(s, l), 0);
    if At(s, i).freeing then (false, s)
    else
      var (ok, s1) := HandleModel.CallFree(s, i, cb);
      (ok && s1.halt == Running, s1)
  }

  /** The head of a non-empty list, and what the loop does with it. */
  lemma {:induction false} FreeRound(s: State, l: HLink, frees: seq<FreeCb>)
    requires Inv(s) && s.halt == Running && l in s.prim && Nth(Members(s, l), 0) != 0
    ensures var m := Members(s, l); m != [] && 0 < m[0] < |s.slots| && Active(At(s, m[0])) && Nth(m, 0) == m[0]
    ensures frees == [] ==> FreeAllLoop(s, l, frees) == (false, s)
    ensures frees != [] ==> var (ok, s1) := FreeFirst(s, l, frees[0]);
      && FreeAllLoop(s, l, frees) == (if ok then FreeAllLoop(s1, l, frees[1..]) else (false, s1))
      && (ok ==> l in s1.prim && s1.halt == Running)
      && (InModel(FreeAllLoop(s, l, frees).1) ==> InModel(s1))
  {
    hide HandleModel.CallFree, Inv;
    var i := Members(s, l)[0];
    MemberFacts(s, l, i);
    if !At(s, i).freeing && frees != [] {
      CallFreeKeeps(s, i, frees[0]);
      var s1 := HandleModel.CallFree(s, i, frees[0]).1;
      assert s1.halt != Running ==> FreeAllLoop(s1, l, frees[1..]) == (false, s1);
    }
  }

  lemma {:induction false} FreeEnds(s: State, l: HLink, frees: seq<FreeCb>)
    requires s.halt == Running
    ensures Members(s, l) == [] ==> FreeAllLoop(s, l, frees) == (true, s)
  {}

  /** u_handle_free_all leaves the marks of other lists as they were. */
  lemma {:induction false} FreeAllMarks(s: State, l: HLink, frees: seq<FreeCb>)
    requires Inv(s) && s.halt == Running && l in s.prim && l !in s.freeAll
    requires FreeAllLoop(s.(freeAll := s.freeAll + {l}), l, frees).1.halt == Running
    ensures l in FreeAllLoop(s.(freeAll := s.freeAll + {l}), l, frees).1.prim
  {
    BracketInv(s, l);
    FreeAllLoopKeeps(s.(freeAll := s.freeAll + {l}), l, frees);
  }

  /** A call inside the model meets what the method for it requires. */
  lemma {:induction false} CallInModel(s: State, op: Op)
    requires Inv(s) && s.halt == Running && InModel(Exec(s, op))
    ensures match op
      case LinkInit(l) => l !in s.prim
      case Alloc(typ, _, _) => typ != AUX_LINK_HEAD && (typ != INV_HANDLE_TYPE ==> CanAlloc(s))
      case AllocAuxHead(_, _) => CanAlloc(s)
      case Link(l, h) => LinkS(s, l, h).1.halt == Running
      case Delink(l, h) => DelinkS(s, l, h).1.halt == Running
      case FreeAll(l, _) => l in s.prim
      case Parse(l, _) => l in s.prim
      case _ => true
  {
    hide Inv, FreeAllLoop, ParseLoop;
    FreeHead(s);
    match op
    case FreeAll(l, frees) => assert Exec(s, op) == FreeAllS(s, l, frees).1;
    case Parse(l, parses) => assert Exec(s, op) == ParseS(s, l, parses).1;
    case _ =>
  }

  lemma {:induction false} LogInv(c: seq<HCtrl>, s: State, l: HLink, idx: nat, cur: nat, m: seq<nat>)
    requires Inv(s) && Rep(c, s)
    ensures var t := Log(s, Visit(l, idx, |m|, cur, m)); Inv(t) && Rep(c, t)
  {
    LogVisitInv(s, l, idx, cur, m);
  }

  /** The slot array never shrinks. */
  lemma {:induction false} ParseReturns(s: State, cur: nat, ops: seq<Op>)
    requires Inv(s) && s.halt == Running && cur < |s.slots|
    ensures ExecAll(s, ops).halt == Running ==> cur < |ExecAll(s, ops).slots|
  {
    ExecAllKeeps(s, ops);
  }

  lemma {:induction false} ParseMarks(s: State, l: HLink, parses: seq<ParseCb>)
    requires Inv(s) && s.halt == Running && l in s.prim
    requires var s0 := s.(parsing := s.parsing + {l});
      ParseLoop(s0, l, Nth(Members(s0, l), 0), 0, parses).halt == Running
    ensures var s0 := s.(parsing := s.parsing + {l}); l in ParseLoop(s0, l, Nth(Members(s0, l), 0), 0, parses).prim
  {
    var s0 := s.(parsing := s.parsing + {l});
    BracketInv(s, l);
    ParseLoopKeeps(s0, l, Nth(Members(s0, l), 0), 0, parses);
  }

  /** Where the loop goes on after a callback turned s into s1 and answered r. */
  function AfterTurn(s: State, s1: State, l: HLink, cur: nat, idx: nat, r: ParseResult): (State, bool, nat, nat) {
    var next, before, after := After(Members(s, l), cur), |Members(s, l)|, |Members(s1, l)|;
    if s1.halt != Running then (s1, true, 0, 0)
    else
      match r
      case HPNext =>
        if after >= before then (s1, false, next, idx + 1)
        else if before - after == 1 then (s1, false, next, idx)
        else (s1.(halt := ParseOp), true, 0, 0)
      case HPBreak => (s1, true, 0, 0)
      case HPRestart => (s1, false, Nth(Members(s1, l), 0), 0)
      case HPOther => (s1.(halt := ParseRet), true, 0, 0)
  }

  lemma {:induction false} TurnFacts(s: State, l: HLink, cur: nat, idx: nat, cb: ParseCb)
    requires Inv(s) && s.halt == Running && cur in Members(s, l)
    ensures l in s.prim
    ensures var s1 := HandleModel.CallParse(s, l, cur, idx, cb); s1.halt == Running ==> l in s1.prim
  {
    hide Inv, HandleModel.CallParse;
    MemberFacts(s, l, cur);
    CallParseKeeps(s, l, cur, idx, cb);
  }

  /** What one turn of the parse loop does. */
  lemma {:induction false} ParseRound(s: State, l: HLink, cur: nat, idx: nat, parses: seq<ParseCb>)
    requires Inv(s) && s.halt == Running && l in s.prim && cur != 0 && InModel(ParseLoop(s, l, cur, idx, parses))
    ensures cur in Members(s, l)
    ensures parses == [] ==> ParseLoop(s, l, cur, idx, parses) == s
    ensures parses != [] ==>
      var s1 := HandleModel.CallParse(s, l, cur, idx, parses[0]);
      var (t, done, cur', idx') := AfterTurn(s, s1, l, cur, idx, parses[0].result);
      && (s1.halt != Running ==> t == s1 && done) && (!done ==> t == s1 && l in s1.prim)
      && ParseLoop(s, l, cur, idx, parses) == (if done then t else ParseLoop(t, l, cur', idx', parses[1..]))
      && (t.halt == s1.halt || t.halt == ParseOp || t.halt == ParseRet)
      && InModel(s1)
  {
    hide HandleModel.CallParse, Inv;
    if parses != [] && cur in Members(s, l) {
      CallParseKeeps(s, l, cur, idx, parses[0]);
    }
  }

  /** The primary link of a member leads to the next member. */
  lemma {:induction false} NextRep(c: seq<HCtrl>, s: State, l: HLink, cur: nat)
    requires Inv(s) && Rep(c, s) && cur in Members(s, l)
    ensures cur < |c| && c[cur].hNext == After(Members(s, l), cur)
  {
    MemberFacts(s, l, cur);
    var q := Members(s, l);
    var k := Position(q, cur);
    assert PrimAt(c, q, k);
    AfterAt(q, k);
  }

  lemma {:induction false} InitRep(arr: seq<HCtrl>, n: nat)
    requires arr == [BlankCtrl(0)] + BlankCtrls(1, 0, n)
    ensures Rep(arr, Init(n)) && Nth(Init(n).free, 0) == n && |Init(n).free| == n
  {
    var s := Init(n);
    DownMembers(0, n);
    GrowThread([BlankCtrl(0)], [], n);
    assert Down(0, n) + [] == Down(0, n);
    forall a | 0 <= a < |arr|
      ensures SlotRep(arr[a], s.slots[a]) && AuxEntry(arr[a], s.slots[a]) && AuxThread(arr, s.slots[a].auxList)
    {
      if a > 0 { BlankCtrlsAt(1, 0, n, a - 1); }
    }
    if n > 0 { DownAt(0, n, 0); }
  }
}
