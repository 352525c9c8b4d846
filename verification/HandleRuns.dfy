/** What every run of library calls keeps, whatever the client callbacks do. */
module HandleRuns {
  import opened Seqs
  import opened HandleModel
  import opened HandleInv

  /** The lists a script may link a handle into, nested callbacks included. */
  function Links(op: Op): set<HLink>
    decreases op, 1
  {
    match op
    case Link(l, _) => {l}
    case LinkInit(l) => {l}
    case Free(_, cb) => LinksAll(cb.ops)
    case FreeAll(_, frees) => LinksFrees(frees)
    case Parse(_, parses) => LinksParses(parses)
    case _ => {}
  }

  function LinksAll(ops: seq<Op>): set<HLink>
    decreases ops, 0
  {
    if ops == [] then {} else Links(ops[0]) + LinksAll(ops[1..])
  }

  function LinksFrees(frees: seq<FreeCb>): set<HLink>
    decreases frees, 0
  {
    if frees == [] then {} else LinksAll(frees[0].ops) + LinksFrees(frees[1..])
  }

  function LinksParses(parses: seq<ParseCb>): set<HLink>
    decreases parses, 0
  {
    if parses == [] then {} else LinksAll(parses[0].ops) + LinksParses(parses[1..])
  }

  /** The slots a parse callback is running for. */
  ghost function Flagged(s: State): set<nat> {
    set i: nat | i < |s.slots| && s.slots[i].parsing
  }

  /** b is what a became: generations only grow; no PARSING flag appears; a slot in the
      middle of being freed stays exactly that; no new FREEING flag is left behind. */
  ghost predicate SlotKept(a: Slot, b: Slot) {
    && a.gen <= b.gen
    && (b.parsing ==> a.parsing)
    && (b.gen == a.gen ==> b.typ == a.typ)
    && (Active(a) && a.freeing ==> b.gen == a.gen && b.freeing)
    && (Active(b) && b.freeing ==> b.gen == a.gen && a.freeing)
  }

  ghost predicate Cut(before: seq<nat>, after: seq<nat>, gone: set<nat>, more: seq<nat>) {
    after == Without(before, gone) + more
  }

  /** A list lost only members in f, and gained members only at its tail (none unless
      canLink). */
  ghost predicate Kept(before: seq<nat>, after: seq<nat>, f: set<nat>, canLink: bool) {
    exists gone: set<nat>, more: seq<nat> ::
      Cut(before, after, gone, more) && gone <= f && (canLink || more == [])
  }

  ghost predicate ListKept(s: State, t: State, links: set<HLink>, l: HLink) {
    Kept(Members(s, l), Members(t, l), Flagged(s), l in links) && Visits(t.trace, l) == Visits(s.trace, l)
  }

  /** The guarantee every finished call gives its caller. */
  ghost predicate GuarOn(s: State, t: State, links: set<HLink>, protected: set<HLink>) {
    && |s.slots| <= |t.slots|
    && (forall i: nat :: SlotKept(At(s, i), At(t, i)))
    && t.parsing == s.parsing && t.freeAll == s.freeAll && s.prim.Keys <= t.prim.Keys
    && s.trace <= t.trace
    && (forall l :: l in protected ==> ListKept(s, t, links, l))
  }

  ghost predicate Guar(s: State, t: State, links: set<HLink>) {
    GuarOn(s, t, links, s.parsing)
  }

  // ---------- the guarantee composes ----------

  lemma {:induction false} CutKept(before: seq<nat>, after: seq<nat>, f: set<nat>, canLink: bool,
                                   gone: set<nat>, more: seq<nat>)
    requires after == Without(before, gone) + more && gone <= f && (canLink || more == [])
    ensures Kept(before, after, f, canLink)
  {
    assert Cut(before, after, gone, more);
  }

  lemma {:induction false} KeptSame(q: seq<nat>, f: set<nat>, canLink: bool)
    ensures Kept(q, q, f, canLink)
  {
    WithoutNothing(q, {});
    CutKept(q, q, f, canLink, {}, []);
  }

  lemma {:induction false} KeptTrans(a: seq<nat>, b: seq<nat>, c: seq<nat>, f: set<nat>, g: set<nat>,
                                     k1: bool, k2: bool)
    requires Kept(a, b, f, k1) && Kept(b, c, g, k2) && g <= f
    ensures Kept(a, c, f, k1 || k2)
  {
    var r, m :| Cut(a, b, r, m) && r <= f && (k1 || m == []);
    var r', m' :| Cut(b, c, r', m') && r' <= g && (k2 || m' == []);
    WithoutConcat(Without(a, r), m, r');
    WithoutTwice(a, r, r');
    CutKept(a, c, f, k1 || k2, r + r', Without(m, r') + m');
  }

  lemma {:induction false} KeptWeaken(a: seq<nat>, b: seq<nat>, f: set<nat>, g: set<nat>, k1: bool, k2: bool)
    requires Kept(a, b, f, k1) && f <= g && (k1 ==> k2)
    ensures Kept(a, b, g, k2)
  {
    var r, m :| Cut(a, b, r, m) && r <= f && (k1 || m == []);
    CutKept(a, b, g, k2, r, m);
  }

  lemma {:induction false} FlaggedShrinks(s: State, t: State)
    requires |s.slots| <= |t.slots| && forall i: nat :: SlotKept(At(s, i), At(t, i))
    ensures Flagged(t) <= Flagged(s)
  {
    forall i | i in Flagged(t) ensures i in Flagged(s) { assert SlotKept(At(s, i), At(t, i)); }
  }

  lemma {:induction false} GuarTrans(s: State, t: State, u: State, l1: set<HLink>, l2: set<HLink>, p: set<HLink>)
    requires GuarOn(s, t, l1, p) && GuarOn(t, u, l2, p)
    ensures GuarOn(s, u, l1 + l2, p)
  {
    FlaggedShrinks(s, t);
    forall i: nat ensures SlotKept(At(s, i), At(u, i)) {
      assert SlotKept(At(s, i), At(t, i)) && SlotKept(At(t, i), At(u, i));
    }
    forall l | l in p ensures ListKept(s, u, l1 + l2, l) {
      assert ListKept(s, t, l1, l) && ListKept(t, u, l2, l);
      KeptTrans(Members(s, l), Members(t, l), Members(u, l), Flagged(s), Flagged(t), l in l1, l in l2);
    }
  }

  lemma {:induction false} GuarWeaken(s: State, t: State, l1: set<HLink>, l2: set<HLink>, p: set<HLink>)
    requires GuarOn(s, t, l1, p) && l1 <= l2
    ensures GuarOn(s, t, l2, p)
  {
    forall l | l in p ensures ListKept(s, t, l2, l) {
      assert ListKept(s, t, l1, l);
      KeptWeaken(Members(s, l), Members(t, l), Flagged(s), Flagged(s), l in l1, l in l2);
    }
  }

  lemma {:induction false} GuarSame(s: State, links: set<HLink>, p: set<HLink>)
    ensures GuarOn(s, s, links, p)
  {
    forall l | l in p ensures ListKept(s, s, links, l) { KeptSame(Members(s, l), Flagged(s), l in links); }
  }

  // ---------- single steps ----------

  lemma {:induction false} VisitsUsed(trace: seq<Event>, n: nat, i: nat, l: HLink)
    ensures Visits(trace + [Used(n, i)], l) == Visits(trace, l)
  {
    assert (trace + [Used(n, i)])[..|trace|] == trace;
  }

  /** A step that touches no protected list only has to look after the slots. */
  lemma {:induction false} GuarSlots(s: State, t: State, links: set<HLink>, p: set<HLink>)
    requires |s.slots| <= |t.slots| && forall i: nat :: SlotKept(At(s, i), At(t, i))
    requires t.parsing == s.parsing && t.freeAll == s.freeAll && s.prim.Keys <= t.prim.Keys
    requires t.trace == s.trace || exists n, i :: t.trace == s.trace + [Used(n, i)]
    requires forall l :: l in p ==> Members(t, l) == Members(s, l)
    ensures GuarOn(s, t, links, p)
  {
    forall l | l in p ensures ListKept(s, t, links, l) {
      KeptSame(Members(s, l), Flagged(s), l in links);
      if t.trace != s.trace {
        var n, i :| t.trace == s.trace + [Used(n, i)];
        VisitsUsed(s.trace, n, i, l);
      }
    }
  }

  lemma {:induction false} AllocKeeps(s: State, typ: nat, obj: int, tag: int)
    requires Inv(s) && s.halt == Running
    ensures Good(s, AllocS(s, typ, obj, tag).2, {})
  {
    var t := AllocS(s, typ, obj, tag).2;
    if typ == INV_HANDLE_TYPE {
      GuarSame(s, {}, s.parsing);
    } else if CanAlloc(s) {
      AllocInv(s, typ, obj, tag);
      AllocFacts(s, typ, obj, tag);
      hide AllocS, Inv, Visits;
      forall j: nat ensures SlotKept(At(s, j), At(t, j)) {}
      GuarSlots(s, t, {}, s.parsing);
    }
  }

  lemma {:induction false} LinkGuar(s: State, l: HLink, h: nat)
    requires Inv(s) && s.halt == Running && LinkS(s, l, h).1.halt == Running
    ensures Guar(s, LinkS(s, l, h).1, {l})
  {
    hide Inv;
    var t := LinkS(s, l, h).1;
    var i := Decode(s, h);
    forall k | k in s.parsing ensures ListKept(s, t, {l}, k) {
      KeptSame(Members(s, k), Flagged(s), k == l);
      if k == l && t != s {
        WithoutNothing(Members(s, k), {});
        CutKept(Members(s, k), Members(t, k), Flagged(s), true, {}, [i]);
      }
    }
  }

  lemma {:induction false} DelinkGuar(s: State, l: HLink, h: nat)
    requires Inv(s) && s.halt == Running && DelinkS(s, l, h).1.halt == Running
    ensures Guar(s, DelinkS(s, l, h).1, {})
  {
    var t := DelinkS(s, l, h).1;
    var i := Decode(s, h);
    hide FreeOk, PrimOk, AuxOk, StatOk, Decode;
    forall k | k in s.parsing ensures ListKept(s, t, {}, k) {
      KeptSame(Members(s, k), Flagged(s), false);
      if k == l && t != s {
        assert i in Flagged(s);
        CutKept(Members(s, k), Members(t, k), Flagged(s), false, {i}, []);
      }
    }
  }

  /** Steps that only rewrite auxiliary fields or the object of a slot. */
  lemma {:induction false} FieldGuar(s: State, t: State, links: set<HLink>)
    requires |t.slots| == |s.slots| && t == s.(slots := t.slots)
    requires forall i :: 0 <= i < |s.slots| ==>
      t.slots[i] == s.slots[i].(auxHead := t.slots[i].auxHead, auxList := t.slots[i].auxList, obj := t.slots[i].obj)
    ensures Guar(s, t, links)
  {
    forall i: nat ensures SlotKept(At(s, i), At(t, i)) {}
    GuarSlots(s, t, links, s.parsing);
  }

  lemma {:induction false} LinkAuxGuar(s: State, ah: nat, h: nat, links: set<HLink>)
    requires Inv(s) && s.halt == Running
    ensures Guar(s, LinkAuxS(s, ah, h).1, links)
  {
    hide Inv;
    FieldGuar(s, LinkAuxS(s, ah, h).1, links);
  }

  lemma {:induction false} DelinkAuxGuar(s: State, h: nat, links: set<HLink>)
    requires Inv(s) && s.halt == Running
    ensures Inv(DelinkAuxS(s, h).1) && Guar(s, DelinkAuxS(s, h).1, links)
  {
    hide Inv;
    var i, t := Decode(s, h), DelinkAuxS(s, h).1;
    if DelinkAuxS(s, h).0 == OK {
      UnhookFacts(s, i);
      forall j: nat ensures SlotKept(At(s, j), At(t, j)) {}
      GuarSlots(s, t, links, s.parsing);
    } else {
      GuarSame(s, links, s.parsing);
    }
  }

  lemma {:induction false} SetObjGuar(s: State, h: nat, obj: int, links: set<HLink>)
    requires Inv(s) && s.halt == Running
    ensures Inv(SetObjS(s, h, obj).1) && Guar(s, SetObjS(s, h, obj).1, links)
  {
    hide Inv;
    var i := Decode(s, h);
    if i != 0 { PutInv(s, i, At(s, i).(obj := obj)); }
    FieldGuar(s, SetObjS(s, h, obj).1, links);
  }

  // ---------- around a callback ----------

  lemma {:induction false} FlaggedMarkFreeing(s: State, i: nat, b: bool)
    ensures Flagged(MarkFreeing(s, i, b)) == Flagged(s)
  {
    var t := MarkFreeing(s, i, b);
    forall j: nat ensures j in Flagged(t) <==> j in Flagged(s) {}
  }

  /** After a free callback the slot is still the active slot it was called for. */
  lemma {:induction false} AfterFreeCb(s: State, i: nat, s2: State, links: set<HLink>)
    requires Inv(s) && i < |s.slots| && Active(s.slots[i]) && s.slots[i].typ != AUX_LINK_HEAD
    requires Inv(s2) && Guar(MarkFreeing(s, i, true), s2, links)
    ensures i < |s2.slots| && Active(s2.slots[i]) && s2.slots[i].gen == s.slots[i].gen
    ensures s2.slots[i].freeing && s2.slots[i].auxList == []
  {
    var s1 := MarkFreeing(s, i, true);
    assert SlotKept(At(s1, i), At(s2, i));
    if s2.slots[i].auxList != [] { HeadFacts(s2.slots, i); }
  }

  /** A refused free leaves the guarantee of its callback. */
  lemma {:induction false} RefusedGuar(s: State, i: nat, s2: State, links: set<HLink>)
    requires Inv(s) && i < |s.slots| && Active(s.slots[i]) && !s.slots[i].freeing
    requires Inv(s2) && Guar(MarkFreeing(s, i, true), s2, links)
    ensures Inv(MarkFreeing(s2, i, false)) && Guar(s, MarkFreeing(s2, i, false), links)
  {
    hide Inv;
    var s1, t := MarkFreeing(s, i, true), MarkFreeing(s2, i, false);
    PutInv(s2, i, At(s2, i).(freeing := false));
    FlaggedMarkFreeing(s, i, true);
    forall j: nat ensures SlotKept(At(s, j), At(t, j)) { assert SlotKept(At(s1, j), At(s2, j)); }
    forall l | l in s.parsing ensures ListKept(s, t, links, l) { assert ListKept(s1, s2, links, l); }
  }

  /** So does an accepted one that does not abort: the slot's generation moves on. */
  lemma {:induction false} RetiredGuar(s: State, i: nat, s2: State, links: set<HLink>)
    requires Inv(s) && i < |s.slots| && Active(s.slots[i]) && !s.slots[i].freeing
    requires Inv(s2) && s2.halt == Running && Guar(MarkFreeing(s, i, true), s2, links)
    requires s2.slots[i].auxList == [] && Active(s2.slots[i])
    ensures var t := Retire(s2, i); t.halt == Running ==> Inv(t) && Guar(s, t, links)
  {
    hide Inv, Visits;
    var s1, t := MarkFreeing(s, i, true), Retire(s2, i);
    RetireFacts(s2, i);
    if t.halt == Running {
      FlaggedMarkFreeing(s, i, true);
      RetireSlots(s2, i);
      forall j: nat ensures SlotKept(At(s, j), At(t, j)) {
        assert SlotKept(At(s1, j), At(s2, j));
      }
      forall l | l in s.parsing ensures ListKept(s, t, links, l) {
        assert ListKept(s1, s2, links, l);
        VisitsUsed(s2.trace, InUse(t), i, l);
      }
    }
  }

  /** What retiring slot i does to each slot and to the rest of the state. */
  lemma {:induction false} RetireSlots(s: State, i: nat)
    requires Inv(s) && s.halt == Running && i < |s.slots| && Active(s.slots[i]) && s.slots[i].auxList == []
    requires Retire(s, i).halt == Running
    ensures var t := Retire(s, i);
      && |t.slots| == |s.slots| && t.prim == s.prim && t.parsing == s.parsing && t.freeAll == s.freeAll
      && t.free == [i] + s.free && InUse(t) >= 0 && t.trace == s.trace + [Used(InUse(t), i)]
    ensures At(Retire(s, i), i) == At(s, i).(gen := At(s, i).gen + 1, auxHead := 0)
    ensures forall j: nat :: j != i ==> At(Retire(s, i), j) == At(s, j).(auxList := At(Retire(s, i), j).auxList)
  {
    hide Inv;
    RetireFacts(s, i);
    UnhookFacts(s, i);
    ReleaseSlots(Unhook(s, i), i);
  }

  lemma {:induction false} ReleaseSlots(s: State, i: nat)
    requires i < |s.slots| && InUse(s) > 0
    ensures var t := Release(s, i);
      && |t.slots| == |s.slots| && t.prim == s.prim && t.parsing == s.parsing && t.freeAll == s.freeAll
      && t.free == [i] + s.free && InUse(t) == InUse(s) - 1 && t.trace == s.trace + [Used(InUse(t), i)]
      && At(t, i) == At(s, i).(gen := At(s, i).gen + 1)
      && (forall j: nat :: j != i ==> At(t, j) == At(s, j))
  {}

  /** A parse callback flags its slot, which is on list l and on no other list. */
  lemma {:induction false} AfterParseCb(s: State, l: HLink, cur: nat, idx: nat, m: seq<nat>, s2: State,
                                        links: set<HLink>)
    requires Inv(s) && l in s.prim && cur in Members(s, l)
    requires Inv(s2) && Guar(Log(MarkParsing(s, cur, true), Visit(l, idx, |m|, cur, m)), s2, links)
    ensures Inv(MarkParsing(s2, cur, false))
    ensures GuarOn(s, MarkParsing(s2, cur, false), links, s.parsing - {l})
  {
    hide Inv;
    var s1, t := Log(MarkParsing(s, cur, true), Visit(l, idx, |m|, cur, m)), MarkParsing(s2, cur, false);
    MemberFacts(s, l, cur);
    PutInv(s2, cur, At(s2, cur).(parsing := false));
    FlagOne(s, cur);
    forall j: nat ensures SlotKept(At(s, j), At(t, j)) { assert SlotKept(At(s1, j), At(s2, j)); }
    forall k | k in s.parsing - {l} ensures ListKept(s, t, links, k) {
      assert ListKept(s1, s2, links, k);
      assert s1.trace[..|s1.trace| - 1] == s.trace;
      assert Flagged(s1) == Flagged(s) + {cur};
      KeptElsewhere(Members(s, k), Members(t, k), Flagged(s), cur, k in links);
    }
  }

  lemma {:induction false} FlagOne(s: State, cur: nat)
    requires cur < |s.slots|
    ensures forall e: Event :: Flagged(Log(MarkParsing(s, cur, true), e)) == Flagged(s) + {cur}
  {
    forall e: Event ensures Flagged(Log(MarkParsing(s, cur, true), e)) == Flagged(s) + {cur} {
      var t := Log(MarkParsing(s, cur, true), e);
      forall j: nat ensures j in Flagged(t) <==> j in Flagged(s) + {cur} {}
    }
  }

  /** Flagging a slot that is not on a list puts none of its members at risk. */
  lemma {:induction false} KeptElsewhere(a: seq<nat>, b: seq<nat>, f: set<nat>, cur: nat, canLink: bool)
    requires Kept(a, b, f + {cur}, canLink) && cur !in a
    ensures Kept(a, b, f, canLink)
  {
    var r, m :| Cut(a, b, r, m) && r <= f + {cur} && (canLink || m == []);
    WithoutSame(a, r, r - {cur});
    CutKept(a, b, f, canLink, r - {cur}, m);
  }

  // ---------- every run ----------

  ghost predicate Good(s: State, t: State, links: set<HLink>) {
    t.halt == Running ==> Inv(t) && Guar(s, t, links)
  }

  /** Main result: a call that is not aborted keeps the shape of the library and gives its
      caller the guarantee, whatever calls its callbacks make, to any depth. */
  lemma {:induction false} ExecKeeps(s: State, op: Op)
    requires Inv(s) && s.halt == Running
    ensures Good(s, Exec(s, op), Links(op))
    decreases op, 1
  {
    hide Inv;
    match op
    case LinkInit(l) =>
      if l !in s.prim {
        LinkInitInv(s, l);
        GuarSlots(s, Exec(s, op), {l}, s.parsing);
      }
    case Alloc(typ, obj, tag) =>
      if typ != AUX_LINK_HEAD { AllocKeeps(s, typ, obj, tag); }
    case AllocAuxHead(obj, tag) => AllocKeeps(s, AUX_LINK_HEAD, obj, tag);
    case Link(l, h) =>
      if LinkS(s, l, h).1.halt == Running { LinkInv(s, l, h); LinkGuar(s, l, h); }
    case Delink(l, h) =>
      if DelinkS(s, l, h).1.halt == Running { DelinkInv(s, l, h); DelinkGuar(s, l, h); }
    case LinkAux(ah, h) => LinkAuxInv(s, ah, h); LinkAuxGuar(s, ah, h, {});
    case DelinkAux(h) => DelinkAuxGuar(s, h, {});
    case SetObj(h, obj) => SetObjGuar(s, h, obj, {});
    case Free(h, cb) =>
      var i := Decode(s, h);
      if i == 0 || At(s, i).freeing {
        GuarSame(s, LinksAll(cb.ops), s.parsing);
      } else {
        CallFreeKeeps(s, i, cb);
      }
    case FreeAll(l, frees) => FreeAllKeeps(s, l, frees);
    case Parse(l, parses) => ParseKeeps(s, l, parses);
  }

  lemma {:induction false} ExecAllHalted(s: State, ops: seq<Op>)
    requires s.halt != Running
    ensures ExecAll(s, ops) == s
  {
    if ops != [] { ExecAllHalted(Exec(s, ops[0]), ops[1..]); }
  }

  lemma {:induction false} ExecAllConcat(s: State, a: seq<Op>, b: seq<Op>)
    ensures ExecAll(s, a + b) == ExecAll(ExecAll(s, a), b)
    decreases a
  {
    if a == [] {
      assert a + b == b;
    } else {
      assert (a + b)[1..] == a[1..] + b;
      ExecAllConcat(Exec(s, a[0]), a[1..], b);
    }
  }

  lemma {:induction false} ExecAllKeeps(s: State, ops: seq<Op>)
    requires Inv(s) && s.halt == Running
    ensures Good(s, ExecAll(s, ops), LinksAll(ops))
    decreases ops, 0
  {
    hide Inv;
    if ops == [] {
      GuarSame(s, {}, s.parsing);
    } else {
      var s1 := Exec(s, ops[0]);
      ExecKeeps(s, ops[0]);
      if s1.halt != Running {
        ExecAllHalted(s1, ops[1..]);
      } else {
        ExecAllKeeps(s1, ops[1..]);
        var t := ExecAll(s1, ops[1..]);
        if t.halt == Running { GuarTrans(s, s1, t, Links(ops[0]), LinksAll(ops[1..]), s.parsing); }
      }
    }
  }

  /** Around a free callback: the slot is still there, and retiring it or taking FREEING
      back completes the guarantee. */
  lemma {:induction false} CallFreeKeeps(s: State, i: nat, cb: FreeCb)
    requires Inv(s) && s.halt == Running && i < |s.slots| && Active(s.slots[i]) && !s.slots[i].freeing
    ensures Good(s, CallFree(s, i, cb).1, LinksAll(cb.ops))
    decreases cb, 0
  {
    hide Inv;
    var s1 := MarkFreeing(s, i, true);
    PutInv(s, i, At(s, i).(freeing := true));
    if s.slots[i].typ == AUX_LINK_HEAD {
      GuarSame(s1, LinksAll(cb.ops), s.parsing);
      if s1.slots[i].auxList == [] {
        RetiredGuar(s, i, s1, LinksAll(cb.ops));
      } else {
        RefusedGuar(s, i, s1, LinksAll(cb.ops));
      }
    } else {
      var s2 := ExecAll(s1, cb.ops);
      ExecAllKeeps(s1, cb.ops);
      if s2.halt == Running {
        AfterFreeCb(s, i, s2, LinksAll(cb.ops));
        if cb.accept {
          RetiredGuar(s, i, s2, LinksAll(cb.ops));
        } else {
          RefusedGuar(s, i, s2, LinksAll(cb.ops));
        }
      }
    }
  }

  lemma {:induction false} FreeAllLoopKeeps(s: State, l: HLink, frees: seq<FreeCb>)
    requires Inv(s) && s.halt == Running && l in s.prim
    ensures Good(s, FreeAllLoop(s, l, frees).1, LinksFrees(frees))
    decreases frees, 0
  {
    hide Inv;
    var m := Members(s, l);
    if m == [] || At(s, m[0]).freeing || frees == [] {
      GuarSame(s, LinksFrees(frees), s.parsing);
    } else {
      MemberFacts(s, l, m[0]);
      CallFreeKeeps(s, m[0], frees[0]);
      var (ok, s1) := CallFree(s, m[0], frees[0]);
      if s1.halt == Running {
        GuarWeaken(s, s1, LinksAll(frees[0].ops), LinksFrees(frees), s.parsing);
        if ok {
          FreeAllLoopKeeps(s1, l, frees[1..]);
          var t := FreeAllLoop(s1, l, frees[1..]).1;
          if t.halt == Running {
            GuarTrans(s, s1, t, LinksAll(frees[0].ops), LinksFrees(frees[1..]), s.parsing);
          }
        }
      } else {
        assert FreeAllLoop(s1, l, frees[1..]).1 == s1;
      }
    }
  }

  lemma {:induction false} FreeAllKeeps(s: State, l: HLink, frees: seq<FreeCb>)
    requires Inv(s) && s.halt == Running
    ensures Good(s, FreeAllS(s, l, frees).1, LinksFrees(frees))
    decreases frees, 1
  {
    hide Inv;
    if l !in s.prim {
    } else if l in s.parsing || l in s.freeAll {
      GuarSame(s, LinksFrees(frees), s.parsing);
    } else {
      var s0 := s.(freeAll := s.freeAll + {l});
      BracketInv(s, l);
      FreeAllLoopKeeps(s0, l, frees);
      var s1 := FreeAllLoop(s0, l, frees).1;
      if s1.halt == Running { Rewrap(s, s0, s1, s1.(freeAll := s1.freeAll - {l}), LinksFrees(frees), s.parsing); }
    }
  }

  /** Setting a flag of a list header before a call and clearing it afterwards is not
      visible to the guarantee. */
  lemma {:induction false} Rewrap(s: State, s0: State, s1: State, t: State, links: set<HLink>, p: set<HLink>)
    requires Inv(s) && Inv(s1) && GuarOn(s0, s1, links, p)
    requires s0 == s.(parsing := s0.parsing, freeAll := s0.freeAll)
    requires t == s1.(parsing := s.parsing, freeAll := s.freeAll)
    ensures Inv(t) && GuarOn(s, t, links, p)
  {
    assert Flagged(s0) == Flagged(s);
    forall j: nat ensures SlotKept(At(s, j), At(t, j)) { assert SlotKept(At(s0, j), At(s1, j)); }
    forall l | l in p ensures ListKept(s, t, links, l) { assert ListKept(s0, s1, links, l); }
  }

  lemma {:induction false} LogVisitInv(s: State, l: HLink, idx: nat, cur: nat, m: seq<nat>)
    requires Inv(s)
    ensures Inv(Log(s, Visit(l, idx, |m|, cur, m)))
    ensures forall k :: Visits(Log(s, Visit(l, idx, |m|, cur, m)).trace, k)
                     == Visits(s.trace, k) + (if k == l then [Visit(l, idx, |m|, cur, m)] else [])
  {
    var t := Log(s, Visit(l, idx, |m|, cur, m));
    assert t.trace[..|s.trace|] == s.trace;
    forall i: nat ensures UsesAt(t.slots, t.trace, i) { assert UsesAt(s.slots, s.trace, i); }
  }

  lemma {:induction false} CallParseKeeps(s: State, l: HLink, cur: nat, idx: nat, cb: ParseCb)
    requires Inv(s) && s.halt == Running && l in s.prim && cur in Members(s, l)
    ensures var t := CallParse(s, l, cur, idx, cb);
      t.halt == Running ==> Inv(t) && GuarOn(s, t, LinksAll(cb.ops), s.parsing - {l})
    decreases cb, 0
  {
    hide Inv;
    var m := Members(s, l);
    var s1 := Log(MarkParsing(s, cur, true), Visit(l, idx, |m|, cur, m));
    MemberFacts(s, l, cur);
    PutInv(s, cur, At(s, cur).(parsing := true));
    LogVisitInv(MarkParsing(s, cur, true), l, idx, cur, m);
    ExecAllKeeps(s1, cb.ops);
    var s2 := ExecAll(s1, cb.ops);
    if s2.halt == Running { AfterParseCb(s, l, cur, idx, m, s2, LinksAll(cb.ops)); }
  }

  lemma {:induction false} ParseLoopKeeps(s: State, l: HLink, cur: nat, idx: nat, parses: seq<ParseCb>)
    requires Inv(s) && s.halt == Running && l in s.prim
    ensures var t := ParseLoop(s, l, cur, idx, parses);
      t.halt == Running ==> Inv(t) && GuarOn(s, t, LinksParses(parses), s.parsing - {l})
    decreases parses, 1
  {
    hide Inv;
    var p := s.parsing - {l};
    if cur == 0 || cur !in Members(s, l) || parses == [] {
      GuarSame(s, LinksParses(parses), p);
    } else {
      CallParseKeeps(s, l, cur, idx, parses[0]);
      var s1 := CallParse(s, l, cur, idx, parses[0]);
      if s1.halt == Running {
        match parses[0].result
        case HPNext =>
          var next := After(Members(s, l), cur);
          if |Members(s1, l)| >= |Members(s, l)| {
            ParseRestKeeps(s, s1, l, next, idx + 1, parses);
          } else {
            ParseRestKeeps(s, s1, l, next, idx, parses);
          }
        case HPRestart => ParseRestKeeps(s, s1, l, Nth(Members(s1, l), 0), 0, parses);
        case _ => GuarWeaken(s, s1, LinksAll(parses[0].ops), LinksParses(parses), p);
      }
    }
  }

  lemma {:induction false} ParseRestKeeps(s: State, s1: State, l: HLink, cur: nat, idx: nat, parses: seq<ParseCb>)
    requires parses != [] && l in s.prim
    requires Inv(s1) && s1.halt == Running && GuarOn(s, s1, LinksAll(parses[0].ops), s.parsing - {l})
    ensures var t := ParseLoop(s1, l, cur, idx, parses[1..]);
      t.halt == Running ==> Inv(t) && GuarOn(s, t, LinksParses(parses), s.parsing - {l})
    decreases parses, 0
  {
    hide Inv;
    ParseLoopKeeps(s1, l, cur, idx, parses[1..]);
    var t := ParseLoop(s1, l, cur, idx, parses[1..]);
    if t.halt == Running {
      GuarTrans(s, s1, t, LinksAll(parses[0].ops), LinksParses(parses[1..]), s.parsing - {l});
    }
  }

  lemma {:induction false} ParseKeeps(s: State, l: HLink, parses: seq<ParseCb>)
    requires Inv(s) && s.halt == Running
    ensures Good(s, ParseS(s, l, parses).1, LinksParses(parses))
    decreases parses, 2
  {
    hide Inv;
    if l !in s.prim {
    } else if l in s.parsing {
      GuarSame(s, LinksParses(parses), s.parsing);
    } else {
      var s0 := s.(parsing := s.parsing + {l});
      assert s0.parsing - {l} == s.parsing;
      BracketInv(s, l);
      ParseLoopKeeps(s0, l, Nth(Members(s0, l), 0), 0, parses);
      var s1 := ParseLoop(s0, l, Nth(Members(s0, l), 0), 0, parses);
      if s1.halt == Running {
        Rewrap(s, s0, s1, s1.(parsing := s1.parsing - {l}), LinksParses(parses), s.parsing);
      }
    }
  }
}
