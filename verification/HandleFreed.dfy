/** What becomes of the slots u_handle_free_all frees: they go to the free list and, unless a
    later callback allocates, they are still there when the call returns. */
module HandleFreed {
  import opened Seqs
  import opened HandleModel
  import opened HandleInv
  import opened HandleRuns
  import opened HandleTheorems
  import opened HandleFreeAll

  // ---------- scripts that allocate nothing ----------

  /** The call allocates nothing, at any depth, and frees nothing unless mayFree. */
  predicate Thrifty(op: Op, mayFree: bool)
    decreases op, 1
  {
    match op
    case Alloc(_, _, _) => false
    case AllocAuxHead(_, _) => false
    case Free(_, cb) => mayFree && ThriftyAll(cb.ops, mayFree)
    case FreeAll(_, frees) => mayFree && ThriftyFrees(frees, mayFree)
    case Parse(_, parses) => ThriftyParses(parses, mayFree)
    case _ => true
  }

  predicate ThriftyAll(ops: seq<Op>, mayFree: bool)
    decreases ops, 0
  {
    ops == [] || (Thrifty(ops[0], mayFree) && ThriftyAll(ops[1..], mayFree))
  }

  predicate ThriftyFrees(frees: seq<FreeCb>, mayFree: bool)
    decreases frees, 0
  {
    frees == [] || (ThriftyAll(frees[0].ops, mayFree) && ThriftyFrees(frees[1..], mayFree))
  }

  predicate ThriftyParses(parses: seq<ParseCb>, mayFree: bool)
    decreases parses, 0
  {
    parses == [] || (ThriftyAll(parses[0].ops, mayFree) && ThriftyParses(parses[1..], mayFree))
  }

  /** The slot is as much in use as before, or was freed once. */
  predicate FreedOnceAt(a: Slot, b: Slot) {
    b.gen == a.gen || (Active(a) && b.gen == a.gen + 1)
  }

  ghost predicate EndsWith(q: seq<nat>, r: seq<nat>) {
    |r| <= |q| && q[|q| - |r|..] == r
  }

  /** Slots were only freed: what was free is so still, behind what was freed since. */
  ghost predicate OnlyFreed(s: State, t: State, mayFree: bool) {
    && EndsWith(t.free, s.free) && (mayFree || t.free == s.free)
    && forall i: nat :: FreedOnceAt(At(s, i), At(t, i))
  }

  ghost predicate Thrift(s: State, t: State, mayFree: bool) {
    t.halt == Running ==> OnlyFreed(s, t, mayFree)
  }

  lemma {:induction false} OnlyFreedTrans(s: State, t: State, u: State, mayFree: bool)
    requires OnlyFreed(s, t, mayFree) && OnlyFreed(t, u, mayFree)
    ensures OnlyFreed(s, u, mayFree)
  {
    EndsWithTrans(u.free, t.free, s.free);
    hide EndsWith;
    forall i: nat ensures FreedOnceAt(At(s, i), At(u, i)) {
      assert FreedOnceAt(At(s, i), At(t, i)) && FreedOnceAt(At(t, i), At(u, i));
    }
  }

  lemma {:induction false} EndsWithTrans(a: seq<nat>, b: seq<nat>, c: seq<nat>)
    requires EndsWith(a, b) && EndsWith(b, c)
    ensures EndsWith(a, c)
  {
    var k := |b| - |c|;
    assert a == a[..|a| - |b|] + b && b == b[..k] + c;
    assert a == (a[..|a| - |b|] + b[..k]) + c;
  }

  /** Steps that change neither the free list nor a generation. */
  lemma {:induction false} OnlyFreedSame(s: State, t: State, mayFree: bool)
    requires t.free == s.free && forall i: nat :: At(t, i).gen == At(s, i).gen
    ensures OnlyFreed(s, t, mayFree)
  {}

  // ---------- every such script only frees ----------

  lemma {:induction false} RetireThrift(s: State, i: nat)
    requires Inv(s) && s.halt == Running && i < |s.slots| && Active(s.slots[i]) && s.slots[i].auxList == []
    ensures Thrift(s, Retire(s, i), true)
    ensures Retire(s, i).halt == Running ==> Retire(s, i).free == [i] + s.free
  {
    hide Inv;
    var t := Retire(s, i);
    if t.halt == Running {
      RetireSlots(s, i);
      hide Retire;
      forall j: nat ensures FreedOnceAt(At(s, j), At(t, j)) { if j == i { assert At(s, i) == s.slots[i]; } }
    }
  }

  lemma {:induction false} StepThrift(s: State, op: Op, mayFree: bool)
    requires Inv(s) && s.halt == Running && Thrifty(op, mayFree) && !op.Free? && !op.FreeAll? && !op.Parse?
    ensures OnlyFreed(s, Exec(s, op), mayFree)
  {
    hide Inv, Decode, OnlyFreed;
    if op.DelinkAux? && DelinkAuxS(s, op.h).0 == OK { UnhookFacts(s, Decode(s, op.h)); hide LeaveAux; }
    OnlyFreedSame(s, Exec(s, op), mayFree);
  }

  /** A script that allocates nothing, at any depth, only frees. */
  lemma {:induction false} ExecThrift(s: State, op: Op, mayFree: bool)
    requires Inv(s) && s.halt == Running && Thrifty(op, mayFree)
    ensures Thrift(s, Exec(s, op), mayFree)
    decreases op, 1
  {
    hide Inv, OnlyFreed;
    match op
    case Free(h, cb) =>
      var i := Decode(s, h);
      if i == 0 || At(s, i).freeing { OnlyFreedSame(s, s, mayFree); } else { CallFreeThrift(s, i, cb); }
    case FreeAll(l, frees) =>
      OnlyFreedSame(s, s, mayFree);
      if l in s.prim && l !in s.parsing && l !in s.freeAll {
        BracketInv(s, l);
        FreesThrift(s.(freeAll := s.freeAll + {l}), l, frees);
        ThriftWrap(s, s.parsing, s.freeAll + {l}, FreeAllLoop(s.(freeAll := s.freeAll + {l}), l, frees).1, mayFree);
      }
    case Parse(l, parses) =>
      OnlyFreedSame(s, s, mayFree);
      if l in s.prim && l !in s.parsing {
        var s0 := s.(parsing := s.parsing + {l});
        BracketInv(s, l);
        ParsesThrift(s0, l, Nth(Members(s0, l), 0), 0, parses, mayFree);
        ThriftWrap(s, s.parsing + {l}, s.freeAll, ParseLoop(s0, l, Nth(Members(s0, l), 0), 0, parses), mayFree);
      }
    case _ => StepThrift(s, op, mayFree);
  }

  /** Header flags play no part. */
  lemma {:induction false} ThriftWrap(s: State, p: set<HLink>, f: set<HLink>, t: State, mayFree: bool)
    requires Thrift(s.(parsing := p, freeAll := f), t, mayFree)
    ensures forall q, g :: Thrift(s, t.(parsing := q, freeAll := g), mayFree)
  {
    var s0 := s.(parsing := p, freeAll := f);
    forall q, g ensures Thrift(s, t.(parsing := q, freeAll := g), mayFree) {
      if t.halt == Running {
        forall i: nat ensures FreedOnceAt(At(s, i), At(t.(parsing := q, freeAll := g), i)) {
          assert FreedOnceAt(At(s0, i), At(t, i));
        }
      }
    }
  }

  lemma {:induction false} ExecAllThrift(s: State, ops: seq<Op>, mayFree: bool)
    requires Inv(s) && s.halt == Running && ThriftyAll(ops, mayFree)
    ensures Thrift(s, ExecAll(s, ops), mayFree)
    decreases ops, 0
  {
    hide Inv, OnlyFreed;
    if ops == [] {
      OnlyFreedSame(s, s, mayFree);
    } else {
      var s1 := Exec(s, ops[0]);
      ExecThrift(s, ops[0], mayFree);
      ExecKeeps(s, ops[0]);
      if s1.halt != Running {
        ExecAllHalted(s1, ops[1..]);
      } else {
        ExecAllThrift(s1, ops[1..], mayFree);
        if ExecAll(s1, ops[1..]).halt == Running { OnlyFreedTrans(s, s1, ExecAll(s1, ops[1..]), mayFree); }
      }
    }
  }

  lemma {:induction false} MarksSame(s: State, i: nat, b: bool)
    ensures OnlyFreed(s, MarkFreeing(s, i, b), false) && OnlyFreed(s, MarkParsing(s, i, b), false)
    ensures forall e: Event :: OnlyFreed(s, Log(MarkParsing(s, i, b), e), false)
  {
    hide OnlyFreed;
    OnlyFreedSame(s, MarkFreeing(s, i, b), false);
    OnlyFreedSame(s, MarkParsing(s, i, b), false);
    forall e: Event ensures OnlyFreed(s, Log(MarkParsing(s, i, b), e), false) {
      OnlyFreedSame(s, Log(MarkParsing(s, i, b), e), false);
    }
  }

  lemma {:induction false} Weaken(s: State, t: State)
    requires OnlyFreed(s, t, false)
    ensures OnlyFreed(s, t, true)
  {}

  lemma {:induction false} CallFreeThrift(s: State, i: nat, cb: FreeCb)
    requires Inv(s) && s.halt == Running && i < |s.slots| && Active(s.slots[i]) && !s.slots[i].freeing
    requires ThriftyAll(cb.ops, true)
    ensures Thrift(s, CallFree(s, i, cb).1, true)
    decreases cb, 0
  {
    hide Inv, OnlyFreed, Retire;
    var s1 := MarkFreeing(s, i, true);
    PutInv(s, i, At(s, i).(freeing := true));
    MarksSame(s, i, true);
    Weaken(s, s1);
    if s.slots[i].typ == AUX_LINK_HEAD {
      if s1.slots[i].auxList == [] { RetireThrift(s1, i); } else { UnmarkThrift(s1, i); }
      ThriftTrans(s, s1, CallFree(s, i, cb).1);
    } else {
      var s2 := ExecAll(s1, cb.ops);
      ExecAllThrift(s1, cb.ops, true);
      ExecAllKeeps(s1, cb.ops);
      if s2.halt == Running {
        AfterFreeCb(s, i, s2, LinksAll(cb.ops));
        OnlyFreedTrans(s, s1, s2, true);
        if cb.accept { RetireThrift(s2, i); } else { UnmarkThrift(s2, i); }
        ThriftTrans(s, s2, CallFree(s, i, cb).1);
      }
    }
  }

  lemma {:induction false} UnmarkThrift(s: State, i: nat)
    ensures Thrift(s, MarkFreeing(s, i, false), true)
  {
    hide OnlyFreed;
    MarksSame(s, i, false);
    Weaken(s, MarkFreeing(s, i, false));
  }

  lemma {:induction false} ThriftTrans(s: State, t: State, u: State)
    requires OnlyFreed(s, t, true) && Thrift(t, u, true)
    ensures Thrift(s, u, true)
  {
    hide OnlyFreed;
    if u.halt == Running { OnlyFreedTrans(s, t, u, true); }
  }

  lemma {:induction false} FreesThrift(s: State, l: HLink, frees: seq<FreeCb>)
    requires Inv(s) && s.halt == Running && l in s.prim && ThriftyFrees(frees, true)
    ensures Thrift(s, FreeAllLoop(s, l, frees).1, true)
    decreases frees, 0
  {
    hide Inv, OnlyFreed, CallFree;
    var m := Members(s, l);
    OnlyFreedSame(s, s, true);
    if m != [] && !At(s, m[0]).freeing && frees != [] {
      MemberFacts(s, l, m[0]);
      CallFreeThrift(s, m[0], frees[0]);
      CallFreeKeeps(s, m[0], frees[0]);
      var (ok, s1) := CallFree(s, m[0], frees[0]);
      if s1.halt == Running && ok {
        FreesThrift(s1, l, frees[1..]);
        ThriftTrans(s, s1, FreeAllLoop(s1, l, frees[1..]).1);
      }
    }
  }

  lemma {:induction false} ParsesThrift(s: State, l: HLink, cur: nat, idx: nat, parses: seq<ParseCb>, mayFree: bool)
    requires Inv(s) && s.halt == Running && l in s.prim && ThriftyParses(parses, mayFree)
    ensures Thrift(s, ParseLoop(s, l, cur, idx, parses), mayFree)
    decreases parses, 1
  {
    hide Inv, OnlyFreed, CallParse;
    OnlyFreedSame(s, s, mayFree);
    if cur != 0 && cur in Members(s, l) && parses != [] {
      var s1 := CallParse(s, l, cur, idx, parses[0]);
      CallParseThrift(s, l, cur, idx, parses[0], mayFree);
      CallParseKeeps(s, l, cur, idx, parses[0]);
      if s1.halt == Running {
        match parses[0].result
        case HPNext =>
          var idx' := if |Members(s1, l)| >= |Members(s, l)| then idx + 1 else idx;
          ParsesRestThrift(s, s1, l, After(Members(s, l), cur), idx', parses, mayFree);
        case HPRestart => ParsesRestThrift(s, s1, l, Nth(Members(s1, l), 0), 0, parses, mayFree);
        case _ =>
      }
    }
  }

  lemma {:induction false} ParsesRestThrift(s: State, s1: State, l: HLink, cur: nat, idx: nat,
                                            parses: seq<ParseCb>, mayFree: bool)
    requires Inv(s1) && s1.halt == Running && l in s1.prim && parses != []
    requires ThriftyParses(parses, mayFree) && OnlyFreed(s, s1, mayFree)
    ensures Thrift(s, ParseLoop(s1, l, cur, idx, parses[1..]), mayFree)
    decreases parses, 0
  {
    hide Inv, OnlyFreed, ParseLoop;
    ParsesThrift(s1, l, cur, idx, parses[1..], mayFree);
    var t := ParseLoop(s1, l, cur, idx, parses[1..]);
    if t.halt == Running { OnlyFreedTrans(s, s1, t, mayFree); }
  }

  lemma {:induction false} CallParseThrift(s: State, l: HLink, cur: nat, idx: nat, cb: ParseCb, mayFree: bool)
    requires Inv(s) && s.halt == Running && cur in Members(s, l) && ThriftyAll(cb.ops, mayFree)
    ensures Thrift(s, CallParse(s, l, cur, idx, cb), mayFree)
    decreases cb, 0
  {
    hide Inv, OnlyFreed;
    var m := Members(s, l);
    MemberFacts(s, l, cur);
    PutInv(s, cur, At(s, cur).(parsing := true));
    LogVisitInv(MarkParsing(s, cur, true), l, idx, cur, m);
    var s1 := Log(MarkParsing(s, cur, true), Visit(l, idx, |m|, cur, m));
    ExecAllThrift(s1, cb.ops, mayFree);
    var s2 := ExecAll(s1, cb.ops);
    MarksSame(s, cur, true);
    MarksSame(s2, cur, false);
    if s2.halt == Running {
      MayFree(s, s1, mayFree);
      MayFree(s2, MarkParsing(s2, cur, false), mayFree);
      OnlyFreedTrans(s, s1, s2, mayFree);
      OnlyFreedTrans(s, s2, MarkParsing(s2, cur, false), mayFree);
    }
  }

  lemma {:induction false} MayFree(s: State, t: State, mayFree: bool)
    requires OnlyFreed(s, t, false)
    ensures OnlyFreed(s, t, mayFree)
  {}

  // ---------- u_handle_free_all ----------

  /** Slot i, active before, was freed once and is free. */
  ghost predicate FreedAt(s: State, t: State, i: nat) {
    !Active(At(t, i)) && i in t.free && At(t, i).gen == At(s, i).gen + 1 && i !in s.free
  }

  /** With well-behaved callbacks that allocate nothing, at any depth, every freed member is
      inactive and on the free list when u_handle_free_all returns, and the free list has
      grown by at least their number. */
  lemma {:induction false} FreedStayFree(s: State, l: HLink, frees: seq<FreeCb>)
    requires Inv(s) && s.halt == Running && l in s.prim && l !in s.parsing && l !in s.freeAll
    requires AllBehave(s, l, Members(s, l), frees)
    requires ThriftyFrees(frees, true)
    ensures var m := Members(s, l); var t := FreeAllS(s, l, frees).1; var k := Accepted(s, m, frees);
      t.halt == Running ==>
      && k <= |m| && (forall j :: 0 <= j < k ==> FreedAt(s, t, m[j]))
      && |t.free| >= |s.free| + k && EndsWith(t.free, s.free)
  {
    hide Inv, HandleOf, WellBehaved, FreeAllLoop, Accepted, GuarOn, FreeAllS, OnlyFreed;
    FreeAllEffect(s, l, frees);
    ExecThrift(s, FreeAll(l, frees), true);
    var m, t, k := Members(s, l), FreeAllS(s, l, frees).1, Accepted(s, Members(s, l), frees);
    assert Exec(s, FreeAll(l, frees)) == t;
    if t.halt == Running {
      forall j | 0 <= j < k ensures FreedAt(s, t, m[j]) {
        MemberFacts(s, l, m[j]);
        FreedOnce(s, t, m[j]);
      }
      if m != [] { MemberFacts(s, l, m[0]); }
      Lengthened(s, t, m[..k]);
    }
  }

  lemma {:induction false} FreedOnce(s: State, t: State, i: nat)
    requires Inv(s) && Inv(t) && OnlyFreed(s, t, true) && 0 < i < |s.slots| && Active(s.slots[i])
    requires At(t, i).gen > At(s, i).gen
    ensures FreedAt(s, t, i)
  {
    assert FreedOnceAt(At(s, i), At(t, i));
  }

  /** Distinct slots that were not free and are now lengthen the free list. */
  lemma {:induction false} Lengthened(s: State, t: State, q: seq<nat>)
    requires OnlyFreed(s, t, true) && NoDup(q) && forall j :: 0 <= j < |q| ==> FreedAt(s, t, q[j])
    ensures |t.free| >= |s.free| + |q| && EndsWith(t.free, s.free)
  {
    var more := t.free[..|t.free| - |s.free|];
    assert t.free == more + s.free;
    forall x | x in q ensures x in more {
      var j := Position(q, x);
      assert FreedAt(s, t, q[j]);
    }
    DistinctFit(q, more);
  }

  lemma {:induction false} DistinctFit(q: seq<nat>, r: seq<nat>)
    requires NoDup(q) && forall x :: x in q ==> x in r
    ensures |q| <= |r|
  {
    if q != [] {
      var k := Position(r, q[0]);
      var r' := r[..k] + r[k + 1..];
      forall x | x in q[1..] ensures x in r' {
        assert x in q && x != q[0];
        var j := Position(r, x);
        assert x == if j < k then r'[j] else r'[j - 1];
      }
      DistinctFit(q[1..], r');
    }
  }

  /** With any well-behaved callbacks: a freed member is free when the call returns exactly if its
      slot was freed once more often than it was allocated since. */
  lemma {:induction false} FreeExactly(s: State, l: HLink, frees: seq<FreeCb>, j: nat)
    requires Inv(s) && s.halt == Running && l in s.prim && l !in s.parsing && l !in s.freeAll
    requires AllBehave(s, l, Members(s, l), frees) && j < Accepted(s, Members(s, l), frees)
    ensures var m, t := Members(s, l), FreeAllS(s, l, frees).1; t.halt == Running ==>
      && j < |m| && (m[j] in t.free <==> UsedBetween(s, t, m[j]) % 2 == 1)
  {
    hide Inv, FreeAllS, Accepted, AllBehave, Uses;
    var m, t := Members(s, l), FreeAllS(s, l, frees).1;
    FreeAllEffect(s, l, frees);
    if t.halt == Running {
      assert m[j] in m;
      MemberFacts(s, l, m[j]);
      GenCounts(s, m[j]);
      GenCounts(t, m[j]);
      InactiveIsFree(t, m[j]);
      Grown(s, l, frees);
    }
  }

  lemma {:induction false} InactiveIsFree(s: State, i: nat)
    requires Inv(s)
    ensures 0 < i < |s.slots| ==> (i in s.free <==> !Active(At(s, i)))
  {}

  lemma {:induction false} Grown(s: State, l: HLink, frees: seq<FreeCb>)
    requires Inv(s) && s.halt == Running
    ensures FreeAllS(s, l, frees).1.halt == Running ==> |s.slots| <= |FreeAllS(s, l, frees).1.slots|
  {
    hide Inv, FreeAllS;
    FreeAllKeeps(s, l, frees);
  }

  function Reversed(q: seq<nat>): seq<nat> {
    if q == [] then [] else Reversed(q[1..]) + [q[0]]
  }

  /** No callback allocates or frees anything. */
  ghost predicate NoneFree(frees: seq<FreeCb>) {
    forall k :: 0 <= k < |frees| ==> ThriftyAll(frees[k].ops, false)
  }

  /** One freeing with such a callback puts the slot in front of the free list if the callback
      accepts, and leaves the free list alone if it refuses. */
  lemma {:induction false} RoundFree(s: State, i: nat, cb: FreeCb)
    requires Inv(s) && s.halt == Running && 0 < i < |s.slots| && Active(s.slots[i]) && !s.slots[i].freeing
    requires s.slots[i].typ >= RES_BY_HANDLE_LIB && ThriftyAll(cb.ops, false)
    ensures var t := CallFree(s, i, cb).1; t.halt == Running ==> t.free == (if cb.accept then [i] + s.free else s.free)
  {
    hide Inv, OnlyFreed, Retire, ExecAll;
    var s1 := MarkFreeing(s, i, true);
    PutInv(s, i, At(s, i).(freeing := true));
    var s2 := ExecAll(s1, cb.ops);
    ExecAllThrift(s1, cb.ops, false);
    ExecAllKeeps(s1, cb.ops);
    if s2.halt == Running {
      AfterFreeCb(s, i, s2, LinksAll(cb.ops));
      assert s2.free == s1.free by { SameFree(s1, s2); }
      if cb.accept { RetireThrift(s2, i); }
    }
  }

  lemma {:induction false} SameFree(s: State, t: State)
    requires OnlyFreed(s, t, false)
    ensures t.free == s.free
  {}

  lemma {:induction false} FreeLoopExact(s: State, l: HLink, frees: seq<FreeCb>)
    requires Inv(s) && s.halt == Running && l in s.prim && l !in s.parsing && NoneFree(frees)
    requires AllBehave(s, l, Members(s, l), frees)
    ensures var m := Members(s, l); var t := FreeAllLoop(s, l, frees).1; var k := Accepted(s, m, frees);
      t.halt == Running ==> k <= |m| && t.free == Reversed(m[..k]) + s.free
    decreases frees
  {
    hide Inv, MakeHandle, CallFree, WellBehaved, AllBehave, GuarOn, ThriftyAll;
    var m := Members(s, l);
    if m != [] && frees != [] && !At(s, m[0]).freeing {
      assert m[0] in m;
      MemberFacts(s, l, m[0]);
      FirstBehaves(s, l, m, frees);
      RoundEffect(s, l, frees[0]);
      RoundFree(s, m[0], frees[0]);
      var (ok, s1) := CallFree(s, m[0], frees[0]);
      if s1.halt == Running && ok {
        RestBehave(s, s1, l, m, frees);
        FreeLoopExact(s1, l, frees[1..]);
        AcceptedSame(s, s1, m[1..], frees[1..]);
        var k := Accepted(s1, m[1..], frees[1..]);
        assert m[..k + 1][1..] == m[1..][..k] && m[..k + 1][0] == m[0];
        assert Reversed(m[1..][..k]) + ([m[0]] + s.free) == Reversed(m[..k + 1]) + s.free;
      }
    }
  }

  /** With callbacks that delink their own handle and neither allocate nor free, the freed
      members stand in front of the free list, the last freed first, and nothing else
      happened to it. */
  lemma {:induction false} FreeListExact(s: State, l: HLink, frees: seq<FreeCb>)
    requires Inv(s) && s.halt == Running && l in s.prim && l !in s.parsing && l !in s.freeAll && NoneFree(frees)
    requires AllBehave(s, l, Members(s, l), frees)
    ensures var m := Members(s, l); var t := FreeAllS(s, l, frees).1; var k := Accepted(s, m, frees);
      t.halt == Running ==> k <= |m| && t.free == Reversed(m[..k]) + s.free && |t.free| == |s.free| + k
  {
    hide Inv, HandleOf, WellBehaved, FreeAllLoop, Accepted, NoneFree;
    var s0 := s.(freeAll := s.freeAll + {l});
    assert AllBehave(s0, l, Members(s0, l), frees);
    BracketInv(s, l);
    FreeLoopExact(s0, l, frees);
    AcceptedSame(s, s0, Members(s, l), frees);
    if Accepted(s, Members(s, l), frees) <= |Members(s, l)| {
      ReversedLength(Members(s, l)[..Accepted(s, Members(s, l), frees)]);
    }
  }

  lemma {:induction false} ReversedLength(q: seq<nat>)
    ensures |Reversed(q)| == |q|
  {
    if q != [] { ReversedLength(q[1..]); }
  }
}
