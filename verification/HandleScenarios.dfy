/** Runs from initialisation that show where handle_parse and u_handle_free_all do not do what
    a client might expect of them. */
module HandleScenarios {
  import opened Seqs
  import opened HandleModel
  import opened HandleInv
  import opened HandleRuns
  import opened HandleTheorems
  import opened HandleParse
  import opened HandleFreeAll
  import opened HandleFreed
  import opened HandleAnswers

  // ---------- two lists and two handles ----------

  /** Nothing is in progress and there is room to allocate. */
  ghost predicate Still(s: State) {
    Inv(s) && s.halt == Running && s.parsing == {} && s.freeAll == {} && CanAlloc(s)
  }

  /** An active slot of a client type that is on no list and not being freed or parsed. */
  predicate Loose(s: State, i: nat) {
    At(s, i) == Slot(At(s, i).gen, RES_BY_HANDLE_LIB, 0, 0, false, false, None, 0, [])
    && Active(At(s, i)) && 0 < i < |s.slots|
  }

  /** Room for k allocations. */
  predicate Room(s: State, k: nat) {
    |s.free| > GROW_AT + k || Total(s) + k * GROW_BY <= MAX_INDEX
  }

  lemma {:induction false} AllocLoose(s: State, k: nat) returns (t: State, i: nat)
    requires Still(s) && Room(s, k + 1) && k > 0
    ensures t == Exec(s, Alloc(RES_BY_HANDLE_LIB, 0, 0)) && Still(t) && Room(t, k)
    ensures Loose(t, i) && t.prim == s.prim && !Active(At(s, i)) && forall j: nat :: j != i ==> At(t, j) == At(s, j)
  {
    hide Inv;
    FreeHead(s);
    t, i := Exec(s, Alloc(RES_BY_HANDLE_LIB, 0, 0)), s.free[0];
    AllocInv(s, RES_BY_HANDLE_LIB, 0, 0);
    AllocFacts(s, RES_BY_HANDLE_LIB, 0, 0);
    AllocGrowth(s, RES_BY_HANDLE_LIB, 0, 0);
    hide AllocS;
  }


  lemma {:induction false} InitLists(n: nat, a: HLink, b: HLink) returns (s: State)
    requires 0 < n < MAX_INDEX && a != b
    ensures s == ExecAll(Init(n), [LinkInit(a), LinkInit(b)])
    ensures Still(s) && s.prim == map[a := [], b := []] && Room(s, 3)
  {
    var s0 := Init(n);
    InitInv(n);
    DownMembers(0, n);
    hide Inv;
    LinkInitInv(s0, a);
    var s1 := LinkInitS(s0, a);
    LinkInitInv(s1, b);
    s := LinkInitS(s1, b);
    ExecTwo(s0, LinkInit(a), LinkInit(b));
  }

  /** Every initialised library can be brought to hold two empty lists and two loose slots. */
  lemma {:induction false} Setup(n: nat, a: HLink, b: HLink) returns (ops: seq<Op>, s: State, x: nat, y: nat)
    requires 0 < n < MAX_INDEX && a != b
    ensures s == ExecAll(Init(n), ops) && Still(s) && s.prim == map[a := [], b := []]
    ensures Loose(s, x) && Loose(s, y) && x != y
  {
    var init, alloc := [LinkInit(a), LinkInit(b)], Alloc(RES_BY_HANDLE_LIB, 0, 0);
    var s0 := InitLists(n, a, b);
    var s1, s2;
    s1, x := AllocLoose(s0, 2);
    s2, y := AllocLoose(s1, 1);
    s := s2;
    ops := init + [alloc, alloc];
    ExecAllConcat(Init(n), init, [alloc, alloc]);
    ExecTwo(s0, alloc, alloc);
  }

  /** Linking a loose slot. */
  lemma {:induction false} LinkWorks(s: State, l: HLink, i: nat)
    requires Inv(s) && s.halt == Running && l in s.prim
    requires 0 < i < |s.slots| && Active(At(s, i)) && At(s, i).typ >= RES_BY_HANDLE_LIB && At(s, i).owner.None?
    ensures var t := LinkS(s, l, MakeHandle(s, i)).1;
      && t == Linked(s, l, i) && Inv(t) && Members(t, l) == Members(s, l) + [i]
  {
    hide Inv, MakeHandle, Decode;
    HandleDecodes(s, i);
    LinkInv(s, l, MakeHandle(s, i));
  }

  // ---------- nested parses ----------

  /** The callback that moves slot x from list a to list b and parses b there. */
  function MoveAndParse(s: State, a: HLink, b: HLink, x: nat, inner: ParseCb): ParseCb {
    var h := MakeHandle(s, x);
    ParseCb([Delink(a, h), Link(b, h), Parse(b, [inner])], HPNext)
  }

  /** Delinking x from a and linking it to b, from a parse callback for x. */
  lemma {:induction false} MoveWorks(s: State, a: HLink, b: HLink, x: nat)
    requires Inv(s) && s.halt == Running && a != b && b in s.prim && x in Members(s, a) && At(s, x).parsing
    ensures var h := MakeHandle(s, x); var t := Exec(Exec(s, Delink(a, h)), Link(b, h));
      && Inv(t) && t.halt == Running && t.parsing == s.parsing && b in t.prim
      && Members(t, b) == Members(s, b) + [x] && At(t, x).parsing
  {
    hide Inv, MakeHandle, Decode;
    MemberFacts(s, a, x);
    HandleDecodes(s, x);
    DelinkWorks(s, a, x);
    DelinkIs(s, a, x);
    var t := Delinked(s, a, x);
    SameGenSameHandle(s, t, x);
    LinkWorks(t, b, x);
  }

  /** With x alone on a and y alone on b: from the callback of x, a parse of b reaches the
      callback of y with x behind y on the list and both flagged. If that parse stops the
      library, so does the parse of a. */
  lemma {:induction false} NestedStart(s: State, a: HLink, b: HLink, x: nat, y: nat) returns (v: State)
    requires Inv(s) && s.halt == Running && s.parsing == {} && a != b
    requires Members(s, a) == [x] && Members(s, b) == [y]
    ensures Inv(v) && v.halt == Running && b in v.parsing && Members(v, b) == [y, x] && x != y && At(v, x).parsing
    ensures forall inner :: ParseLoop(v, b, y, 0, [inner]).halt != Running ==>
      Exec(s, Parse(a, [MoveAndParse(s, a, b, x, inner)])).halt == ParseLoop(v, b, y, 0, [inner]).halt
  {
    hide Inv, MakeHandle, ParseLoop, Visits, Exec, MoveAndParse;
    var s1 := InCallback(s, a, x);
    assert x in Members(s, a) && y in Members(s, b);
    CallbackReached(s, a, b, x, y);
    MemberFacts(s, a, x);
    MemberFacts(s, b, y);
    MoveWorks(s1, a, b, x);
    v := InnerParse(s, a, b, x);
    BracketInv(Moved(s, a, b, x), b);
    forall inner | ParseLoop(v, b, y, 0, [inner]).halt != Running
      ensures Exec(s, Parse(a, [MoveAndParse(s, a, b, x, inner)])).halt == ParseLoop(v, b, y, 0, [inner]).halt
    {
      InnerStops(s, a, b, x, y, inner);
    }
  }

  /** The state in which the callback for x, the only member of a, starts; the one in which it
      has moved x to b; and the one in which its parse of b makes its first callback. */
  function InCallback(s: State, a: HLink, x: nat): State {
    Log(MarkParsing(s.(parsing := s.parsing + {a}), x, true), Visit(a, 0, 1, x, [x]))
  }

  function Moved(s: State, a: HLink, b: HLink, x: nat): State {
    Exec(Exec(InCallback(s, a, x), Delink(a, MakeHandle(s, x))), Link(b, MakeHandle(s, x)))
  }

  function InnerParse(s: State, a: HLink, b: HLink, x: nat): State {
    var t := Moved(s, a, b, x);
    t.(parsing := t.parsing + {b})
  }

  lemma {:induction false} CallbackReached(s: State, a: HLink, b: HLink, x: nat, y: nat)
    requires Inv(s) && s.halt == Running && s.parsing == {} && a != b
    requires Members(s, a) == [x] && Members(s, b) == [y]
    ensures var t := InCallback(s, a, x);
      && Inv(t) && t.halt == Running && t.parsing == {a} && Members(t, a) == [x] && Members(t, b) == [y] && b in t.prim
      && At(t, x).parsing && MakeHandle(t, x) == MakeHandle(s, x)
  {
    hide Inv, MakeHandle, Visits;
    assert x in Members(s, a) && y in Members(s, b);
    MemberFacts(s, a, x);
    MemberFacts(s, b, y);
    BracketInv(s, a);
    CallbackStart(s.(parsing := s.parsing + {a}), a, x, 0);
    SameGenSameHandle(s, InCallback(s, a, x), x);
  }

  /** If the inner parse stops the library, so does the outer one. */
  lemma {:induction false} InnerStops(s: State, a: HLink, b: HLink, x: nat, y: nat, inner: ParseCb)
    requires s.halt == Running && s.parsing == {} && a in s.prim && Members(s, a) == [x] && x != 0
    requires var t := Moved(s, a, b, x);
      t.halt == Running && b in t.prim && b !in t.parsing && Nth(Members(t, b), 0) == y
    requires ParseLoop(InnerParse(s, a, b, x), b, y, 0, [inner]).halt != Running
    ensures Exec(s, Parse(a, [MoveAndParse(s, a, b, x, inner)])).halt
         == ParseLoop(InnerParse(s, a, b, x), b, y, 0, [inner]).halt
  {
    hide ParseLoop, MakeHandle, LinkS, DelinkS;
    var h, cb := MakeHandle(s, x), MoveAndParse(s, a, b, x, inner);
    ExecThree(InCallback(s, a, x), Delink(a, h), Link(b, h), Parse(b, [inner]));
    OuterStops(s.(parsing := s.parsing + {a}), a, x, cb);
  }

  lemma {:induction false} ExecThree(s: State, a: Op, b: Op, c: Op)
    ensures ExecAll(s, [a, b, c]) == Exec(Exec(Exec(s, a), b), c)
  {
    ExecTwo(Exec(s, a), b, c);
    assert [a, b, c][1..] == [b, c];
  }

  /** A parse whose first callback stops the library stops the same way. */
  lemma {:induction false} OuterStops(s: State, l: HLink, cur: nat, cb: ParseCb)
    requires s.halt == Running && cur in Members(s, l) && cur != 0
    ensures CallParse(s, l, cur, 0, cb).halt != Running ==> ParseLoop(s, l, cur, 0, [cb]) == CallParse(s, l, cur, 0, cb)
  {}

  /** With x on list a and y on list b. */
  lemma {:induction false} OnTwoLists(n: nat, a: HLink, b: HLink) returns (ops: seq<Op>, s: State, x: nat, y: nat)
    requires 0 < n < MAX_INDEX && a != b
    ensures s == ExecAll(Init(n), ops) && Inv(s) && s.halt == Running && s.parsing == {}
    ensures Members(s, a) == [x] && Members(s, b) == [y]
  {
    hide Inv, MakeHandle, CanAlloc;
    var pre, s0;
    pre, s0, x, y := Setup(n, a, b);
    var linkX, linkY := Link(a, MakeHandle(s0, x)), Link(b, MakeHandle(s0, y));
    LinkWorks(s0, a, x);
    var s1 := Exec(s0, linkX);
    SameGenSameHandle(s0, s1, y);
    LinkWorks(s1, b, y);
    s := Exec(s1, linkY);
    ops := pre + [linkX, linkY];
    ExecAllConcat(Init(n), pre, [linkX, linkY]);
    ExecTwo(s0, linkX, linkY);
  }

  /** handle_parse aborts on a run from initialisation: list a is parsed; the callback moves
      its slot to list b and parses b; the callback there delinks both members of b. */
  lemma {:induction false} NestedParseAborts(n: nat, a: HLink, b: HLink) returns (ops: seq<Op>)
    requires 0 < n < MAX_INDEX && a != b
    ensures ExecAll(Init(n), ops).halt == ParseOp
  {
    hide Inv, MakeHandle, CallParse, MoveAndParse;
    var pre, s, x, y := OnTwoLists(n, a, b);
    var v := NestedStart(s, a, b, x, y);
    var inner := DelinkTwo(v, b, y, x);
    assert y in Members(v, b);
    NoZeroMember(v, b);
    DelinkTwoDropsTwo(v, b, y, 0, x);
    TwoGone(v, b, y, x, inner);
    var op := Parse(a, [MoveAndParse(s, a, b, x, inner)]);
    ops := pre + [op];
    hide Exec;
    ExecAllConcat(Init(n), pre, [op]);
    ExecOne(s, op);
  }

  lemma {:induction false} TwoGone(s: State, l: HLink, cur: nat, x: nat, cb: ParseCb)
    requires s.halt == Running && Members(s, l) == [cur, x] && cur != 0 && cb.result == HPNext
    requires CallParse(s, l, cur, 0, cb).halt == Running && |Members(CallParse(s, l, cur, 0, cb), l)| + 2 <= 2
    ensures ParseLoop(s, l, cur, 0, [cb]).halt == ParseOp
  {
    hide CallParse;
  }

  /** The same run with a callback that delinks only x, the saved next slot: nothing is
      noticed, and the loop goes on with a slot that is not on the list. */
  lemma {:induction false} NestedParseLoses(n: nat, a: HLink, b: HLink) returns (ops: seq<Op>)
    requires 0 < n < MAX_INDEX && a != b
    ensures ExecAll(Init(n), ops).halt == LostCursor
  {
    hide Inv, MakeHandle, CallParse, DelinkOne, MoveAndParse;
    var pre, s, x, y := OnTwoLists(n, a, b);
    var v := NestedStart(s, a, b, x, y);
    var inner := DelinkOne(v, b, x);
    assert x in Members(v, b);
    MemberFacts(v, b, x);
    NextDelinked(v, b, y, 0);
    var op := Parse(a, [MoveAndParse(s, a, b, x, inner)]);
    ops := pre + [op];
    hide Exec;
    ExecAllConcat(Init(n), pre, [op]);
    ExecOne(s, op);
  }

  // ---------- a freed slot taken back ----------

  /** The callbacks of a list of two: the first delinks its handle, the second delinks its own
      and allocates. */
  function TakingBack(s: State, l: HLink, x: nat, y: nat): seq<FreeCb> {
    [FreeCb([Delink(l, MakeHandle(s, x))], true),
     FreeCb([Delink(l, MakeHandle(s, y)), Alloc(RES_BY_HANDLE_LIB, 0, 0)], true)]
  }

  lemma {:induction false} DelinkBehaves(l: HLink, h: nat, more: seq<Op>)
    requires l !in TouchesAll(more)
    ensures WellBehaved(FreeCb([Delink(l, h)] + more, true), l, h)
  {
    var ops := [Delink(l, h)] + more;
    assert ops[..0] == [] && ops[1..] == more;
    assert DelinksAt(ops, l, h, 0);
  }

  /** The first round: x is off the list and in front of the free list. */
  lemma {:induction false} FirstFreed(s: State, l: HLink, x: nat, y: nat) returns (t: State)
    requires Inv(s) && s.halt == Running && l !in s.parsing && Members(s, l) == [x, y]
    requires !At(s, x).freeing && !At(s, y).freeing
    ensures (true, t) == CallFree(s, x, FreeCb([Delink(l, MakeHandle(s, x))], true))
    ensures Inv(t) && t.halt == Running && t.parsing == s.parsing && Members(t, l) == [y] && t.free == [x] + s.free
    ensures At(t, x).gen == At(s, x).gen + 1 && At(t, y).gen == At(s, y).gen
    ensures !At(t, y).freeing && |t.slots| == |s.slots|
  {
    hide Inv, MakeHandle, Retire, WellBehaved, DelinkS;
    assert x in Members(s, l) && y in Members(s, l);
    var h := MakeHandle(s, x);
    var cb := FreeCb([Delink(l, h)], true);
    assert [Delink(l, h)] + [] == [Delink(l, h)];
    DelinkBehaves(l, h, []);
    MemberFacts(s, l, x);
    DelinkThenRetire(s, l, x);
    RoundEffect(s, l, cb);
    RoundFree(s, x, cb);
    t := CallFree(s, x, cb).1;
    assert y in Members(t, l);
  }

  lemma {:induction false} DelinkThenRetire(s: State, l: HLink, x: nat)
    requires Inv(s) && s.halt == Running && l !in s.parsing && x in Members(s, l) && !At(s, x).freeing
    ensures var t := CallFree(s, x, FreeCb([Delink(l, MakeHandle(s, x))], true)).1;
      t.halt == Running && |t.slots| == |s.slots|
  {
    hide Inv, MakeHandle, DelinkS;
    var s1 := MarkFreeing(s, x, true);
    MemberFacts(s, l, x);
    PutInv(s, x, At(s, x).(freeing := true));
    SameGenSameHandle(s, s1, x);
    DelinkWorks(s1, l, x);
    var h := MakeHandle(s, x);
    ExecOne(s1, Delink(l, h));
    var s2 := DelinkS(s1, l, h).1;
    DelinkIs(s1, l, x);
    RetireFacts(s2, x);
    RetireSlots(s2, x);
  }

  /** The second round: the allocation takes the first free slot. */
  lemma {:induction false} SecondFreed(s: State, l: HLink, y: nat, x: nat) returns (t: State)
    requires Inv(s) && s.halt == Running && l !in s.parsing && Members(s, l) == [y] && !At(s, y).freeing
    requires CanAlloc(s) && s.free[0] == x
    ensures (true, t) == CallFree(s, y, TakingBack(s, l, x, y)[1])
    ensures Inv(t) && t.halt == Running && Members(t, l) == []
    ensures At(t, x).gen == At(s, x).gen + 1 && !Active(At(s, x))
  {
    hide Inv, MakeHandle, Retire, Without;
    var h := MakeHandle(s, y);
    var cb := FreeCb([Delink(l, h), Alloc(RES_BY_HANDLE_LIB, 0, 0)], true);
    var s1 := MarkFreeing(s, y, true);
    assert y in Members(s, l);
    MemberFacts(s, l, y);
    PutInv(s, y, At(s, y).(freeing := true));
    SameGenSameHandle(s, s1, y);
    CallFreeKeeps(s, y, cb);
    var s3 := DelinkAndAlloc(s1, l, y);
    t := CallFree(s, y, cb).1;
    RetireFacts(s3, y);
    RetireSlots(s3, y);
  }

  /** Delinking y, the only member, and allocating: the first free slot is in use again. */
  lemma {:induction false} DelinkAndAlloc(s: State, l: HLink, y: nat) returns (t: State)
    requires Inv(s) && s.halt == Running && l !in s.parsing && Members(s, l) == [y] && CanAlloc(s)
    ensures t == ExecAll(s, [Delink(l, MakeHandle(s, y)), Alloc(RES_BY_HANDLE_LIB, 0, 0)])
    ensures Inv(t) && t.halt == Running && l in t.prim && Members(t, l) == [] && s.free != []
    ensures y < |t.slots| && At(t, y) == At(s, y).(owner := None) && y != s.free[0]
    ensures At(t, s.free[0]).gen == At(s, s.free[0]).gen + 1 && !Active(At(s, s.free[0]))
  {
    hide Inv, MakeHandle, Decode;
    assert y in Members(s, l);
    var h, alloc := MakeHandle(s, y), Alloc(RES_BY_HANDLE_LIB, 0, 0);
    MemberFacts(s, l, y);
    FreeHead(s);
    DelinkWorks(s, l, y);
    DelinkIs(s, l, y);
    var s1 := DelinkS(s, l, h).1;
    hide DelinkS;
    AllocInv(s1, RES_BY_HANDLE_LIB, 0, 0);
    AllocFacts(s1, RES_BY_HANDLE_LIB, 0, 0);
    t := AllocS(s1, RES_BY_HANDLE_LIB, 0, 0).2;
    ExecTwo(s, Delink(l, h), alloc);
    assert Without([y], {y}) == [] by { WithoutOne([y], 0); }
  }

  lemma {:induction false} DelinkIs(s: State, l: HLink, i: nat)
    requires Inv(s) && s.halt == Running && i in Members(s, l)
    requires l in s.parsing ==> At(s, i).parsing
    ensures DelinkS(s, l, MakeHandle(s, i)).1 == Delinked(s, l, i)
  {
    hide Inv, MakeHandle, Decode;
    MemberFacts(s, l, i);
    HandleDecodes(s, i);
  }

  /** u_handle_free_all on a list of x and y with these callbacks succeeds and empties the
      list, but the slot of x, which it freed, is in use again. */
  lemma {:induction false} SlotTakenBack(s: State, l: HLink, x: nat, y: nat)
    requires Inv(s) && s.halt == Running && l !in s.parsing && l !in s.freeAll && Members(s, l) == [x, y]
    requires !At(s, x).freeing && !At(s, y).freeing && CanAlloc(s)
    ensures var (c, t) := FreeAllS(s, l, TakingBack(s, l, x, y));
      && c == OK && t.halt == Running && Inv(t) && Members(t, l) == []
      && At(t, x).gen == At(s, x).gen + 2 && Active(At(t, x)) && x !in t.free
  {
    hide Inv, MakeHandle, CallFree;
    var s0 := s.(freeAll := s.freeAll + {l});
    assert x in Members(s, l);
    MemberFacts(s, l, x);
    BracketInv(s, l);
    SameGenSameHandle(s, s0, x);
    SameGenSameHandle(s, s0, y);
    var frees := TakingBack(s, l, x, y);
    var s1 := FirstFreed(s0, l, x, y);
    SameGenSameHandle(s, s1, y);
    var s2 := SecondFreed(s1, l, y, x);
    assert frees[1..] == [frees[1]] && frees[1] == TakingBack(s1, l, x, y)[1];
    assert FreeAllLoop(s1, l, frees[1..]) == (true, s2);
    assert FreeAllLoop(s0, l, frees) == (true, s2);
    FreeAllKeeps(s, l, frees);
    StillInUse(FreeAllS(s, l, frees).1, x);
  }

  lemma {:induction false} StillInUse(s: State, i: nat)
    requires Inv(s)
    ensures Active(At(s, i)) ==> i !in s.free
  {}

  /** Such a run from initialisation. */
  lemma {:induction false} FreedSlotInUse(n: nat, a: HLink, b: HLink)
    returns (ops: seq<Op>, s: State, x: nat, frees: seq<FreeCb>)
    requires 0 < n < MAX_INDEX && a != b
    ensures s == ExecAll(Init(n), ops) && s.halt == Running && a in s.prim && x in Members(s, a)
    ensures var (c, t) := FreeAllS(s, a, frees); c == OK && Active(At(t, x)) && x !in t.free
  {
    hide Inv, MakeHandle, FreeAllS;
    var pre, s0, y;
    pre, s0, x, y := Setup(n, a, b);
    var linkX, linkY := Link(a, MakeHandle(s0, x)), Link(a, MakeHandle(s0, y));
    LinkWorks(s0, a, x);
    var s1 := Exec(s0, linkX);
    SameGenSameHandle(s0, s1, y);
    LinkWorks(s1, a, y);
    s := Exec(s1, linkY);
    ops := pre + [linkX, linkY];
    ExecAllConcat(Init(n), pre, [linkX, linkY]);
    ExecTwo(s0, linkX, linkY);
    frees := TakingBack(s, a, x, y);
    assert Members(s, a) == [x, y];
    SlotTakenBack(s, a, x, y);
  }
}
