/** What handle_parse and u_handle_free_all promise about the list they walk, for clients
    whose callbacks call back into the library. */
module HandleParse {
  import opened Seqs
  import opened HandleModel
  import opened HandleInv
  import opened HandleRuns
  import opened HandleTheorems

  // ---------- one parse callback ----------

  lemma {:induction false} CallbackStart(s: State, l: HLink, cur: nat, idx: nat)
    requires Inv(s) && s.halt == Running && l in s.parsing && cur in Members(s, l)
    ensures var m := Members(s, l); var e := Visit(l, idx, |m|, cur, m); var s1 := Log(MarkParsing(s, cur, true), e);
      && cur < |s.slots| && Inv(s1) && Members(s1, l) == m
      && Flagged(s1) == Flagged(s) + {cur} && Visits(s1.trace, l) == Visits(s.trace, l) + [e]
  {
    hide Inv, Visits;
    MemberFacts(s, l, cur);
    PutInv(s, cur, At(s, cur).(parsing := true));
    LogVisitInv(MarkParsing(s, cur, true), l, idx, cur, Members(s, l));
    FlagOne(s, cur);
  }

  /** A callback can take out of the list it runs on only members that are flagged: its own
      slot, and slots an enclosing parse is running for. */
  lemma {:induction false} CallbackKeepsRest(s: State, l: HLink, cur: nat, idx: nat, cb: ParseCb)
    requires Inv(s) && s.halt == Running && l in s.parsing && cur in Members(s, l)
    ensures var t := CallParse(s, l, cur, idx, cb); t.halt == Running ==>
      && Inv(t) && t.parsing == s.parsing && l in t.prim && Flagged(t) <= Flagged(s) - {cur}
      && Kept(Members(s, l), Members(t, l), Flagged(s) + {cur}, l in LinksAll(cb.ops))
      && Visits(t.trace, l) == Visits(s.trace, l) + [Visit(l, idx, |Members(s, l)|, cur, Members(s, l))]
  {
    hide Inv, Visits;
    var t := CallParse(s, l, cur, idx, cb);
    var m := Members(s, l);
    MemberFacts(s, l, cur);
    CallParseKeeps(s, l, cur, idx, cb);
    if t.halt == Running {
      var s1 := Log(MarkParsing(s, cur, true), Visit(l, idx, |m|, cur, m));
      FlaggedShrinks(s, t);
      CallbackStart(s, l, cur, idx);
      ExecAllKeeps(s1, cb.ops);
      var s2 := ExecAll(s1, cb.ops);
      assert ListKept(s1, s2, LinksAll(cb.ops), l);
      assert cur !in Flagged(t);
    }
  }

  /** If the current slot is the only flagged member, every other member survives the
      callback and the count drops by at most one. */
  lemma {:induction false} OnlyCurrentLeaves(s: State, l: HLink, cur: nat, idx: nat, cb: ParseCb)
    requires Inv(s) && s.halt == Running && l in s.parsing && cur in Members(s, l)
    requires forall x :: x in Members(s, l) && x in Flagged(s) ==> x == cur
    ensures var m, t := Members(s, l), CallParse(s, l, cur, idx, cb); t.halt == Running ==>
      && |Members(t, l)| >= |m| - 1
      && (forall x :: x in m && x != cur ==> x in Members(t, l))
      && (l !in LinksAll(cb.ops) ==> Members(t, l) == m || Members(t, l) == Without(m, {cur}))
  {
    hide Inv, Visits, CallParse;
    var m, t := Members(s, l), CallParse(s, l, cur, idx, cb);
    CallbackKeepsRest(s, l, cur, idx, cb);
    MemberFacts(s, l, cur);
    if t.halt == Running {
      var canLink := l in LinksAll(cb.ops);
      var gone, more :| Cut(m, Members(t, l), gone, more) && gone <= Flagged(s) + {cur} && (canLink || more == []);
      WithoutSame(m, gone, gone * {cur});
      WithoutMembers(m, gone * {cur});
      WithoutLoss(m, gone * {cur});
      assert gone * {cur} == {} || gone * {cur} == {cur};
      if gone * {cur} == {} { WithoutNothing(m, {}); }
      assert |gone * {cur}| <= 1;
    }
  }

  /** Delinking a member by its handle takes exactly that member out. */
  lemma {:induction false} DelinkWorks(s: State, l: HLink, i: nat)
    requires Inv(s) && s.halt == Running && i in Members(s, l)
    requires l in s.parsing ==> At(s, i).parsing
    ensures var (c, t) := DelinkS(s, l, MakeHandle(s, i));
      && c == OK && Inv(t) && t.halt == Running && l in t.prim && Members(t, l) == Without(Members(s, l), {i})
      && At(t, i) == At(s, i).(owner := None) && t.parsing == s.parsing
    ensures forall j: nat :: j != i ==> At(DelinkS(s, l, MakeHandle(s, i)).1, j) == At(s, j)
  {
    hide Inv, MakeHandle, Decode;
    MemberFacts(s, l, i);
    HandleDecodes(s, i);
    DelinkInv(s, l, MakeHandle(s, i));
  }

  /** The callback that delinks its own slot and one other member. */
  function DelinkTwo(s: State, l: HLink, cur: nat, x: nat): ParseCb {
    ParseCb([Delink(l, MakeHandle(s, cur)), Delink(l, MakeHandle(s, x))], HPNext)
  }

  lemma {:induction false} DelinkTwoDropsTwo(s: State, l: HLink, cur: nat, idx: nat, x: nat)
    requires Inv(s) && s.halt == Running && l in s.parsing && cur in Members(s, l)
    requires x in Members(s, l) && x != cur && At(s, x).parsing
    ensures var t := CallParse(s, l, cur, idx, DelinkTwo(s, l, cur, x));
      t.halt == Running && |Members(t, l)| + 2 <= |Members(s, l)|
  {
    hide Inv, Visits, MakeHandle, ExecAll;
    var m := Members(s, l);
    var s1 := Log(MarkParsing(s, cur, true), Visit(l, idx, |m|, cur, m));
    CallbackStart(s, l, cur, idx);
    MemberFacts(s, l, cur);
    SameGenSameHandle(s, s1, cur);
    SameGenSameHandle(s, s1, x);
    DelinkTwoWorks(s1, l, cur, x);
    RemoveTwo(m, cur, x);
  }

  /** Delinking two flagged members in turn. */
  lemma {:induction false} DelinkTwoWorks(s: State, l: HLink, i: nat, j: nat)
    requires Inv(s) && s.halt == Running && i in Members(s, l) && j in Members(s, l) && i != j
    requires At(s, i).parsing && At(s, j).parsing
    ensures var t := ExecAll(s, DelinkTwo(s, l, i, j).ops);
      t.halt == Running && Members(t, l) == Without(Without(Members(s, l), {i}), {j})
  {
    hide Inv, DelinkS, MakeHandle;
    var h, k := MakeHandle(s, i), MakeHandle(s, j);
    var s1 := DelinkS(s, l, h).1;
    DelinkWorks(s, l, i);
    WithoutMembers(Members(s, l), {i});
    SameGenSameHandle(s, s1, j);
    DelinkWorks(s1, l, j);
    hide Members;
    ExecTwo(s, Delink(l, h), Delink(l, k));
  }

  lemma {:induction false} ExecTwo(s: State, a: Op, b: Op)
    ensures ExecAll(s, [a, b]) == Exec(Exec(s, a), b)
  {
    assert [a, b][1..] == [b];
    assert ExecAll(Exec(s, a), [b]) == ExecAll(Exec(Exec(s, a), b), []);
  }

  lemma {:induction false} RemoveTwo(m: seq<nat>, a: nat, b: nat)
    requires NoDup(m) && a in m && b in m && a != b
    ensures |Without(Without(m, {a}), {b})| + 2 <= |m|
  {
    WithoutMembers(m, {a});
    var i := Position(m, a);
    WithoutOne(m, i);
    var j := Position(Without(m, {a}), b);
    WithoutOne(Without(m, {a}), j);
  }

  /** Exactly when a callback can make the count drop by two, which handle_parse answers
      with an abort: when another member of the list is flagged, that is, when an enclosing
      parse is running for it. Without nesting there is none. */
  lemma {:induction false} ParseAbortReachable(s: State, l: HLink, cur: nat, idx: nat)
    requires Inv(s) && s.halt == Running && l in s.parsing && cur in Members(s, l)
    ensures (exists cb :: CallParse(s, l, cur, idx, cb).halt == Running
                          && |Members(CallParse(s, l, cur, idx, cb), l)| + 2 <= |Members(s, l)|)
       <==> (exists x :: x in Members(s, l) && x != cur && At(s, x).parsing)
  {
    hide CallParse;
    if x :| x in Members(s, l) && x != cur && At(s, x).parsing {
      DelinkTwoDropsTwo(s, l, cur, idx, x);
    } else {
      forall cb | CallParse(s, l, cur, idx, cb).halt == Running
        ensures |Members(CallParse(s, l, cur, idx, cb), l)| + 2 > |Members(s, l)|
      {
        OnlyCurrentLeaves(s, l, cur, idx, cb);
      }
    }
  }

  /** The callback that delinks one member. */
  function DelinkOne(s: State, l: HLink, x: nat): ParseCb {
    ParseCb([Delink(l, MakeHandle(s, x))], HPNext)
  }

  /** A flagged member other than the current one can be delinked on its own: the count drops
      by one, as if the current one had left. */
  lemma {:induction false} DelinkOneDropsOne(s: State, l: HLink, cur: nat, idx: nat, x: nat)
    requires Inv(s) && s.halt == Running && l in s.parsing && cur in Members(s, l)
    requires x in Members(s, l) && x != cur && At(s, x).parsing
    ensures var t := CallParse(s, l, cur, idx, DelinkOne(s, l, x));
      && t.halt == Running && x !in Members(t, l)
      && |Members(t, l)| + 1 == |Members(s, l)|
  {
    hide Inv, Visits, DelinkS, MakeHandle;
    var m := Members(s, l);
    var s1 := Log(MarkParsing(s, cur, true), Visit(l, idx, |m|, cur, m));
    CallbackStart(s, l, cur, idx);
    MemberFacts(s, l, cur);
    var h := MakeHandle(s, x);
    assert MakeHandle(s1, x) == h by { SameGenSameHandle(s, s1, x); }
    DelinkWorks(s1, l, x);
    ExecOne(s1, Delink(l, h));
    hide Without;
    DropOne(m, x);
  }

  lemma {:induction false} DropOne(m: seq<nat>, x: nat)
    requires NoDup(m) && x in m
    ensures |Without(m, {x})| + 1 == |m| && x !in Without(m, {x})
  {
    WithoutMembers(m, {x});
    var k := Position(m, x);
    WithoutOne(m, k);
  }

  lemma {:induction false} ExecOne(s: State, a: Op)
    ensures ExecAll(s, [a]) == Exec(s, a)
  {
    assert ExecAll(Exec(s, a), []) == Exec(s, a);
  }

  lemma {:induction false} AfterMember(m: seq<nat>, cur: nat)
    requires NoDup(m) && 0 !in m && cur in m && After(m, cur) != 0
    ensures After(m, cur) in m && After(m, cur) != cur
  {
    var k := Position(m, cur);
    AfterAt(m, k);
  }

  /** Exactly when a callback can take the saved next slot off the list, so that the loop goes
      on with a slot that is not on it: when that slot is flagged by an enclosing parse. The
      count drops by one only, so nothing is noticed. */
  lemma {:induction false} CursorLostReachable(s: State, l: HLink, cur: nat, idx: nat)
    requires Inv(s) && s.halt == Running && l in s.parsing && cur in Members(s, l)
    requires After(Members(s, l), cur) != 0
    ensures (exists cb :: CallParse(s, l, cur, idx, cb).halt == Running
                          && ParseLoop(s, l, cur, idx, [cb]).halt == LostCursor)
       <==> At(s, After(Members(s, l), cur)).parsing
  {
    hide CallParse, Inv;
    var m := Members(s, l);
    MemberFacts(s, l, cur);
    NoZeroMember(s, l);
    AfterMember(m, cur);
    if At(s, After(m, cur)).parsing {
      NextDelinked(s, l, cur, idx);
    } else {
      forall cb | CallParse(s, l, cur, idx, cb).halt == Running
        ensures ParseLoop(s, l, cur, idx, [cb]).halt != LostCursor
      {
        NextStays(s, l, cur, idx, cb);
      }
    }
  }

  lemma {:induction false} NextDelinked(s: State, l: HLink, cur: nat, idx: nat)
    requires Inv(s) && s.halt == Running && l in s.parsing && cur in Members(s, l)
    requires After(Members(s, l), cur) != 0 && At(s, After(Members(s, l), cur)).parsing
    ensures var cb := DelinkOne(s, l, After(Members(s, l), cur));
      CallParse(s, l, cur, idx, cb).halt == Running && ParseLoop(s, l, cur, idx, [cb]).halt == LostCursor
  {
    hide CallParse, Inv, MakeHandle;
    var m := Members(s, l);
    MemberFacts(s, l, cur);
    NoZeroMember(s, l);
    AfterMember(m, cur);
    DelinkOneDropsOne(s, l, cur, idx, After(m, cur));
  }

  lemma {:induction false} NextStays(s: State, l: HLink, cur: nat, idx: nat, cb: ParseCb)
    requires Inv(s) && s.halt == Running && l in s.parsing && cur in Members(s, l)
    requires After(Members(s, l), cur) != 0 && !At(s, After(Members(s, l), cur)).parsing
    requires CallParse(s, l, cur, idx, cb).halt == Running
    ensures ParseLoop(s, l, cur, idx, [cb]).halt != LostCursor
  {
    hide CallParse, Inv, Visits;
    var m := Members(s, l);
    MemberFacts(s, l, cur);
    NoZeroMember(s, l);
    AfterMember(m, cur);
    CallbackKeepsRest(s, l, cur, idx, cb);
    var t := CallParse(s, l, cur, idx, cb);
    KeptMember(m, Members(t, l), Flagged(s) + {cur}, l in LinksAll(cb.ops), After(m, cur));
    assert [cb][1..] == [];
  }

  lemma {:induction false} KeptMember(a: seq<nat>, b: seq<nat>, f: set<nat>, canLink: bool, x: nat)
    requires Kept(a, b, f, canLink) && x in a && x !in f
    ensures x in b
  {
    var r, m :| Cut(a, b, r, m) && r <= f && (canLink || m == []);
    WithoutMembers(a, r);
  }

  // ---------- whole parses ----------

  /** The script starts no parse, at any depth. */
  predicate NoParse(op: Op)
    decreases op, 1
  {
    match op
    case Free(_, cb) => NoParseAll(cb.ops)
    case FreeAll(_, frees) => NoParseFrees(frees)
    case Parse(_, _) => false
    case _ => true
  }

  predicate NoParseAll(ops: seq<Op>)
    decreases ops, 0
  {
    ops == [] || (NoParse(ops[0]) && NoParseAll(ops[1..]))
  }

  predicate NoParseFrees(frees: seq<FreeCb>)
    decreases frees, 0
  {
    frees == [] || (NoParseAll(frees[0].ops) && NoParseFrees(frees[1..]))
  }

  /** The run did not stop inside handle_parse. */
  predicate NotLost(s: State) {
    s.halt != ParseOp && s.halt != LostCursor
  }

  lemma {:induction false} NoParseNotLost(s: State, op: Op)
    requires NoParse(op) && NotLost(s)
    ensures NotLost(Exec(s, op))
    decreases op, 1
  {
    match op
    case Free(h, cb) =>
      if s.halt == Running && Decode(s, h) != 0 { CallFreeNotLost(s, Decode(s, h), cb); }
    case FreeAll(l, frees) =>
      if s.halt == Running { FreesNotLost(s.(freeAll := s.freeAll + {l}), l, frees); }
    case _ =>
  }

  lemma {:induction false} NoParseAllNotLost(s: State, ops: seq<Op>)
    requires NoParseAll(ops) && NotLost(s)
    ensures NotLost(ExecAll(s, ops))
    decreases ops, 0
  {
    if ops != [] {
      NoParseNotLost(s, ops[0]);
      NoParseAllNotLost(Exec(s, ops[0]), ops[1..]);
    }
  }

  lemma {:induction false} CallFreeNotLost(s: State, i: nat, cb: FreeCb)
    requires NoParseAll(cb.ops) && NotLost(s)
    ensures NotLost(CallFree(s, i, cb).1)
    decreases cb, 0
  {
    NoParseAllNotLost(MarkFreeing(s, i, true), cb.ops);
  }

  lemma {:induction false} FreesNotLost(s: State, l: HLink, frees: seq<FreeCb>)
    requires NoParseFrees(frees) && NotLost(s)
    ensures NotLost(FreeAllLoop(s, l, frees).1)
    decreases frees, 0
  {
    var m := Members(s, l);
    if m != [] && frees != [] {
      CallFreeNotLost(s, m[0], frees[0]);
      FreesNotLost(CallFree(s, m[0], frees[0]).1, l, frees[1..]);
    }
  }

  predicate NoParseIn(parses: seq<ParseCb>) {
    forall k :: 0 <= k < |parses| ==> NoParseAll(parses[k].ops)
  }

  /** A parse whose callbacks start no nested parse never loses its place and never takes
      the abort on a shrinking count, whatever else the callbacks do. */
  lemma {:induction false} ParseNeverLost(s: State, l: HLink, parses: seq<ParseCb>)
    requires Inv(s) && s.halt == Running && Flagged(s) == {} && NoParseIn(parses)
    ensures NotLost(ParseS(s, l, parses).1)
  {
    hide Inv;
    if l in s.prim && l !in s.parsing {
      var s0 := s.(parsing := s.parsing + {l});
      BracketInv(s, l);
      assert Flagged(s0) == Flagged(s);
      ParseLoopNeverLost(s0, l, Nth(Members(s0, l), 0), 0, parses);
    }
  }

  lemma {:induction false} ParseLoopNeverLost(s: State, l: HLink, cur: nat, idx: nat, parses: seq<ParseCb>)
    requires Inv(s) && s.halt == Running && l in s.parsing && Flagged(s) == {} && NoParseIn(parses)
    requires cur == 0 || cur in Members(s, l)
    ensures NotLost(ParseLoop(s, l, cur, idx, parses))
    decreases parses
  {
    hide Inv, Visits, CallParse;
    if cur != 0 && parses != [] {
      var m := Members(s, l);
      var s1 := CallParse(s, l, cur, idx, parses[0]);
      CallParseNotLost(s, l, cur, idx, parses[0]);
      CallbackKeepsRest(s, l, cur, idx, parses[0]);
      OnlyCurrentLeaves(s, l, cur, idx, parses[0]);
      MemberFacts(s, l, cur);
      var k := Position(m, cur);
      AfterAt(m, k);
      if s1.halt == Running {
        match parses[0].result
        case HPNext =>
          ParseLoopNeverLost(s1, l, After(m, cur), if |Members(s1, l)| >= |m| then idx + 1 else idx, parses[1..]);
        case HPRestart => ParseLoopNeverLost(s1, l, Nth(Members(s1, l), 0), 0, parses[1..]);
        case _ =>
      }
    }
  }

  lemma {:induction false} CallParseNotLost(s: State, l: HLink, cur: nat, idx: nat, cb: ParseCb)
    requires s.halt == Running && NoParseAll(cb.ops)
    ensures NotLost(CallParse(s, l, cur, idx, cb))
  {
    var m := Members(s, l);
    NoParseAllNotLost(Log(MarkParsing(s, cur, true), Visit(l, idx, |m|, cur, m)), cb.ops);
  }

  // ---------- visiting order ----------

  /** The visits of a parse that started at position k of list m: each member from there
      on, once, in order, and each callback told its slot's position and the count. */
  predicate InOrder(visits: seq<Event>, m: seq<nat>) {
    && |visits| == |m|
    && forall k :: 0 <= k < |visits| ==>
         && visits[k].Visit? && visits[k].slot == m[k]
         && visits[k].count == |visits[k].members| && Nth(visits[k].members, visits[k].idx) == m[k]
  }

  /** If the callbacks link nothing into the list and answer HP_NEXT, each original member
      is visited exactly once, in order, with an index equal to its current position. */
  lemma {:induction false} ParseVisitsAll(s: State, l: HLink, parses: seq<ParseCb>)
    requires Inv(s) && s.halt == Running && Flagged(s) == {} && l in s.prim && l !in s.parsing
    requires l !in LinksParses(parses) && forall k :: 0 <= k < |parses| ==> parses[k].result == HPNext
    requires |parses| >= |Members(s, l)|
    ensures var t := ParseS(s, l, parses).1; t.halt == Running ==>
      exists e :: Visits(t.trace, l) == Visits(s.trace, l) + e && InOrder(e, Members(s, l))
  {
    hide Inv, Visits, ParseLoop, InOrder;
    var s0 := s.(parsing := s.parsing + {l});
    BracketInv(s, l);
    assert Flagged(s0) == Flagged(s);
    assert Members(s0, l)[0..] == Members(s, l);
    NoZeroMember(s, l);
    if ParseS(s, l, parses).1.halt == Running {
      var e := LoopVisitsAll(s0, l, 0, parses);
    }
  }

  /** Position in the list after the callback for the member at pos answered HP_NEXT. */
  function NextPos(s: State, l: HLink, pos: nat, cb: ParseCb): nat {
    var m := Members(s, l);
    if Members(CallParse(s, l, Nth(m, pos), pos, cb), l) == m then pos + 1 else pos
  }

  lemma {:induction false} VisitStep(s: State, l: HLink, pos: nat, parses: seq<ParseCb>)
    requires Inv(s) && s.halt == Running && l in s.parsing && Flagged(s) == {}
    requires pos < |Members(s, l)| && parses != [] && parses[0].result == HPNext && l !in LinksAll(parses[0].ops)
    ensures var m := Members(s, l); var s1 := CallParse(s, l, m[pos], pos, parses[0]);
      var pos' := NextPos(s, l, pos, parses[0]); s1.halt == Running ==>
      && pos' <= |Members(s1, l)| && Members(s1, l)[pos'..] == m[pos + 1..]
      && ParseLoop(s, l, m[pos], pos, parses) == ParseLoop(s1, l, Nth(Members(s1, l), pos'), pos', parses[1..])
  {
    hide Inv, Visits, CallParse;
    var m := Members(s, l);
    var cur, s1 := m[pos], CallParse(s, l, m[pos], pos, parses[0]);
    assert cur in m;
    MemberFacts(s, l, cur);
    OnlyCurrentLeaves(s, l, cur, pos, parses[0]);
    AfterAt(m, pos);
    WithoutOne(m, pos);
  }

  /** Visits are in order if the first reports the head of the list and the rest are in
      order for the rest of the list. */
  lemma {:induction false} InOrderCons(e: seq<Event>, m: seq<nat>)
    requires |e| == 0 <==> |m| == 0
    requires |e| > 0 ==>
      && InOrder(e[1..], m[1..]) && e[0].Visit? && e[0].slot == m[0]
      && e[0].count == |e[0].members| && Nth(e[0].members, e[0].idx) == m[0]
    ensures InOrder(e, m)
  {
    if |e| > 0 {
      assert e == [e[0]] + e[1..] && m == [m[0]] + m[1..];
    }
  }

  lemma {:induction false} LoopVisitsAll(s: State, l: HLink, pos: nat, parses: seq<ParseCb>) returns (e: seq<Event>)
    requires Inv(s) && s.halt == Running && l in s.parsing && Flagged(s) == {}
    requires l !in LinksParses(parses) && forall k :: 0 <= k < |parses| ==> parses[k].result == HPNext
    requires pos <= |Members(s, l)| && |parses| >= |Members(s, l)| - pos
    requires ParseLoop(s, l, Nth(Members(s, l), pos), pos, parses).halt == Running
    ensures var t := ParseLoop(s, l, Nth(Members(s, l), pos), pos, parses);
      Visits(t.trace, l) == Visits(s.trace, l) + e && InOrder(e, Members(s, l)[pos..])
    decreases parses
  {
    var m := Members(s, l);
    hide Inv, Visits, CallParse, NextPos, Kept, Members, Flagged, InOrder;
    if pos == |m| {
      e := [];
      InOrderCons([], m[pos..]);
    } else {
      var s1 := CallParse(s, l, m[pos], pos, parses[0]);
      assert m[pos] in m;
      MemberFacts(s, l, m[pos]);
      VisitStep(s, l, pos, parses);
      CallbackKeepsRest(s, l, m[pos], pos, parses[0]);
      var rest := LoopVisitsAll(s1, l, NextPos(s, l, pos, parses[0]), parses[1..]);
      e := [Visit(l, pos, |m|, m[pos], m)] + rest;
      assert Visits(s.trace, l) + e == Visits(s1.trace, l) + rest;
      InOrderCons(e, m[pos..]);
    }
  }
}
