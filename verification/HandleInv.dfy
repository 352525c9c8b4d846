/** The global shape of the handle library and the proof that each single step keeps it. */
module HandleInv {
  import opened Seqs
  import opened HandleModel

  /** Slots 1..total are either inactive and on the free list exactly once, or active. */
  ghost predicate FreeOk(slots: seq<Slot>, free: seq<nat>) {
    && 2 <= |slots| <= MAX_INDEX + 1
    && |free| >= 1
    && NoDup(free)
    && (forall i :: i in free ==> 1 <= i < |slots| && !Active(slots[i]))
    && (forall i :: 1 <= i < |slots| && !Active(slots[i]) ==> i in free)
    && !Active(slots[0])
  }

  /** The members of primary list l are distinct slots linked to l. */
  ghost predicate PrimListAt(slots: seq<Slot>, prim: map<HLink, seq<nat>>, l: HLink)
    requires l in prim
  {
    NoDup(prim[l]) && forall i :: i in prim[l] ==> i < |slots| && slots[i].owner == Some(l)
  }

  /** A linked slot is active, of a client type, and a member of the list it is linked to. */
  ghost predicate PrimSlotAt(slots: seq<Slot>, prim: map<HLink, seq<nat>>, i: nat)
    requires i < |slots|
  {
    slots[i].owner.Some? ==>
      && Active(slots[i]) && slots[i].typ >= RES_BY_HANDLE_LIB
      && slots[i].owner.value in prim && i in prim[slots[i].owner.value]
  }

  ghost predicate PrimOk(slots: seq<Slot>, prim: map<HLink, seq<nat>>) {
    && (forall l :: l in prim ==> PrimListAt(slots, prim, l))
    && (forall i :: 0 <= i < |slots| ==> PrimSlotAt(slots, prim, i))
  }

  /** The members of the auxiliary list of slot a are distinct slots naming a as head. */
  ghost predicate AuxListAt(slots: seq<Slot>, a: nat)
    requires a < |slots|
  {
    NoDup(slots[a].auxList)
    && forall i :: i in slots[a].auxList ==> i < |slots| && a > 0 && slots[i].auxHead == a
  }

  /** A slot naming an auxiliary head is active, of a client type and on the list of that
      head, which is itself an active auxiliary head. */
  ghost predicate AuxSlotAt(slots: seq<Slot>, i: nat)
    requires i < |slots|
  {
    var a := slots[i].auxHead;
    a != 0 ==>
      && Active(slots[i]) && slots[i].typ >= RES_BY_HANDLE_LIB
      && a < |slots| && Active(slots[a]) && slots[a].typ == AUX_LINK_HEAD && i in slots[a].auxList
  }

  ghost predicate AuxOk(slots: seq<Slot>) {
    && (forall a :: 0 <= a < |slots| ==> AuxListAt(slots, a))
    && (forall i :: 0 <= i < |slots| ==> AuxSlotAt(slots, i))
  }

  /** The generation of slot i counts its allocations and frees in the run. */
  ghost predicate UsesAt(slots: seq<Slot>, trace: seq<Event>, i: nat) {
    Uses(trace, i) == if i < |slots| then slots[i].gen else 0
  }

  ghost predicate UsesOk(slots: seq<Slot>, trace: seq<Event>) {
    forall i: nat :: UsesAt(slots, trace, i)
  }

  /** In-use, per-group and peak statistics describe the slots and the run. */
  ghost predicate StatOk(slots: seq<Slot>, used: int, grp: seq<nat>, peak: nat, trace: seq<Event>) {
    && |grp| == NB_GROUPS
    && used == Count(slots, ALL_GROUPS)
    && grp[0] == Count(slots, 0)
    && grp[1] == Count(slots, 1)
    && peak == MaxUsed(trace)
    && used <= peak
    && UsesOk(slots, trace)
  }

  ghost predicate Inv(s: State) {
    && FreeOk(s.slots, s.free)
    && PrimOk(s.slots, s.prim)
    && AuxOk(s.slots)
    && StatOk(s.slots, InUse(s), s.grp, s.peak, s.trace)
    && s.parsing <= s.prim.Keys
    && s.freeAll <= s.prim.Keys
  }

  // ---------- counting ----------

  function One(x: Slot, g: nat): nat {
    if InGroup(x, g) then 1 else 0
  }

  lemma {:induction false} CountPut(slots: seq<Slot>, i: nat, x: Slot, g: nat)
    requires i < |slots|
    ensures Count(slots[i := x], g) == Count(slots, g) - One(slots[i], g) + One(x, g)
  {
    var n := |slots| - 1;
    if i == n {
      assert slots[i := x][..n] == slots[..n];
    } else {
      assert slots[i := x][..n] == slots[..n][i := x];
      CountPut(slots[..n], i, x, g);
    }
  }

  lemma {:induction false} CountBlanks(slots: seq<Slot>, n: nat, g: nat)
    ensures Count(slots + seq(n, _ => BLANK), g) == Count(slots, g)
    decreases n
  {
    if n == 0 {
      assert slots + seq(n, _ => BLANK) == slots;
    } else {
      var t := slots + seq(n, _ => BLANK);
      assert t[..|t| - 1] == slots + seq(n - 1, _ => BLANK);
      CountBlanks(slots, n - 1, g);
    }
  }

  /** A slot in use is counted, in every group it belongs to. */
  lemma {:induction false} CountPositive(slots: seq<Slot>, i: nat, g: nat)
    requires i < |slots| && InGroup(slots[i], g)
    ensures Count(slots, g) > 0
  {
    if i < |slots| - 1 { CountPositive(slots[..|slots| - 1], i, g); }
  }

  /** An allocation or a free of slot i bumps its generation and is logged once. */
  lemma {:induction false} UsesPut(slots: seq<Slot>, trace: seq<Event>, i: nat, x: Slot, n: nat)
    requires UsesOk(slots, trace) && i < |slots| && x.gen == slots[i].gen + 1
    ensures UsesOk(slots[i := x], trace + [Used(n, i)])
  {
    var t, more := slots[i := x], trace + [Used(n, i)];
    assert more[..|trace|] == trace;
    forall j: nat ensures UsesAt(t, more, j) { assert UsesAt(slots, trace, j); }
  }

  lemma {:induction false} DownMembers(low: nat, n: nat)
    ensures forall i :: i in Down(low, n) <==> low < i <= n
    ensures NoDup(Down(low, n))
    ensures low <= n ==> |Down(low, n)| == n - low
    decreases n
  {
    if n > low {
      DownMembers(low, n - 1);
      NoDupConcat([n], Down(low, n - 1));
    }
  }

  // ---------- rewriting one slot ----------

  lemma {:induction false} FreePut(slots: seq<Slot>, free: seq<nat>, i: nat, x: Slot)
    requires FreeOk(slots, free) && i < |slots| && Active(x) == Active(slots[i])
    ensures FreeOk(slots[i := x], free)
  {}

  lemma {:induction false} PrimPut(slots: seq<Slot>, prim: map<HLink, seq<nat>>, i: nat, x: Slot)
    requires PrimOk(slots, prim) && i < |slots| && x.owner == slots[i].owner
    requires x.owner.Some? ==> Active(x) && x.typ >= RES_BY_HANDLE_LIB
    ensures PrimOk(slots[i := x], prim)
  {
    var t := slots[i := x];
    forall l | l in prim ensures PrimListAt(t, prim, l) { assert PrimListAt(slots, prim, l); }
    forall j | 0 <= j < |t| ensures PrimSlotAt(t, prim, j) { assert PrimSlotAt(slots, prim, j); }
  }

  /** A slot that keeps its auxiliary fields may be rewritten if it stays what its list
      and its head need it to be, or plays no part in any auxiliary list. */
  lemma {:induction false} AuxPut(slots: seq<Slot>, i: nat, x: Slot)
    requires AuxOk(slots) && i < |slots|
    requires x.auxHead == slots[i].auxHead && x.auxList == slots[i].auxList
    requires (Active(x) && x.typ == slots[i].typ) || (slots[i].auxHead == 0 && slots[i].auxList == [])
    ensures AuxOk(slots[i := x])
  {
    var t := slots[i := x];
    forall a | 0 <= a < |t| ensures AuxListAt(t, a) { assert AuxListAt(slots, a); }
    forall j | 0 <= j < |t| ensures AuxSlotAt(t, j) {
      assert AuxSlotAt(slots, j);
    }
  }

  lemma {:induction false} StatPut(s: State, i: nat, x: Slot)
    requires StatOk(s.slots, InUse(s), s.grp, s.peak, s.trace) && i < |s.slots|
    requires x.gen == s.slots[i].gen && x.typ == s.slots[i].typ
    ensures StatOk(s.slots[i := x], InUse(s), s.grp, s.peak, s.trace)
  {
    var t := s.slots[i := x];
    forall j: nat ensures UsesAt(t, s.trace, j) { assert UsesAt(s.slots, s.trace, j); }
    CountPut(s.slots, i, x, ALL_GROUPS);
    CountPut(s.slots, i, x, 0);
    CountPut(s.slots, i, x, 1);
  }

  /** Rewriting the flags, object or tag of a slot keeps the whole shape. */
  lemma {:induction false} PutInv(s: State, i: nat, x: Slot)
    requires Inv(s) && i < |s.slots|
    requires var y := s.slots[i];
      x.gen == y.gen && x.typ == y.typ && x.owner == y.owner && x.auxHead == y.auxHead && x.auxList == y.auxList
    ensures Inv(Put(s, i, x))
  {
    assert PrimSlotAt(s.slots, s.prim, i);
    FreePut(s.slots, s.free, i, x);
    PrimPut(s.slots, s.prim, i, x);
    if !Active(x) { InactiveFacts(s, i); }
    AuxPut(s.slots, i, x);
    StatPut(s, i, x);
  }

  /** A slot that heads a non-empty auxiliary list is an active auxiliary head. */
  lemma {:induction false} HeadFacts(slots: seq<Slot>, a: nat)
    requires AuxOk(slots) && a < |slots| && slots[a].auxList != []
    ensures a > 0 && Active(slots[a]) && slots[a].typ == AUX_LINK_HEAD && slots[a].auxHead == 0
  {
    var j := slots[a].auxList[0];
    assert j in slots[a].auxList && AuxListAt(slots, a) && AuxSlotAt(slots, j) && AuxSlotAt(slots, a);
  }

  /** An inactive slot is on no list and heads none. */
  lemma {:induction false} InactiveFacts(s: State, i: nat)
    requires Inv(s) && i < |s.slots| && !Active(s.slots[i])
    ensures s.slots[i].auxHead == 0 && s.slots[i].auxList == [] && s.slots[i].owner.None?
  {
    assert AuxSlotAt(s.slots, i) && PrimSlotAt(s.slots, s.prim, i);
    if s.slots[i].auxList != [] { HeadFacts(s.slots, i); }
  }

  /** A member of a primary list is an active slot of a client type, linked to that list. */
  lemma {:induction false} MemberFacts(s: State, l: HLink, i: nat)
    requires Inv(s) && i in Members(s, l)
    ensures l in s.prim && NoDup(Members(s, l))
    ensures 0 < i < |s.slots| && Active(s.slots[i]) && s.slots[i].typ >= RES_BY_HANDLE_LIB
    ensures s.slots[i].owner == Some(l) && s.slots[i].auxList == []
    ensures forall k :: i in Members(s, k) ==> k == l
  {
    assert PrimListAt(s.slots, s.prim, l) && PrimSlotAt(s.slots, s.prim, i);
    if s.slots[i].auxList != [] { HeadFacts(s.slots, i); }
    forall k | i in Members(s, k) ensures k == l { assert PrimListAt(s.slots, s.prim, k); }
  }

  lemma {:induction false} NoZeroMember(s: State, l: HLink)
    requires Inv(s)
    ensures 0 !in Members(s, l)
  {
    hide Inv;
    if 0 in Members(s, l) { MemberFacts(s, l, 0); }
  }

  lemma {:induction false} AfterAt(q: seq<nat>, k: nat)
    requires k < |q| && NoDup(q)
    ensures After(q, q[k]) == Nth(q, k + 1)
  {
    if k > 0 { AfterAt(q[1..], k - 1); }
  }

  // ---------- initial state ----------

  lemma {:induction false} BlankOk(slots: seq<Slot>, g: nat)
    requires forall i :: 0 <= i < |slots| ==> slots[i] == BLANK
    ensures PrimOk(slots, map[]) && AuxOk(slots) && Count(slots, g) == 0 && UsesOk(slots, [])
  {
    assert forall i: nat :: UsesAt(slots, [], i);
    forall i | 0 <= i < |slots| ensures PrimSlotAt(slots, map[], i) && AuxSlotAt(slots, i) && AuxListAt(slots, i) {
      assert slots[i] == BLANK;
    }
    if slots != [] { BlankOk(slots[..|slots| - 1], g); }
  }

  lemma {:induction false} InitInv(n: nat)
    requires 0 < n < MAX_INDEX
    ensures Inv(Init(n))
  {
    var s := Init(n);
    DownMembers(0, n);
    assert FreeOk(s.slots, s.free);
    BlankOk(s.slots, ALL_GROUPS);
    BlankOk(s.slots, 0);
    BlankOk(s.slots, 1);
  }

  /** Marking a list as being parsed, or as being freed, keeps the shape. */
  lemma {:induction false} BracketInv(s: State, l: HLink)
    requires Inv(s) && l in s.prim
    ensures Inv(s.(freeAll := s.freeAll + {l})) && Inv(s.(parsing := s.parsing + {l}))
  {}

  // ---------- growth and allocation ----------

  /** What is known of the library between popping the free list and reusing the slot:
      the popped slot i is inactive but no longer free. */
  ghost predicate Popped(s: State, i: nat) {
    && 2 <= |s.slots| <= MAX_INDEX + 1 && 1 <= i < |s.slots| && !Active(s.slots[i]) && !Active(s.slots[0])
    && NoDup(s.free) && i !in s.free
    && (forall j :: j in s.free ==> 1 <= j < |s.slots| && !Active(s.slots[j]))
    && (forall j :: 1 <= j < |s.slots| && !Active(s.slots[j]) && j != i ==> j in s.free)
    && PrimOk(s.slots, s.prim) && AuxOk(s.slots)
    && s.slots[i].auxHead == 0 && s.slots[i].auxList == [] && s.slots[i].owner.None?
    && StatOk(s.slots, InUse(s) - 1, s.grp, s.peak, s.trace)
    && s.parsing <= s.prim.Keys && s.freeAll <= s.prim.Keys
  }

  lemma {:induction false} PopInv(s: State)
    requires Inv(s)
    ensures Popped(s.(free := s.free[1..]), s.free[0])
  {
    hide Count, MaxUsed;
    var i := s.free[0];
    assert i in s.free;
    InactiveFacts(s, i);
    assert s.free == [i] + s.free[1..];
    assert forall j :: j in s.free <==> j == i || j in s.free[1..];
  }

  /** Growth: inactive slots are added to the array and to the free list, nothing else. */
  lemma {:induction false} GrowInv(s: State, i: nat)
    requires Popped(s, i) && Total(s) + GROW_BY <= MAX_INDEX
    ensures Popped(Grow(s), i) && |Grow(s).free| == |s.free| + GROW_BY
  {
    hide Count, MaxUsed, Down;
    var t := Grow(s);
    var more := Down(Total(s), Total(s) + GROW_BY);
    DownMembers(Total(s), Total(s) + GROW_BY);
    NoDupConcat(more, s.free);
    GrowLists(s.slots, s.prim, GROW_BY);
    CountBlanks(s.slots, GROW_BY, ALL_GROUPS);
    CountBlanks(s.slots, GROW_BY, 0);
    CountBlanks(s.slots, GROW_BY, 1);
    forall j: nat ensures UsesAt(t.slots, t.trace, j) { assert UsesAt(s.slots, s.trace, j); }
    assert forall j :: j in t.free <==> j in more || j in s.free;
  }

  lemma {:induction false} GrowLists(slots: seq<Slot>, prim: map<HLink, seq<nat>>, n: nat)
    requires PrimOk(slots, prim) && AuxOk(slots)
    ensures PrimOk(slots + seq(n, _ => BLANK), prim) && AuxOk(slots + seq(n, _ => BLANK))
  {
    var t := slots + seq(n, _ => BLANK);
    forall l | l in prim ensures PrimListAt(t, prim, l) { assert PrimListAt(slots, prim, l); }
    forall j | 0 <= j < |t| ensures PrimSlotAt(t, prim, j) && AuxListAt(t, j) && AuxSlotAt(t, j) {
      if j < |slots| {
        assert PrimSlotAt(slots, prim, j) && AuxListAt(slots, j) && AuxSlotAt(slots, j);
      } else {
        assert t[j] == BLANK;
      }
    }
  }

  /** The state in which an allocation reuses the popped slot: old slots are unchanged, new
      ones blank, and there are enough free slots left. */
  lemma {:induction false} ReadyFacts(s: State)
    requires Inv(s) && CanAlloc(s)
    ensures var r, i := Ready(s), s.free[0];
      && Popped(r, i) && |r.free| > GROW_AT && |r.free| >= |s.free| - 1 && 1 <= i < |s.slots| <= |r.slots|
      && r == s.(slots := r.slots, free := r.free) && !Active(s.slots[i]) && InUse(r) > 0
    ensures forall j: nat :: At(Ready(s), j) == At(s, j)
  {
    hide Count, MaxUsed, Down;
    PopInv(s);
    var s1 := s.(free := s.free[1..]);
    if |s1.free| <= GROW_AT { GrowInv(s1, s.free[0]); }
    FreeHead(s);
  }

  lemma {:induction false} ReuseStat(slots: seq<Slot>, used: int, grp: seq<nat>, peak: nat,
                                     trace: seq<Event>, i: nat, x: Slot)
    requires StatOk(slots, used - 1, grp, peak, trace) && i < |slots|
    requires !Active(slots[i]) && x.gen == slots[i].gen + 1
    ensures used > 0
    ensures StatOk(slots[i := x], used, Bump(grp, x.typ), if used > peak then used else peak, trace + [Used(used, i)])
  {
    UsesPut(slots, trace, i, x, used);
    CountPut(slots, i, x, ALL_GROUPS);
    CountPut(slots, i, x, 0);
    CountPut(slots, i, x, 1);
    assert (trace + [Used(used, i)])[..|trace|] == trace;
  }

  lemma {:induction false} ReuseInv(r: State, i: nat, typ: nat, obj: int, tag: int)
    requires Popped(r, i) && |r.free| >= 1
    ensures Inv(Reuse(r, i, typ, obj, tag)) && InUse(r) > 0
  {
    hide Count, MaxUsed, Bump;
    var x := Fresh(r.slots[i], typ, obj, tag);
    PrimPut(r.slots, r.prim, i, x);
    AuxPut(r.slots, i, x);
    ReuseStat(r.slots, InUse(r), r.grp, r.peak, r.trace, i, x);
    assert FreeOk(r.slots[i := x], r.free);
  }

  lemma {:induction false} FreeHead(s: State)
    requires Inv(s)
    ensures |s.free| > 0 && 1 <= s.free[0] < |s.slots|
    ensures !Active(s.slots[s.free[0]]) && At(s, s.free[0]) == s.slots[s.free[0]]
  {
    assert s.free[0] in s.free;
  }

  /** A successful allocation keeps the shape, and issues the handle of slot free[0]. */
  lemma {:induction false} AllocInv(s: State, typ: nat, obj: int, tag: int)
    requires Inv(s) && s.halt == Running && typ != INV_HANDLE_TYPE && CanAlloc(s)
    ensures |s.free| > 0 && 1 <= s.free[0] < |s.slots| && !Active(At(s, s.free[0]))
    ensures var (c, h, t) := AllocS(s, typ, obj, tag);
      c == OK && h == HandleOf(s.free[0], At(s, s.free[0]).gen + 1) && Inv(t) && t.halt == Running
  {
    hide Count, MaxUsed, Ready, Bump, HandleOf, Inv, Popped;
    FreeHead(s);
    ReadyFacts(s);
    ReuseInv(Ready(s), s.free[0], typ, obj, tag);
  }

  /** It turns slot free[0] into a fresh active slot; every other slot and list stays. */
  lemma {:induction false} AllocFacts(s: State, typ: nat, obj: int, tag: int)
    requires Inv(s) && s.halt == Running && typ != INV_HANDLE_TYPE && CanAlloc(s)
    ensures var t, i := AllocS(s, typ, obj, tag).2, s.free[0];
      && 1 <= i < |s.slots| <= |t.slots| && !Active(s.slots[i])
      && t.prim == s.prim && t.parsing == s.parsing && t.freeAll == s.freeAll
      && InUse(t) >= 0 && t.trace == s.trace + [Used(InUse(t), i)]
      && |t.free| > GROW_AT && |t.free| >= |s.free| - 1
      && At(t, i) == Fresh(At(s, i), typ, obj, tag)
    ensures forall j: nat :: j != s.free[0] ==> At(AllocS(s, typ, obj, tag).2, j) == At(s, j)
  {
    hide Count, MaxUsed, Ready, Bump, HandleOf, Inv, Popped, Fresh;
    FreeHead(s);
    ReadyFacts(s);
    ReuseInv(Ready(s), s.free[0], typ, obj, tag);
  }

  // ---------- primary lists ----------

  lemma {:induction false} LinkInitInv(s: State, l: HLink)
    requires Inv(s) && s.halt == Running && l !in s.prim
    ensures Inv(LinkInitS(s, l))
  {
    var t := LinkInitS(s, l);
    forall k | k in t.prim ensures PrimListAt(t.slots, t.prim, k) {
      if k != l { assert PrimListAt(s.slots, s.prim, k); }
    }
    forall j | 0 <= j < |t.slots| ensures PrimSlotAt(t.slots, t.prim, j) { assert PrimSlotAt(s.slots, s.prim, j); }
  }

  /** Slot i joins the tail of list l. */
  lemma {:induction false} JoinPrim(slots: seq<Slot>, prim: map<HLink, seq<nat>>, l: HLink, i: nat, x: Slot)
    requires PrimOk(slots, prim) && l in prim && i < |slots| && slots[i].owner.None?
    requires x.owner == Some(l) && Active(x) && x.typ >= RES_BY_HANDLE_LIB
    ensures PrimOk(slots[i := x], prim[l := prim[l] + [i]])
  {
    var t, p := slots[i := x], prim[l := prim[l] + [i]];
    forall k | k in p ensures PrimListAt(t, p, k) {
      assert PrimListAt(slots, prim, k);
      if k == l { NoDupConcat(prim[l], [i]); }
    }
    forall j | 0 <= j < |t| ensures PrimSlotAt(t, p, j) { assert PrimSlotAt(slots, prim, j); }
  }

  lemma {:induction false} LeavePrim(slots: seq<Slot>, prim: map<HLink, seq<nat>>, l: HLink, i: nat, x: Slot)
    requires PrimOk(slots, prim) && l in prim && i < |slots| && slots[i].owner == Some(l) && x.owner == None
    ensures PrimOk(slots[i := x], prim[l := Without(prim[l], {i})])
  {
    var t, p := slots[i := x], prim[l := Without(prim[l], {i})];
    WithoutMembers(prim[l], {i});
    forall k | k in p ensures PrimListAt(t, p, k) { assert PrimListAt(slots, prim, k); }
    forall j | 0 <= j < |t| ensures PrimSlotAt(t, p, j) { assert PrimSlotAt(slots, prim, j); }
  }

  lemma {:induction false} LinkInv(s: State, l: HLink, h: nat)
    requires Inv(s) && s.halt == Running
    ensures var t := LinkS(s, l, h).1; t.halt == Running ==> Inv(t)
  {
    var i := Decode(s, h);
    if LinkS(s, l, h).0 == OK && l in s.prim {
      var x := At(s, i).(owner := Some(l));
      JoinPrim(s.slots, s.prim, l, i, x);
      FreePut(s.slots, s.free, i, x);
      AuxPut(s.slots, i, x);
      StatPut(s, i, x);
    }
  }

  lemma {:induction false} DelinkInv(s: State, l: HLink, h: nat)
    requires Inv(s) && s.halt == Running
    ensures var t := DelinkS(s, l, h).1; t.halt == Running ==> Inv(t)
  {
    var i := Decode(s, h);
    if DelinkS(s, l, h).0 == OK && At(s, i).owner == Some(l) {
      assert PrimSlotAt(s.slots, s.prim, i);
      var x := At(s, i).(owner := None);
      LeavePrim(s.slots, s.prim, l, i, x);
      FreePut(s.slots, s.free, i, x);
      AuxPut(s.slots, i, x);
      StatPut(s, i, x);
    }
  }

  // ---------- auxiliary lists ----------

  function JoinAux(slots: seq<Slot>, a: nat, i: nat): seq<Slot>
    requires a < |slots| && i < |slots| && a != i
  {
    slots[i := slots[i].(auxHead := a)][a := slots[a].(auxList := [i] + slots[a].auxList)]
  }

  function PartAux(slots: seq<Slot>, a: nat, i: nat): seq<Slot>
    requires a < |slots| && i < |slots| && a != i
  {
    slots[i := slots[i].(auxHead := 0)][a := slots[a].(auxList := Without(slots[a].auxList, {i}))]
  }

  lemma {:induction false} JoinAuxOk(slots: seq<Slot>, a: nat, i: nat)
    requires AuxOk(slots) && 0 < a < |slots| && i < |slots| && a != i && slots[i].auxHead == 0
    requires Active(slots[a]) && slots[a].typ == AUX_LINK_HEAD
    requires Active(slots[i]) && slots[i].typ >= RES_BY_HANDLE_LIB
    ensures AuxOk(JoinAux(slots, a, i))
  {
    var t := JoinAux(slots, a, i);
    assert AuxListAt(slots, a);
    NoDupConcat([i], slots[a].auxList);
    forall j | 0 <= j < |t| ensures AuxListAt(t, j) { assert AuxListAt(slots, j); }
    forall j | 0 <= j < |t| ensures AuxSlotAt(t, j) { assert AuxSlotAt(slots, j); }
  }

  lemma {:induction false} PartAuxOk(slots: seq<Slot>, i: nat)
    requires AuxOk(slots) && i < |slots| && slots[i].auxHead != 0
    ensures slots[i].auxHead < |slots| && slots[i].auxHead != i
    ensures AuxOk(PartAux(slots, slots[i].auxHead, i))
  {
    assert AuxSlotAt(slots, i);
    var a := slots[i].auxHead;
    var t := PartAux(slots, a, i);
    WithoutMembers(slots[a].auxList, {i});
    forall j | 0 <= j < |t| ensures AuxListAt(t, j) { assert AuxListAt(slots, j); }
    forall j | 0 <= j < |t| ensures AuxSlotAt(t, j) { assert AuxSlotAt(slots, j); }
  }

  /** Any change confined to auxiliary fields keeps the free list, the primary lists and
      the counters. */
  lemma {:induction false} AuxFieldsPut(s: State, i: nat, x: Slot)
    requires FreeOk(s.slots, s.free) && PrimOk(s.slots, s.prim)
    requires StatOk(s.slots, InUse(s), s.grp, s.peak, s.trace)
    requires i < |s.slots| && x.gen == s.slots[i].gen && x.typ == s.slots[i].typ && x.owner == s.slots[i].owner
    ensures var t := Put(s, i, x);
      FreeOk(t.slots, t.free) && PrimOk(t.slots, t.prim) && StatOk(t.slots, InUse(t), t.grp, t.peak, t.trace)
  {
    assert PrimSlotAt(s.slots, s.prim, i);
    FreePut(s.slots, s.free, i, x);
    PrimPut(s.slots, s.prim, i, x);
    StatPut(s, i, x);
  }

  lemma {:induction false} LinkAuxInv(s: State, ah: nat, h: nat)
    requires Inv(s) && s.halt == Running
    ensures Inv(LinkAuxS(s, ah, h).1)
  {
    var a, i := Decode(s, ah), Decode(s, h);
    if LinkAuxS(s, ah, h).0 == OK {
      JoinAuxOk(s.slots, a, i);
      var s1 := Put(s, i, At(s, i).(auxHead := a));
      AuxFieldsPut(s, i, At(s, i).(auxHead := a));
      AuxFieldsPut(s1, a, At(s1, a).(auxList := [i] + At(s1, a).auxList));
    }
  }

  /** Leaving an auxiliary list keeps the shape and changes only that list. */
  lemma {:induction false} LeaveAuxInv(s: State, i: nat)
    requires Inv(s) && i < |s.slots| && s.slots[i].auxHead != 0
    ensures Inv(LeaveAux(s, i))
    ensures At(s, i).auxHead != i && At(s, i).auxHead < |s.slots|
    ensures LeaveAux(s, i) == s.(slots := PartAux(s.slots, At(s, i).auxHead, i))
  {
    PartAuxOk(s.slots, i);
    var a := s.slots[i].auxHead;
    var s1 := Put(s, i, At(s, i).(auxHead := 0));
    AuxFieldsPut(s, i, At(s, i).(auxHead := 0));
    AuxFieldsPut(s1, a, At(s1, a).(auxList := Without(At(s1, a).auxList, {i})));
  }

  // ---------- freeing ----------

  lemma {:induction false} ReleaseFree(slots: seq<Slot>, free: seq<nat>, i: nat, x: Slot)
    requires FreeOk(slots, free) && i < |slots| && Active(slots[i]) && !Active(x)
    ensures FreeOk(slots[i := x], [i] + free)
  {
    assert i != 0 && i !in free;
    NoDupConcat([i], free);
  }

  lemma {:induction false} ReleaseStat(slots: seq<Slot>, used: int, grp: seq<nat>, peak: nat,
                                       trace: seq<Event>, i: nat, x: Slot)
    requires StatOk(slots, used, grp, peak, trace) && i < |slots|
    requires Active(slots[i]) && x.gen == slots[i].gen + 1
    ensures used > 0
    ensures StatOk(slots[i := x], used - 1, Drop(grp, slots[i].typ), peak, trace + [Used(used - 1, i)])
  {
    CountPut(slots, i, x, ALL_GROUPS);
    CountPut(slots, i, x, 0);
    CountPut(slots, i, x, 1);
    CountPositive(slots, i, ALL_GROUPS);
    var g := slots[i].typ / GROUP_SIZE;
    if g < NB_GROUPS { CountPositive(slots, i, g); }
    UsesPut(slots, trace, i, x, used - 1);
    assert (trace + [Used(used - 1, i)])[..|trace|] == trace;
  }

  lemma {:induction false} ReleaseInv(s: State, i: nat)
    requires Inv(s) && i < |s.slots| && Active(s.slots[i])
    requires s.slots[i].owner.None? && s.slots[i].auxHead == 0 && s.slots[i].auxList == []
    ensures Inv(Release(s, i))
  {
    hide FreeOk, PrimOk, AuxOk, StatOk, Count, MaxUsed, Drop;
    var x := s.slots[i].(gen := s.slots[i].gen + 1);
    ReleaseFree(s.slots, s.free, i, x);
    ReleaseStat(s.slots, InUse(s), s.grp, s.peak, s.trace, i, x);
    PrimPut(s.slots, s.prim, i, x);
    AuxPut(s.slots, i, x);
    assert InUse(Release(s, i)) == InUse(s) - 1;
  }

  /** Taking slot i off its auxiliary list, if it is on one. */
  lemma {:induction false} UnhookFacts(s: State, i: nat)
    requires Inv(s) && i < |s.slots|
    ensures var t := Unhook(s, i);
      && Inv(t) && t == s.(slots := t.slots) && |t.slots| == |s.slots|
      && At(t, i) == At(s, i).(auxHead := 0)
      && (forall j: nat :: j != i ==> At(t, j) == At(s, j).(auxList := At(t, j).auxList))
  {
    hide Inv, Without;
    if s.slots[i].auxHead != 0 { LeaveAuxInv(s, i); }
  }

  /** Retiring an active slot that heads no auxiliary list: either it was still linked and
      the library aborts, or it leaves its auxiliary list and is released. */
  lemma {:induction false} RetireFacts(s: State, i: nat)
    requires Inv(s) && s.halt == Running && i < |s.slots| && Active(s.slots[i]) && s.slots[i].auxList == []
    ensures Retire(s, i).halt == Running <==> s.slots[i].owner.None?
    ensures s.slots[i].owner.None? ==> Inv(Retire(s, i)) && InUse(Retire(s, i)) == InUse(s) - 1 >= 0
  {
    if s.slots[i].owner.None? {
      UnhookFacts(s, i);
      ReleaseInv(Unhook(s, i), i);
    }
  }
}
