/** Consequences of HandleRuns that clients of the library rely on. */
module HandleTheorems {
  import opened HandleModel
  import opened HandleInv
  import opened HandleRuns

  // ---------- whole runs ----------

  /** No call is in progress. */
  ghost predicate Quiet(s: State) {
    && s.parsing == {} && s.freeAll == {}
    && forall i: nat :: !At(s, i).parsing && !(Active(At(s, i)) && At(s, i).freeing)
  }

  /** Every run from u_handle_usr_init that does not stop ends in a well-shaped library with
      no leftover PARSING, FREE_ALL or FREEING mark. */
  lemma {:induction false} RunKeepsShape(n: nat, ops: seq<Op>)
    requires 0 < n < MAX_INDEX && ExecAll(Init(n), ops).halt == Running
    ensures Inv(ExecAll(Init(n), ops)) && Quiet(ExecAll(Init(n), ops))
  {
    var s, t := Init(n), ExecAll(Init(n), ops);
    InitInv(n);
    ExecAllKeeps(s, ops);
    forall i: nat ensures !At(t, i).parsing && !(Active(At(t, i)) && At(t, i).freeing) {
      assert SlotKept(At(s, i), At(t, i));
      assert At(s, i) == BLANK;
    }
  }

  // ---------- handle values ----------

  /** The handle of an active slot is never NULL and decodes to that slot, and is the only value
      that does: the slot number in the low 16 bits, its count modulo 256 above, then zeros. */
  lemma {:induction false} HandleDecodes(s: State, i: nat)
    requires Inv(s) && i < |s.slots| && Active(s.slots[i])
    ensures MakeHandle(s, i) != NULL_HANDLE && Decode(s, MakeHandle(s, i)) == i
    ensures forall h: nat :: Decode(s, h) == i <==> h == i + s.slots[i].gen % 256 * 65536
  {
    HandleParts(i, s.slots[i].gen);
    forall h: nat ensures Decode(s, h) == i <==> h == i + s.slots[i].gen % 256 * 65536 {
      WordOf(h);
    }
  }

  lemma {:induction false} WordOf(h: nat)
    ensures h == h % 0x10000 + h / 0x10000 * 0x10000
    ensures h / 0x1000000 == 0 <==> h / 0x10000 < 256
    ensures h / 0x1000000 == 0 ==> h / 0x10000 % 256 == h / 0x10000
  {}

  lemma {:induction false} HandleParts(i: nat, g: nat)
    requires i <= MAX_INDEX
    ensures var h := HandleOf(i, g); h % 0x10000 == i && h / 0x10000 == g % 256 && h / 0x1000000 == 0
  {}

  lemma {:induction false} SameGenSameHandle(s: State, t: State, i: nat)
    requires At(s, i).gen == At(t, i).gen
    ensures MakeHandle(s, i) == MakeHandle(t, i)
  {}

  /** Two active slots never share a handle value. */
  lemma {:induction false} HandlesDistinct(s: State, i: nat, j: nat)
    requires Inv(s) && i < |s.slots| && j < |s.slots| && Active(s.slots[i]) && Active(s.slots[j])
    ensures MakeHandle(s, i) == MakeHandle(s, j) <==> i == j
  {
    HandleDecodes(s, i);
    HandleDecodes(s, j);
  }

  /** When a handle that was valid before a run is valid after it: exactly when its slot is
      active and its generation has advanced by a multiple of 256. */
  lemma {:induction false} HandleAfterRun(s: State, ops: seq<Op>, h: nat)
    requires Inv(s) && s.halt == Running && Decode(s, h) != 0 && ExecAll(s, ops).halt == Running
    ensures var i, t := Decode(s, h), ExecAll(s, ops);
      && At(s, i).gen <= At(t, i).gen
      && (Decode(t, h) == i <==> Active(At(t, i)) && (At(t, i).gen - At(s, i).gen) % 256 == 0)
      && (Decode(t, h) != i <==> Decode(t, h) == 0)
  {
    hide Inv, Decode, ExecAll, LinksAll, ListKept, Flagged;
    var i, t := Decode(s, h), ExecAll(s, ops);
    ExecAllKeeps(s, ops);
    assert SlotKept(At(s, i), At(t, i));
    DecodeLater(s, t, h);
    ModEqual(At(s, i).gen, At(t, i).gen);
  }

  /** A handle that named a slot names it still exactly if the slot is active with the same
      8-bit count; it never names another one. */
  lemma {:induction false} DecodeLater(s: State, t: State, h: nat)
    requires Decode(s, h) != 0 && |s.slots| <= |t.slots|
    ensures var i := Decode(s, h);
      Decode(t, h) == (if Active(At(t, i)) && At(t, i).gen % 256 == At(s, i).gen % 256 then i else 0)
  {}

  lemma {:induction false} ModEqual(a: nat, b: nat)
    requires a <= b
    ensures b % 256 == a % 256 <==> (b - a) % 256 == 0
  {
    var p, q := a / 256, b / 256;
    assert a == 256 * p + a % 256 && b == 256 * q + b % 256;
    assert b - a == 256 * (q - p) + (b % 256 - a % 256);
  }

  /** How often slot i was allocated or freed between two states of a run. */
  function UsedBetween(s: State, t: State, i: nat): int {
    Uses(t.trace, i) - Uses(s.trace, i)
  }

  /** A handle stays valid, with its type, as long as its slot is not freed; once freed it is
      rejected until the slot was freed and allocated again 128 times. */
  lemma {:induction false} StaleHandleRejected(s: State, ops: seq<Op>, h: nat)
    requires Inv(s) && s.halt == Running && Decode(s, h) != 0 && ExecAll(s, ops).halt == Running
    ensures var i, t := Decode(s, h), ExecAll(s, ops); var n := UsedBetween(s, t, i);
      && n >= 0
      && (n == 0 ==> Decode(t, h) == i && At(t, i).typ == At(s, i).typ)
      && (0 < n < 256 ==> Decode(t, h) == 0)
      && (Decode(t, h) == i <==> n % 256 == 0)
      && (Decode(t, h) == i || Decode(t, h) == 0)
  {
    hide Inv, Decode, ExecAll, LinksAll, ListKept, Flagged, Uses;
    var i, t := Decode(s, h), ExecAll(s, ops);
    HandleAfterRun(s, ops, h);
    ExecAllKeeps(s, ops);
    GenCounts(s, i);
    GenCounts(t, i);
    assert SlotKept(At(s, i), At(t, i));
    DecodedActive(s, h);
  }

  /** The generation of a slot is the number of its allocations and frees so far. */
  lemma {:induction false} GenCounts(s: State, i: nat)
    requires Inv(s)
    ensures At(s, i).gen == Uses(s.trace, i)
  {
    assert UsesAt(s.slots, s.trace, i);
  }

  lemma {:induction false} DecodedActive(s: State, h: nat)
    requires Decode(s, h) != 0
    ensures 0 < Decode(s, h) <= Total(s) && Active(At(s, Decode(s, h)))
  {}

  /** Allocation succeeds whenever the array may still grow (or need not) and never answers
      OutOfHandles; the handle it issues names the first free slot. */
  lemma {:induction false} AllocSucceeds(s: State, typ: nat, obj: int, tag: int)
    requires Inv(s) && s.halt == Running && typ != INV_HANDLE_TYPE
    ensures AllocS(s, typ, obj, tag).2.halt == Running <==> CanAlloc(s)
    ensures CanAlloc(s) ==> AllocS(s, typ, obj, tag).0 == OK && Inv(AllocS(s, typ, obj, tag).2)
    ensures CanAlloc(s) ==> var (c, h, t) := AllocS(s, typ, obj, tag);
      Decode(t, h) == s.free[0] && At(t, s.free[0]) == Fresh(At(s, s.free[0]), typ, obj, tag)
  {
    hide HandleOf, Inv, Ready, Reuse, Decode;
    FreeHead(s);
    if CanAlloc(s) {
      AllocInv(s, typ, obj, tag);
      AllocFacts(s, typ, obj, tag);
      hide AllocS;
      HandleDecodes(AllocS(s, typ, obj, tag).2, s.free[0]);
    }
  }

  /** Allocation, with or without growth, is invisible to every handle already issued. */
  lemma {:induction false} AllocTransparent(s: State, typ: nat, obj: int, tag: int, k: nat)
    requires Inv(s) && s.halt == Running && typ != INV_HANDLE_TYPE && CanAlloc(s) && Decode(s, k) != 0
    ensures var t := AllocS(s, typ, obj, tag).2;
      Decode(t, k) == Decode(s, k) && At(t, Decode(s, k)) == At(s, Decode(s, k))
  {
    hide AllocS, Inv;
    AllocFacts(s, typ, obj, tag);
  }

  // ---------- reuse of a slot ----------

  /** Allocate a handle and free it again, with a callback that just accepts. */
  function Cycle(s: State, typ: nat, obj: int, tag: int): State {
    var (c, h, t) := AllocS(s, typ, obj, tag);
    FreeS(t, h, FreeCb([], true)).1
  }

  function Cycles(s: State, n: nat, typ: nat, obj: int, tag: int): State {
    if n == 0 then s else Cycle(Cycles(s, n - 1, typ, obj, tag), typ, obj, tag)
  }

  /** The free list is last-in first-out: a cycle gives back the slot it took. */
  lemma {:induction false} CycleReusesSlot(s: State, typ: nat, obj: int, tag: int)
    requires Inv(s) && s.halt == Running && CanAlloc(s) && typ != INV_HANDLE_TYPE && typ != AUX_LINK_HEAD
    ensures var t := Cycle(s, typ, obj, tag);
      && Inv(t) && t.halt == Running && CanAlloc(t)
      && t.free[0] == s.free[0] && At(t, s.free[0]).gen == At(s, s.free[0]).gen + 2
  {
    hide AllocS;
    AllocInv(s, typ, obj, tag);
    AllocSucceeds(s, typ, obj, tag);
    var (c, h, s1) := AllocS(s, typ, obj, tag);
    var i := s.free[0];
    AllocFacts(s, typ, obj, tag);
    hide Inv;
    var s2 := MarkFreeing(s1, i, true);
    PutInv(s1, i, At(s1, i).(freeing := true));
    RetireFacts(s2, i);
    RetireSlots(s2, i);
    assert Cycle(s, typ, obj, tag) == Retire(s2, i);
  }

  lemma {:induction false} CyclesReuseSlot(s: State, n: nat, typ: nat, obj: int, tag: int)
    requires Inv(s) && s.halt == Running && CanAlloc(s) && typ != INV_HANDLE_TYPE && typ != AUX_LINK_HEAD
    ensures var t := Cycles(s, n, typ, obj, tag);
      && Inv(t) && t.halt == Running && CanAlloc(t)
      && t.free[0] == s.free[0] && At(t, s.free[0]).gen == At(s, s.free[0]).gen + 2 * n
  {
    hide Cycle;
    if n > 0 {
      CyclesReuseSlot(s, n - 1, typ, obj, tag);
      CycleReusesSlot(Cycles(s, n - 1, typ, obj, tag), typ, obj, tag);
    }
  }

  /** So a client that frees and reallocates gets the very same handle value again after
      exactly 128 cycles, and never before: the bound of StaleHandleRejected is tight. */
  lemma {:induction false} HandleReissued(s: State, n: nat, typ: nat, obj: int, tag: int)
    requires Inv(s) && s.halt == Running && CanAlloc(s) && typ != INV_HANDLE_TYPE && typ != AUX_LINK_HEAD
    ensures AllocS(Cycles(s, n, typ, obj, tag), typ, obj, tag).1 == AllocS(s, typ, obj, tag).1 <==> n % 128 == 0
  {
    hide *;
    CyclesReuseSlot(s, n, typ, obj, tag);
    AllocInv(s, typ, obj, tag);
    AllocInv(Cycles(s, n, typ, obj, tag), typ, obj, tag);
    SameHandle(s.free[0], At(s, s.free[0]).gen + 1, n);
  }

  lemma {:induction false} SameHandle(i: nat, g: nat, n: nat)
    ensures HandleOf(i, g + 2 * n) == HandleOf(i, g) <==> n % 128 == 0
  {
    var a, b := (g + 2 * n) % 256, g % 256;
    assert HandleOf(i, g + 2 * n) == HandleOf(i, g) <==> a == b;
    hide HandleOf;
    ModEqual(g, g + 2 * n);
    TwiceMod(n);
  }

  lemma {:induction false} TwiceMod(n: nat)
    ensures (2 * n) % 256 == 0 <==> n % 128 == 0
  {
    assert n == 128 * (n / 128) + n % 128;
  }
}
