/** The handle library on values: every linked list of mw/handle.c is a sequence of slot
    numbers, every API call is a function on states. HandleLib refines this model with
    the threaded slot array; HandleRuns proves what every run keeps. */
module HandleModel {
  import opened Seqs

  const NULL_HANDLE: nat := 0
  const MAX_INDEX: nat := 0xffff
  const GROW_BY: nat := 1000
  const GROW_AT: nat := 10
  const GROUP_SIZE: nat := 64
  const NB_GROUPS: nat := 2
  const INV_HANDLE_TYPE: nat := 0
  const AUX_LINK_HEAD: nat := 1
  const RES_BY_HANDLE_LIB: nat := 64
  const ALL_GROUPS: nat := 2

  /** The H_LINK_T record a client owns: head and tail of one primary list. */
  class HLink {
    var head: nat
    var tail: nat
    var count: nat
    var parsing: bool
    var freeAll: bool

    constructor ()
      ensures Lists([]) && !parsing && !freeAll
    {
      head, tail, count, parsing, freeAll := 0, 0, 0, false, false;
    }

    /** The header of the list q of slot numbers. */
    ghost predicate Lists(q: seq<nat>)
      reads this`head, this`tail, this`count
    {
      head == Nth(q, 0) && tail == Nth(q, |q| - 1) && count == |q|
    }

    /** handle_link_init */
    method Init()
      modifies this
      ensures Lists([]) && !parsing && !freeAll
    {
      head, tail, count, parsing, freeAll := 0, 0, 0, false, false;
    }

    /** The header's share of u_handle_link: slot i becomes the tail. */
    method Append(i: nat, ghost q: seq<nat>)
      requires Lists(q) && 0 !in q
      modifies this`head, this`tail, this`count
      ensures Lists(q + [i])
    {
      if tail == 0 {
        head := i;
      }
      tail := i;
      count := count + 1;
    }

    /** The header's share of u_handle_delink: the member at position k, which has the given
        neighbours, leaves. */
    method Remove(next: nat, prev: nat, ghost q: seq<nat>, ghost k: nat)
      requires Lists(q) && k < |q| && 0 !in q && next == Nth(q, k + 1) && prev == Nth(q, k - 1)
      modifies this`head, this`tail, this`count
      ensures Lists(q[..k] + q[k + 1..])
    {
      if next == 0 {
        tail := prev;
      }
      if prev == 0 {
        head := next;
      }
      if count > 0 {
        count := count - 1;
      }
    }
  }

  datatype Code =
    | OK | InvHandle | OutOfHandles | RecursionError | NotAllowed | AlreadyLinked
    | NotLinked | FreeNotAllowed | InvAuxHead | InvHandleType

  /** Why a run stopped: an ABORT of the library (StillLinked, ParseOp, ParseRet); a parse
      whose saved next slot has left the list, so that the code would follow whatever its
      link field holds by then (LostCursor); or a call the library's documentation forbids
      and does not check (Outside). */
  datatype Halt = Running | StillLinked | ParseOp | ParseRet | LostCursor | Outside

  /** One H_CTRL_T. gen counts all bumps of the slot; the 8-bit ui1_count is gen % 256.
      owner is the list the LINKED flag stands for; auxList is what an aux head heads. */
  datatype Slot = Slot(gen: nat, typ: nat, obj: int, tag: int, freeing: bool, parsing: bool,
                       owner: Option<HLink>, auxHead: nat, auxList: seq<nat>)

  const BLANK := Slot(0, INV_HANDLE_TYPE, 0, 0, false, false, None, 0, [])

  /** What a run leaves behind: for an alloc or a free the slot and the number of slots then
      in use, and the arguments of each parse callback with the list as it stood at the call. */
  datatype Event =
    | Used(n: nat, slot: nat)
    | Visit(l: HLink, idx: nat, count: nat, slot: nat, members: seq<nat>)

  datatype State = State(slots: seq<Slot>, free: seq<nat>, prim: map<HLink, seq<nat>>,
                         parsing: set<HLink>, freeAll: set<HLink>, peak: nat, grp: seq<nat>,
                         trace: seq<Event>, halt: Halt)

  // ---------- slots and handles ----------

  /** Slot i of the array; every index the library uses is inside it (see Inv). */
  function At(s: State, i: nat): Slot {
    if i < |s.slots| then s.slots[i] else BLANK
  }

  function Put(s: State, i: nat, x: Slot): State {
    if i < |s.slots| then s.(slots := s.slots[i := x]) else s
  }

  predicate Active(x: Slot) {
    x.gen % 2 == 1
  }

  function Total(s: State): int {
    |s.slots| - 1
  }

  function InUse(s: State): int {
    Total(s) - |s.free|
  }

  function Members(s: State, l: HLink): seq<nat> {
    if l in s.prim then s.prim[l] else []
  }

  function SetMembers(s: State, l: HLink, q: seq<nat>): State {
    s.(prim := s.prim[l := q])
  }

  /** make_handle: slot number in the low half, ui1_count above it. */
  function MakeHandle(s: State, i: nat): nat {
    HandleOf(i, At(s, i).gen)
  }

  function HandleOf(i: nat, gen: nat): nat {
    i % 0x10000 + (gen % 256) * 0x10000
  }

  /** get_h_ctrl_from_handle: the slot a handle value names, or 0. */
  function Decode(s: State, h: nat): nat {
    var i := h % 0x10000;
    if h / 0x1000000 == 0 && i > 0 && i <= Total(s)
       && At(s, i).gen % 256 == (h / 0x10000) % 256 && Active(At(s, i))
    then i else 0
  }

  // ---------- statistics ----------

  predicate InGroup(x: Slot, g: nat) {
    Active(x) && (g == ALL_GROUPS || x.typ / GROUP_SIZE == g)
  }

  /** Number of active slots of a group (of all groups for ALL_GROUPS). */
  function Count(slots: seq<Slot>, g: nat): nat {
    if slots == [] then 0
    else Count(slots[..|slots| - 1], g) + (if InGroup(slots[|slots| - 1], g) then 1 else 0)
  }

  function Bump(grp: seq<nat>, typ: nat): seq<nat> {
    var g := typ / GROUP_SIZE;
    if g < NB_GROUPS && g < |grp| then grp[g := grp[g] + 1] else grp
  }

  function Drop(grp: seq<nat>, typ: nat): seq<nat> {
    var g := typ / GROUP_SIZE;
    if g < NB_GROUPS && g < |grp| && grp[g] > 0 then grp[g := grp[g] - 1] else grp
  }

  function Log(s: State, e: Event): State {
    s.(trace := s.trace + [e])
  }

  function LogUsed(s: State, i: nat): State {
    Log(s, Used(if InUse(s) >= 0 then InUse(s) else 0, i))
  }

  /** Highest number of slots in use that a run has recorded. */
  function MaxUsed(trace: seq<Event>): nat {
    if trace == [] then 0
    else
      var m := MaxUsed(trace[..|trace| - 1]);
      match trace[|trace| - 1]
      case Used(n, _) => if n > m then n else m
      case Visit(_, _, _, _, _) => m
  }

  /** How often slot i was allocated or freed. */
  function Uses(trace: seq<Event>, i: nat): nat {
    if trace == [] then 0
    else
      var e := trace[|trace| - 1];
      Uses(trace[..|trace| - 1], i) + (if e.Used? && e.slot == i then 1 else 0)
  }

  /** The parse callbacks made for list l, in order. */
  function Visits(trace: seq<Event>, l: HLink): seq<Event> {
    if trace == [] then []
    else
      var rest := Visits(trace[..|trace| - 1], l);
      var e := trace[|trace| - 1];
      if e.Visit? && e.l == l then rest + [e] else rest
  }

  // ---------- allocation and growth ----------

  /** n, n - 1, ..., low + 1: the order in which initialisation threads the free list. */
  function Down(low: nat, n: nat): seq<nat>
    decreases n
  {
    if n <= low then [] else [n] + Down(low, n - 1)
  }

  function Init(n: nat): State {
    State(seq(n + 1, _ => BLANK), Down(0, n), map[], {}, {}, 0, [0, 0], [], Running)
  }

  /** realloc_handle(1000): new inactive slots, threaded in front of the free list. */
  function Grow(s: State): State
    requires |s.slots| > 0
  {
    s.(slots := s.slots + seq(GROW_BY, _ => BLANK),
       free := Down(Total(s), Total(s) + GROW_BY) + s.free)
  }

  /** Room for one more slot without growing past the 16-bit index range. */
  predicate CanAlloc(s: State) {
    |s.free| > GROW_AT + 1 || Total(s) + GROW_BY <= MAX_INDEX
  }

  /** The free list popped, and refilled by growth when at most GROW_AT slots are left. */
  function Ready(s: State): State
    requires |s.slots| > 0 && |s.free| > 0
  {
    var s1 := s.(free := s.free[1..]);
    if |s1.free| <= GROW_AT then Grow(s1) else s1
  }

  function Fresh(x: Slot, typ: nat, obj: int, tag: int): Slot {
    Slot(x.gen + 1, typ, obj, tag, false, false, None, 0, [])
  }

  /** The popped slot i becomes active; the statistics follow. */
  function Reuse(r: State, i: nat, typ: nat, obj: int, tag: int): State {
    LogUsed(Put(r.(grp := Bump(r.grp, typ), peak := if InUse(r) > r.peak then InUse(r) else r.peak),
                i, Fresh(At(r, i), typ, obj, tag)), i)
  }

  function AllocS(s: State, typ: nat, obj: int, tag: int): (Code, nat, State) {
    if typ == INV_HANDLE_TYPE then (InvHandleType, NULL_HANDLE, s)
    else if s.free == [] || s.slots == [] then (OutOfHandles, NULL_HANDLE, s)
    else if !CanAlloc(s) then (OutOfHandles, NULL_HANDLE, s.(halt := Outside))
    else
      var i := s.free[0];
      var t := Reuse(Ready(s), i, typ, obj, tag);
      (OK, MakeHandle(t, i), t)
  }

  // ---------- primary lists ----------

  function LinkInitS(s: State, l: HLink): State {
    if l in s.prim then s.(halt := Outside) else SetMembers(s, l, [])
  }

  /** Slot i at the tail of list l. */
  function Linked(s: State, l: HLink, i: nat): State {
    SetMembers(Put(s, i, At(s, i).(owner := Some(l))), l, Members(s, l) + [i])
  }

  /** Slot i taken out of list l. */
  function Delinked(s: State, l: HLink, i: nat): State {
    SetMembers(Put(s, i, At(s, i).(owner := None)), l, Without(Members(s, l), {i}))
  }

  function LinkS(s: State, l: HLink, h: nat): (Code, State) {
    var i := Decode(s, h);
    if i == 0 || At(s, i).typ < RES_BY_HANDLE_LIB then (InvHandle, s)
    else if At(s, i).owner.Some? then (AlreadyLinked, s)
    else if l !in s.prim then (OK, s.(halt := Outside))
    else (OK, Linked(s, l, i))
  }

  function DelinkS(s: State, l: HLink, h: nat): (Code, State) {
    var i := Decode(s, h);
    if i == 0 || At(s, i).typ < RES_BY_HANDLE_LIB then (InvHandle, s)
    else if At(s, i).owner.None? then (NotLinked, s)
    else if l in s.parsing && !At(s, i).parsing then (NotAllowed, s)
    else if At(s, i).owner != Some(l) then (OK, s.(halt := Outside))
    else (OK, Delinked(s, l, i))
  }

  // ---------- auxiliary lists ----------

  function LinkAuxS(s: State, ah: nat, h: nat): (Code, State) {
    var a := Decode(s, ah);
    var i := Decode(s, h);
    if a == 0 || At(s, a).typ != AUX_LINK_HEAD then (InvAuxHead, s)
    else if i == 0 || At(s, i).typ < RES_BY_HANDLE_LIB then (InvHandle, s)
    else if At(s, i).auxHead != 0 then (AlreadyLinked, s)
    else
      var s1 := Put(s, i, At(s, i).(auxHead := a));
      (OK, Put(s1, a, At(s1, a).(auxList := [i] + At(s1, a).auxList)))
  }

  /** delink_from_aux for a slot known to be on an auxiliary list. */
  function LeaveAux(s: State, i: nat): State {
    var a := At(s, i).auxHead;
    var s1 := Put(s, i, At(s, i).(auxHead := 0));
    Put(s1, a, At(s1, a).(auxList := Without(At(s1, a).auxList, {i})))
  }

  function DelinkAuxS(s: State, h: nat): (Code, State) {
    var i := Decode(s, h);
    if i == 0 || At(s, i).typ < RES_BY_HANDLE_LIB then (InvHandle, s)
    else if At(s, i).auxHead == 0 then (NotLinked, s)
    else (OK, LeaveAux(s, i))
  }

  /** The member after x in q, or 0. */
  function After(q: seq<nat>, x: nat): nat {
    if |q| < 2 then 0
    else if q[0] == x then q[1]
    else After(q[1..], x)
  }

  function AuxNext(s: State, i: nat): nat {
    if At(s, i).auxHead != 0 then After(At(s, At(s, i).auxHead).auxList, i)
    else Nth(At(s, i).auxList, 0)
  }

  function NextAuxS(s: State, h: nat): (Code, nat) {
    var i := Decode(s, h);
    if i == 0 then (InvHandle, NULL_HANDLE)
    else if AuxNext(s, i) == 0 then (OK, NULL_HANDLE)
    else (OK, MakeHandle(s, AuxNext(s, i)))
  }

  function SetObjS(s: State, h: nat, obj: int): (Code, State) {
    var i := Decode(s, h);
    if i == 0 then (InvHandle, s) else (OK, Put(s, i, At(s, i).(obj := obj)))
  }

  // ---------- freeing, split at the callback ----------

  function MarkFreeing(s: State, i: nat, b: bool): State {
    Put(s, i, At(s, i).(freeing := b))
  }

  function MarkParsing(s: State, i: nat, b: bool): State {
    Put(s, i, At(s, i).(parsing := b))
  }

  function Unhook(s: State, i: nat): State {
    if At(s, i).auxHead != 0 then LeaveAux(s, i) else s
  }

  /** Invalidate slot i and push it on the free list. FREEING and PARSING stay as they are. */
  function Release(s: State, i: nat): State {
    LogUsed(Put(s, i, At(s, i).(gen := At(s, i).gen + 1))
              .(free := [i] + s.free, grp := Drop(s.grp, At(s, i).typ)), i)
  }

  /** After an accepting callback: abort if the slot is still on a primary list. */
  function Retire(s: State, i: nat): State {
    if At(s, i).owner.Some? then s.(halt := StillLinked) else Release(Unhook(s, i), i)
  }

  // ---------- runs: callbacks are scripts of library calls ----------

  datatype ParseResult = HPNext | HPBreak | HPRestart | HPOther

  /** One API call of a run, with what its callbacks did in that run. */
  datatype Op =
    | LinkInit(l: HLink)
    | Alloc(typ: nat, obj: int, tag: int)
    | AllocAuxHead(obj: int, tag: int)
    | Link(l: HLink, h: nat)
    | Delink(l: HLink, h: nat)
    | LinkAux(ah: nat, h: nat)
    | DelinkAux(h: nat)
    | SetObj(h: nat, obj: int)
    | Free(h: nat, cb: FreeCb)
    | FreeAll(l: HLink, frees: seq<FreeCb>)
    | Parse(l: HLink, parses: seq<ParseCb>)

  datatype FreeCb = FreeCb(ops: seq<Op>, accept: bool)
  datatype ParseCb = ParseCb(ops: seq<Op>, result: ParseResult)

  function Exec(s: State, op: Op): State
    decreases op, 1
  {
    if s.halt != Running then s
    else
      match op
      case LinkInit(l) => LinkInitS(s, l)
      case Alloc(typ, obj, tag) =>
        if typ == AUX_LINK_HEAD then s.(halt := Outside) else AllocS(s, typ, obj, tag).2
      case AllocAuxHead(obj, tag) => AllocS(s, AUX_LINK_HEAD, obj, tag).2
      case Link(l, h) => LinkS(s, l, h).1
      case Delink(l, h) => DelinkS(s, l, h).1
      case LinkAux(ah, h) => LinkAuxS(s, ah, h).1
      case DelinkAux(h) => DelinkAuxS(s, h).1
      case SetObj(h, obj) => SetObjS(s, h, obj).1
      case Free(h, cb) => FreeS(s, h, cb).1
      case FreeAll(l, frees) => FreeAllS(s, l, frees).1
      case Parse(l, parses) => ParseS(s, l, parses).1
  }

  function ExecAll(s: State, ops: seq<Op>): State
    decreases ops, 0
  {
    if ops == [] then s else ExecAll(Exec(s, ops[0]), ops[1..])
  }

  /** u_handle_free. The callback of an auxiliary head is the library's own
      aux_link_head_free, which accepts exactly when nothing is attached. */
  function FreeS(s: State, h: nat, cb: FreeCb): (Code, State)
    decreases cb, 2
  {
    var i := Decode(s, h);
    if i == 0 then (InvHandle, s)
    else if At(s, i).freeing then (FreeNotAllowed, s)
    else
      var (ok, s1) := CallFree(s, i, cb);
      (if ok then OK else FreeNotAllowed, s1)
  }

  /** FREEING on, the callback, then the slot is retired or FREEING is taken back. */
  function CallFree(s: State, i: nat, cb: FreeCb): (bool, State)
    decreases cb, 1
  {
    var s1 := MarkFreeing(s, i, true);
    if At(s, i).typ == AUX_LINK_HEAD then
      if At(s1, i).auxList == [] then (true, Retire(s1, i)) else (false, MarkFreeing(s1, i, false))
    else
      var s2 := ExecAll(s1, cb.ops);
      if s2.halt != Running then (false, s2)
      else if cb.accept then (true, Retire(s2, i))
      else (false, MarkFreeing(s2, i, false))
  }

  function FreeAllS(s: State, l: HLink, frees: seq<FreeCb>): (Code, State)
    decreases frees, 1
  {
    if l !in s.prim then (OK, s.(halt := Outside))
    else if l in s.parsing then (NotAllowed, s)
    else if l in s.freeAll then (RecursionError, s)
    else
      var (ok, s1) := FreeAllLoop(s.(freeAll := s.freeAll + {l}), l, frees);
      (if ok then OK else FreeNotAllowed,
       if s1.halt != Running then s1 else s1.(freeAll := s1.freeAll - {l}))
  }

  /** The loop of u_handle_free_all; a run that records no more callbacks stops there, as
      after a refusal. */
  function FreeAllLoop(s: State, l: HLink, frees: seq<FreeCb>): (bool, State)
    decreases frees, 0
  {
    var m := Members(s, l);
    if s.halt != Running then (false, s)
    else if m == [] then (true, s)
    else if At(s, m[0]).freeing then (false, s)
    else if frees == [] then (false, s)
    else
      var (ok, s1) := CallFree(s, m[0], frees[0]);
      if ok then FreeAllLoop(s1, l, frees[1..]) else (false, s1)
  }

  function ParseS(s: State, l: HLink, parses: seq<ParseCb>): (Code, State)
    decreases parses, 2
  {
    if l !in s.prim then (OK, s.(halt := Outside))
    else if l in s.parsing then (RecursionError, s)
    else
      var s1 := s.(parsing := s.parsing + {l});
      var s2 := ParseLoop(s1, l, Nth(Members(s1, l), 0), 0, parses);
      (OK, if s2.halt != Running then s2 else s2.(parsing := s2.parsing - {l}))
  }

  /** One callback of handle_parse: PARSING on, the call, PARSING off. */
  function CallParse(s: State, l: HLink, cur: nat, idx: nat, cb: ParseCb): State
    decreases cb, 0
  {
    var m := Members(s, l);
    var s1 := Log(MarkParsing(s, cur, true), Visit(l, idx, |m|, cur, m));
    var s2 := ExecAll(s1, cb.ops);
    if s2.halt != Running then s2 else MarkParsing(s2, cur, false)
  }

  /** The loop of handle_parse. A run that records no more callbacks stops there. */
  function ParseLoop(s: State, l: HLink, cur: nat, idx: nat, parses: seq<ParseCb>): State
    decreases parses, 1
  {
    if s.halt != Running || cur == 0 then s
    else if cur !in Members(s, l) then s.(halt := LostCursor)
    else if parses == [] then s
    else
      var next := After(Members(s, l), cur);
      var before := |Members(s, l)|;
      var s1 := CallParse(s, l, cur, idx, parses[0]);
      var after := |Members(s1, l)|;
      if s1.halt != Running then s1
      else
        match parses[0].result
        case HPNext =>
          if after >= before then ParseLoop(s1, l, next, idx + 1, parses[1..])
          else if before - after == 1 then ParseLoop(s1, l, next, idx, parses[1..])
          else s1.(halt := ParseOp)
        case HPBreak => s1
        case HPRestart => ParseLoop(s1, l, Nth(Members(s1, l), 0), 0, parses[1..])
        case HPOther => s1.(halt := ParseRet)
  }
}
