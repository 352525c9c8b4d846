/** The slot array of mw/handle.c with its index links, and what it means for that array to
    represent a state of HandleModel. */
module HandleThreads {
  import opened Seqs
  import opened HandleModel
  import opened HandleInv

  /** H_CTRL_T: link fields are slot numbers, 0 for none; count is the 8-bit ui1_count. */
  datatype HCtrl = HCtrl(tag: int, obj: int, hNext: nat, hPrev: nat, auxNext: nat, auxPrev: nat,
                         auxHead: nat, auxCount: nat, typ: nat, count: nat,
                         active: bool, parsing: bool, linked: bool, freeing: bool)

  ghost predicate SlotRep(c: HCtrl, x: Slot) {
    && c.tag == x.tag && c.obj == x.obj && c.typ == x.typ && c.count == x.gen % 256
    && c.active == Active(x) && c.parsing == x.parsing && c.freeing == x.freeing
    && c.linked == x.owner.Some? && c.auxHead == x.auxHead && c.auxCount == |x.auxList|
  }

  ghost predicate FreeAt(c: seq<HCtrl>, q: seq<nat>, k: nat)
    requires k < |q|
  {
    q[k] < |c| && c[q[k]].hNext == Nth(q, k + 1)
  }

  ghost predicate PrimAt(c: seq<HCtrl>, q: seq<nat>, k: nat)
    requires k < |q|
  {
    q[k] < |c| && c[q[k]].hNext == Nth(q, k + 1) && c[q[k]].hPrev == Nth(q, k - 1)
  }

  ghost predicate AuxAt(c: seq<HCtrl>, q: seq<nat>, k: nat)
    requires k < |q|
  {
    q[k] < |c| && c[q[k]].auxNext == Nth(q, k + 1) && c[q[k]].auxPrev == Nth(q, k - 1)
  }

  ghost predicate FreeThread(c: seq<HCtrl>, q: seq<nat>) {
    forall k :: 0 <= k < |q| ==> FreeAt(c, q, k)
  }

  ghost predicate PrimThread(c: seq<HCtrl>, q: seq<nat>) {
    forall k :: 0 <= k < |q| ==> PrimAt(c, q, k)
  }

  ghost predicate AuxThread(c: seq<HCtrl>, q: seq<nat>) {
    forall k :: 0 <= k < |q| ==> AuxAt(c, q, k)
  }

  /** A slot on no auxiliary list points at the first slot it heads, or nowhere. */
  ghost predicate AuxEntry(c: HCtrl, x: Slot) {
    x.auxHead == 0 ==> c.auxPrev == 0 && c.auxNext == Nth(x.auxList, 0)
  }

  ghost predicate SlotsRep(c: seq<HCtrl>, slots: seq<Slot>) {
    |c| == |slots| && forall i :: 0 <= i < |c| ==> SlotRep(c[i], slots[i])
  }

  ghost predicate PrimRep(c: seq<HCtrl>, prim: map<HLink, seq<nat>>) {
    forall l :: l in prim ==> PrimThread(c, prim[l])
  }

  ghost predicate AuxRep(c: seq<HCtrl>, slots: seq<Slot>) {
    |c| == |slots| && forall a :: 0 <= a < |c| ==> AuxEntry(c[a], slots[a]) && AuxThread(c, slots[a].auxList)
  }

  ghost predicate Rep(c: seq<HCtrl>, s: State) {
    SlotsRep(c, s.slots) && FreeThread(c, s.free) && PrimRep(c, s.prim) && AuxRep(c, s.slots)
  }

  // ---------- what may change without disturbing a thread ----------

  ghost predicate SameH(a: HCtrl, b: HCtrl) {
    a.hNext == b.hNext && a.hPrev == b.hPrev
  }

  ghost predicate SameAux(a: HCtrl, b: HCtrl) {
    a.auxNext == b.auxNext && a.auxPrev == b.auxPrev
  }

  lemma {:induction false} FreeFrame(c: seq<HCtrl>, d: seq<HCtrl>, q: seq<nat>)
    requires FreeThread(c, q) && forall i :: i in q && i < |c| ==> i < |d| && d[i].hNext == c[i].hNext
    ensures FreeThread(d, q)
  {
    forall k | 0 <= k < |q| ensures FreeAt(d, q, k) { assert FreeAt(c, q, k) && q[k] in q; }
  }

  lemma {:induction false} PrimFrame(c: seq<HCtrl>, d: seq<HCtrl>, q: seq<nat>)
    requires PrimThread(c, q) && forall i :: i in q && i < |c| ==> i < |d| && SameH(c[i], d[i])
    ensures PrimThread(d, q)
  {
    forall k | 0 <= k < |q| ensures PrimAt(d, q, k) { assert PrimAt(c, q, k) && q[k] in q; }
  }

  lemma {:induction false} AuxFrame(c: seq<HCtrl>, d: seq<HCtrl>, q: seq<nat>)
    requires AuxThread(c, q) && forall i :: i in q && i < |c| ==> i < |d| && SameAux(c[i], d[i])
    ensures AuxThread(d, q)
  {
    forall k | 0 <= k < |q| ensures AuxAt(d, q, k) { assert AuxAt(c, q, k) && q[k] in q; }
  }

  /** If no primary link changes, neither the free list nor a primary list does. */
  lemma {:induction false} FrameH(c: seq<HCtrl>, d: seq<HCtrl>, free: seq<nat>, prim: map<HLink, seq<nat>>)
    requires FreeThread(c, free) && PrimRep(c, prim)
    requires |d| == |c| && forall j :: 0 <= j < |c| ==> SameH(c[j], d[j])
    ensures FreeThread(d, free) && PrimRep(d, prim)
  {
    FreeFrame(c, d, free);
    forall l | l in prim ensures PrimThread(d, prim[l]) { PrimFrame(c, d, prim[l]); }
  }

  /** If no auxiliary link changes, no auxiliary list does. */
  lemma {:induction false} FrameAux(c: seq<HCtrl>, d: seq<HCtrl>, slots: seq<Slot>, slots': seq<Slot>)
    requires AuxRep(c, slots) && |d| == |c| == |slots'|
    requires forall j :: 0 <= j < |c| ==>
      SameAux(c[j], d[j]) && slots'[j].auxHead == slots[j].auxHead && slots'[j].auxList == slots[j].auxList
    ensures AuxRep(d, slots')
  {
    forall a | 0 <= a < |d| ensures AuxEntry(d[a], slots'[a]) && AuxThread(d, slots'[a].auxList) {
      assert AuxEntry(c[a], slots[a]);
      AuxFrame(c, d, slots[a].auxList);
    }
  }

  /** Rewriting one slot without touching its links. */
  lemma {:induction false} RepPut(c: seq<HCtrl>, s: State, i: nat, x: Slot, d: HCtrl)
    requires Rep(c, s) && i < |c|
    requires SlotRep(d, x) && SameH(c[i], d) && SameAux(c[i], d)
    requires x.auxHead == s.slots[i].auxHead && x.auxList == s.slots[i].auxList
    ensures Rep(c[i := d], Put(s, i, x))
  {
    var e, t := c[i := d], Put(s, i, x);
    FrameH(c, e, s.free, s.prim);
    FrameAux(c, e, s.slots, t.slots);
  }

  // ---------- primary lists ----------

  /** u_handle_link: slot i behind the old tail. */
  function LinkThread(c: seq<HCtrl>, tail: nat, i: nat): seq<HCtrl>
    requires i < |c| && tail < |c|
  {
    var d := c[i := c[i].(linked := true, hNext := 0, hPrev := tail)];
    if tail != 0 then d[tail := d[tail].(hNext := i)] else d
  }

  lemma {:induction false} LinkAt(c: seq<HCtrl>, tail: nat, i: nat, j: nat)
    requires i < |c| && tail < |c| && i != tail && j < |c|
    ensures |LinkThread(c, tail, i)| == |c|
    ensures LinkThread(c, tail, i)[j] ==
      (if j == i then c[j].(linked := true, hNext := 0, hPrev := tail)
       else if j == tail && tail != 0 then c[j].(hNext := i) else c[j])
  {}

  /** Appending to a threaded list gives the longer threaded list. */
  lemma {:induction false} LinkPrim(c: seq<HCtrl>, q: seq<nat>, i: nat)
    requires PrimThread(c, q) && NoDup(q) && 0 !in q && 0 < i < |c| && i !in q
    ensures Nth(q, |q| - 1) < |c|
    ensures PrimThread(LinkThread(c, Nth(q, |q| - 1), i), q + [i])
  {
    var tail := Nth(q, |q| - 1);
    if q != [] { assert PrimAt(c, q, |q| - 1) && tail in q; }
    forall j | 0 <= j < |q| + 1 ensures PrimAt(LinkThread(c, tail, i), q + [i], j) {
      if j < |q| {
        assert PrimAt(c, q, j) && q[j] in q;
        LinkAt(c, tail, i, q[j]);
      } else {
        LinkAt(c, tail, i, i);
      }
    }
  }

  lemma {:induction false} LinkRep(c: seq<HCtrl>, s: State, l: HLink, i: nat)
    requires Inv(s) && Rep(c, s) && l in s.prim && 0 < i < |c| && Active(s.slots[i]) && s.slots[i].owner.None?
    ensures var q := s.prim[l];
      Nth(q, |q| - 1) < |c| && Rep(LinkThread(c, Nth(q, |q| - 1), i), Linked(s, l, i))
  {
    hide LinkThread, Inv, NoDup;
    var q := s.prim[l];
    var tail := Nth(q, |q| - 1);
    LinkTail(s, l, i);
    LinkPrim(c, q, i);
    var d := LinkThread(c, tail, i);
    var t := Linked(s, l, i);
    forall j | 0 <= j < |c|
      ensures |d| == |c| && d[j] == (if j == i then c[j].(linked := true, hNext := 0, hPrev := tail)
                                     else if j == tail && tail != 0 then c[j].(hNext := i) else c[j])
    {
      LinkAt(c, tail, i, j);
    }
    FreeFrame(c, d, s.free);
    forall k | k in t.prim ensures PrimThread(d, t.prim[k]) {
      if k != l { PrimFrame(c, d, s.prim[k]); }
    }
    FrameAux(c, d, s.slots, t.slots);
    hide PrimRep, AuxRep, FreeThread;
    assert SlotsRep(d, t.slots);
  }

  /** Neither the new slot nor the old tail is on another list or free. */
  lemma {:induction false} LinkTail(s: State, l: HLink, i: nat)
    requires Inv(s) && l in s.prim && 0 < i < |s.slots| && Active(s.slots[i]) && s.slots[i].owner.None?
    ensures var q := s.prim[l]; var tail := Nth(q, |q| - 1);
      && tail < |s.slots| && NoDup(q) && 0 !in q && i !in q && i !in s.free && tail != i
      && (q != [] ==> 0 < tail && tail in q && tail !in s.free && tail != i)
      && (forall k :: k in s.prim && k != l ==> i !in s.prim[k] && (q != [] ==> tail !in s.prim[k]))
  {
    var q := s.prim[l];
    assert PrimListAt(s.slots, s.prim, l);
    if q != [] { MemberFacts(s, l, q[|q| - 1]); }
    if 0 in q { MemberFacts(s, l, 0); }
    forall k | k in s.prim && k != l ensures i !in s.prim[k] { assert PrimListAt(s.slots, s.prim, k); }
  }

  /** u_handle_delink: slot i cut out between its neighbours. */
  function DelinkThread(c: seq<HCtrl>, i: nat): seq<HCtrl>
    requires i < |c| && c[i].hNext < |c| && c[i].hPrev < |c|
  {
    var n, p := c[i].hNext, c[i].hPrev;
    var d0 := c[i := c[i].(linked := false)];
    var d1 := if n != 0 then d0[n := d0[n].(hPrev := p)] else d0;
    var d2 := if p != 0 then d1[p := d1[p].(hNext := n)] else d1;
    d2[i := d2[i].(hNext := 0, hPrev := 0)]
  }

  /** Cutting position k out of a threaded list leaves the rest threaded. */
  lemma {:induction false} CutPrim(c: seq<HCtrl>, q: seq<nat>, k: nat)
    requires PrimThread(c, q) && NoDup(q) && k < |q| && 0 !in q
    ensures q[k] < |c| && c[q[k]].hNext == Nth(q, k + 1) < |c| && c[q[k]].hPrev == Nth(q, k - 1) < |c|
    ensures PrimThread(DelinkThread(c, q[k]), q[..k] + q[k + 1..])
  {
    assert PrimAt(c, q, k);
    if k + 1 < |q| { assert PrimAt(c, q, k + 1) && q[k + 1] in q; }
    if k > 0 { assert PrimAt(c, q, k - 1) && q[k - 1] in q; }
    var d, r := DelinkThread(c, q[k]), q[..k] + q[k + 1..];
    forall j | 0 <= j < |r| ensures PrimAt(d, r, j) { CutPrimAt(c, q, k, j); }
  }

  lemma {:induction false} CutPrimAt(c: seq<HCtrl>, q: seq<nat>, k: nat, j: nat)
    requires PrimThread(c, q) && NoDup(q) && k < |q| && 0 !in q && j < |q| - 1
    requires q[k] < |c| && c[q[k]].hNext == Nth(q, k + 1) < |c| && c[q[k]].hPrev == Nth(q, k - 1) < |c|
    ensures PrimAt(DelinkThread(c, q[k]), q[..k] + q[k + 1..], j)
  {
    var o := if j < k then j else j + 1;
    assert PrimAt(c, q, o);
    if k + 1 < |q| { assert q[k + 1] in q; }
    if k > 0 { assert q[k - 1] in q; }
  }

  /** Delinking changes link fields only of the slot and its two neighbours. */
  lemma {:induction false} DelinkTouches(c: seq<HCtrl>, i: nat)
    requires i < |c| && c[i].hNext < |c| && c[i].hPrev < |c|
    ensures |DelinkThread(c, i)| == |c|
    ensures forall j :: 0 <= j < |c| ==>
      DelinkThread(c, i)[j] == c[j].(linked := if j == i then false else c[j].linked,
                                     hNext := DelinkThread(c, i)[j].hNext, hPrev := DelinkThread(c, i)[j].hPrev)
    ensures forall j :: 0 <= j < |c| && j != i && j != c[i].hNext && j != c[i].hPrev ==> DelinkThread(c, i)[j] == c[j]
  {
    forall j | 0 <= j < |c|
      ensures DelinkThread(c, i)[j] == c[j].(linked := if j == i then false else c[j].linked,
                                             hNext := DelinkThread(c, i)[j].hNext, hPrev := DelinkThread(c, i)[j].hPrev)
      ensures j != i && j != c[i].hNext && j != c[i].hPrev ==> DelinkThread(c, i)[j] == c[j]
    {
      DelinkAt(c, i, j);
    }
  }

  lemma {:induction false} DelinkAt(c: seq<HCtrl>, i: nat, j: nat)
    requires i < |c| && c[i].hNext < |c| && c[i].hPrev < |c| && j < |c|
    ensures |DelinkThread(c, i)| == |c|
    ensures DelinkThread(c, i)[j] == c[j].(linked := if j == i then false else c[j].linked,
                                           hNext := DelinkThread(c, i)[j].hNext, hPrev := DelinkThread(c, i)[j].hPrev)
    ensures j != i && j != c[i].hNext && j != c[i].hPrev ==> DelinkThread(c, i)[j] == c[j]
  {}

  lemma {:induction false} DelinkRep(c: seq<HCtrl>, s: State, l: HLink, i: nat)
    requires Inv(s) && Rep(c, s) && l in s.prim && i in s.prim[l]
    ensures i < |c| && c[i].hNext < |c| && c[i].hPrev < |c|
    ensures Rep(DelinkThread(c, i), Delinked(s, l, i))
  {
    var q := s.prim[l];
    var k := Position(q, i);
    NeighboursElsewhere(s, l, k);
    hide Inv;
    CutPrim(c, q, k);
    WithoutOne(q, k);
    DelinkTouches(c, i);
    hide DelinkThread, NoDup, Without;
    var d := DelinkThread(c, i);
    var t := Delinked(s, l, i);
    FreeFrame(c, d, s.free);
    forall m | m in t.prim ensures PrimThread(d, t.prim[m]) {
      if m != l { PrimFrame(c, d, s.prim[m]); }
    }
    FrameAux(c, d, s.slots, t.slots);
    DelinkSlots(c, d, s.slots, i);
  }

  lemma {:induction false} DelinkSlots(c: seq<HCtrl>, d: seq<HCtrl>, slots: seq<Slot>, i: nat)
    requires SlotsRep(c, slots) && |d| == |c| && i < |c|
    requires forall j :: 0 <= j < |c| ==>
      d[j] == c[j].(linked := if j == i then false else c[j].linked, hNext := d[j].hNext, hPrev := d[j].hPrev)
    ensures SlotsRep(d, slots[i := slots[i].(owner := None)])
  {
    forall j | 0 <= j < |d| ensures SlotRep(d[j], slots[i := slots[i].(owner := None)][j]) {
      assert SlotRep(c[j], slots[j]);
    }
  }

  /** The member at position k and its neighbours are neither free nor on another list. */
  lemma {:induction false} NeighboursElsewhere(s: State, l: HLink, k: nat)
    requires Inv(s) && l in s.prim && k < |s.prim[l]|
    ensures var q := s.prim[l];
      && NoDup(q) && 0 !in q
      && (forall j :: j in q ==> j !in s.free && j < |s.slots|)
      && (forall m, j :: m in s.prim && m != l && j in s.prim[m] ==>
            j !in q && j != Nth(q, k + 1) && j != Nth(q, k - 1))
      && (forall j :: j in s.free ==> j != Nth(q, k + 1) && j != Nth(q, k - 1))
  {
    var q := s.prim[l];
    assert PrimListAt(s.slots, s.prim, l);
    forall j | j in q ensures j != 0 && j !in s.free && j < |s.slots| { MemberFacts(s, l, j); }
    forall m, j | m in s.prim && m != l && j in s.prim[m] ensures j !in q && j != 0 { MemberFacts(s, m, j); }
  }

  // ---------- auxiliary lists ----------

  /** u_handle_link_to_aux: slot i in front of the list of head a. */
  function LinkAuxThread(c: seq<HCtrl>, a: nat, i: nat): seq<HCtrl>
    requires a < |c| && i < |c| && c[a].auxNext < |c|
  {
    var f := c[a].auxNext;
    var d0 := c[i := c[i].(auxNext := f, auxPrev := 0, auxHead := a)];
    var d1 := if f != 0 then d0[f := d0[f].(auxPrev := i)] else d0;
    d1[a := d1[a].(auxNext := i, auxCount := d1[a].auxCount + 1)]
  }

  /** delink_from_aux: slot i cut out of the list of its head. */
  function LeaveAuxThread(c: seq<HCtrl>, i: nat): seq<HCtrl>
    requires i < |c| && c[i].auxHead < |c| && c[i].auxNext < |c| && c[i].auxPrev < |c|
  {
    var a, n, p := c[i].auxHead, c[i].auxNext, c[i].auxPrev;
    var d1 := if n != 0 then c[n := c[n].(auxPrev := p)] else c;
    var d2 := if p != 0 then d1[p := d1[p].(auxNext := n)] else d1[a := d1[a].(auxNext := n)];
    var d3 := d2[i := d2[i].(auxNext := 0, auxPrev := 0, auxHead := 0)];
    if d3[a].auxCount > 0 then d3[a := d3[a].(auxCount := d3[a].auxCount - 1)] else d3
  }

  /** A slot on an auxiliary list heads none, its head is on none, and neither list nor head
      belongs to another head. */
  lemma {:induction false} AuxFacts(s: State, a: nat)
    requires Inv(s) && a < |s.slots| && s.slots[a].typ == AUX_LINK_HEAD
    ensures var q := s.slots[a].auxList;
      && NoDup(q) && 0 !in q && a !in q
      && (forall i :: i in q ==> i < |s.slots| && s.slots[i].auxHead == a && s.slots[i].auxList == [])
      && (forall b, i :: 0 <= b < |s.slots| && b != a && i in s.slots[b].auxList ==> i !in q && i != a && i != 0)
  {
    var q := s.slots[a].auxList;
    assert AuxListAt(s.slots, a);
    forall i | i in q ensures i != 0 && i < |s.slots| && i != a && s.slots[i].auxList == [] {
      assert AuxSlotAt(s.slots, i);
      if s.slots[i].auxList != [] { HeadFacts(s.slots, i); }
    }
    forall b, i | 0 <= b < |s.slots| && b != a && i in s.slots[b].auxList
      ensures i !in q && i != 0 && i != a
    {
      assert AuxListAt(s.slots, b) && AuxSlotAt(s.slots, i);
    }
  }

  /** Slot j after i was put in front of the list of head a. */
  function JoinedAux(c: seq<HCtrl>, a: nat, i: nat, j: nat): HCtrl
    requires a < |c| && j < |c|
  {
    if j == i then c[j].(auxNext := c[a].auxNext, auxPrev := 0, auxHead := a)
    else if j == a then c[j].(auxNext := i, auxCount := c[j].auxCount + 1)
    else if j == c[a].auxNext && j != 0 then c[j].(auxPrev := i)
    else c[j]
  }

  lemma {:induction false} LinkAuxAt(c: seq<HCtrl>, a: nat, i: nat, j: nat)
    requires a < |c| && i < |c| && c[a].auxNext < |c| && i != a && c[a].auxNext != i && c[a].auxNext != a && j < |c|
    ensures |LinkAuxThread(c, a, i)| == |c| && LinkAuxThread(c, a, i)[j] == JoinedAux(c, a, i, j)
  {}

  lemma {:induction false} LinkAuxFront(c: seq<HCtrl>, q: seq<nat>, a: nat, i: nat)
    requires AuxThread(c, q) && NoDup(q) && 0 !in q && a !in q && i !in q && a != i && 0 < i < |c| && 0 < a < |c|
    requires c[a].auxNext == Nth(q, 0)
    ensures c[a].auxNext < |c| && c[a].auxNext != i && c[a].auxNext != a
    ensures AuxThread(LinkAuxThread(c, a, i), [i] + q)
  {
    if q != [] { assert AuxAt(c, q, 0) && q[0] in q; }
    forall j | 0 <= j < |q| + 1 ensures AuxAt(LinkAuxThread(c, a, i), [i] + q, j) {
      if j == 0 {
        LinkAuxAt(c, a, i, i);
      } else {
        assert AuxAt(c, q, j - 1) && q[j - 1] in q;
        LinkAuxAt(c, a, i, q[j - 1]);
      }
    }
  }

  lemma {:induction false} LinkAuxRep(c: seq<HCtrl>, s: State, a: nat, i: nat)
    requires Inv(s) && Rep(c, s) && 0 < a < |c| && 0 < i < |c| && a != i
    requires s.slots[a].typ == AUX_LINK_HEAD && s.slots[a].auxHead == 0
    requires s.slots[i].auxHead == 0 && s.slots[i].auxList == []
    ensures c[a].auxNext < |c|
    ensures Rep(LinkAuxThread(c, a, i), s.(slots := JoinAux(s.slots, a, i)))
  {
    var q := s.slots[a].auxList;
    AuxFacts(s, a);
    assert i !in q && AuxEntry(c[a], s.slots[a]);
    forall b, j | 0 <= b < |s.slots| && j in s.slots[b].auxList ensures j != i { MemberOfAux(s, b, j); }
    hide Inv;
    LinkAuxFront(c, q, a, i);
    var d := LinkAuxThread(c, a, i);
    forall j | 0 <= j < |c| ensures |d| == |c| && d[j] == JoinedAux(c, a, i, j) { LinkAuxAt(c, a, i, j); }
    assert c[a].auxNext != 0 ==> c[a].auxNext in q;
    hide LinkAuxThread;
    JoinRep(c, d, s, a, i);
  }

  lemma {:induction false} JoinRep(c: seq<HCtrl>, d: seq<HCtrl>, s: State, a: nat, i: nat)
    requires Rep(c, s) && |d| == |c| && 0 < a < |c| && 0 < i < |c| && a != i && c[a].auxNext != i
    requires s.slots[i].auxList == [] && s.slots[i].auxHead == 0 && s.slots[a].auxHead == 0
    requires var q := s.slots[a].auxList;
      && (c[a].auxNext != 0 ==> c[a].auxNext in q) && AuxThread(d, [i] + q)
      && (forall b, j :: 0 <= b < |s.slots| && b != a && j in s.slots[b].auxList ==>
            j !in q && j != a && j != i && j != 0)
      && (forall j :: j in q ==> j < |s.slots| && s.slots[j].auxHead == a)
      && (forall j :: 0 <= j < |c| ==> d[j] == JoinedAux(c, a, i, j))
    ensures Rep(d, s.(slots := JoinAux(s.slots, a, i)))
  {
    var slots := JoinAux(s.slots, a, i);
    FrameH(c, d, s.free, s.prim);
    forall b | 0 <= b < |d| ensures AuxEntry(d[b], slots[b]) && AuxThread(d, slots[b].auxList) {
      assert AuxEntry(c[b], s.slots[b]);
      if b == i {
        assert slots[b].auxList == [];
      } else if b != a {
        AuxFrame(c, d, s.slots[b].auxList);
      }
    }
    JoinSlots(c, d, s.slots, a, i);
  }

  lemma {:induction false} JoinSlots(c: seq<HCtrl>, d: seq<HCtrl>, slots: seq<Slot>, a: nat, i: nat)
    requires SlotsRep(c, slots) && |d| == |c| && a < |c| && i < |c| && a != i
    requires forall j :: 0 <= j < |c| ==> d[j] == JoinedAux(c, a, i, j)
    ensures SlotsRep(d, JoinAux(slots, a, i))
  {
    forall j | 0 <= j < |d| ensures SlotRep(d[j], JoinAux(slots, a, i)[j]) { assert SlotRep(c[j], slots[j]); }
  }

  lemma {:induction false} MemberOfAux(s: State, a: nat, i: nat)
    requires Inv(s) && a < |s.slots| && i in s.slots[a].auxList
    ensures i < |s.slots| && s.slots[i].auxHead == a && a != 0
    ensures s.slots[a].typ == AUX_LINK_HEAD && Active(s.slots[a]) && s.slots[a].auxHead == 0
  {
    assert AuxListAt(s.slots, a);
    HeadFacts(s.slots, a);
  }

  /** Slot j after i was cut out of its auxiliary list. */
  function PartedAux(c: seq<HCtrl>, i: nat, j: nat): HCtrl
    requires i < |c| && j < |c|
  {
    var a, n, p := c[i].auxHead, c[i].auxNext, c[i].auxPrev;
    if j == i then c[j].(auxNext := 0, auxPrev := 0, auxHead := 0)
    else if j == a then c[j].(auxNext := if p == 0 then n else c[j].auxNext,
                              auxCount := if c[j].auxCount > 0 then c[j].auxCount - 1 else 0)
    else if j == n && n != 0 then c[j].(auxPrev := p)
    else if j == p && p != 0 then c[j].(auxNext := n)
    else c[j]
  }

  lemma {:induction false} LeaveAuxAt(c: seq<HCtrl>, i: nat, j: nat)
    requires i < |c| && c[i].auxHead < |c| && c[i].auxNext < |c| && c[i].auxPrev < |c| && j < |c|
    requires var a, n, p := c[i].auxHead, c[i].auxNext, c[i].auxPrev;
      a != i && a != n && a != p && n != i && p != i && (n == p ==> n == 0)
    ensures |LeaveAuxThread(c, i)| == |c| && LeaveAuxThread(c, i)[j] == PartedAux(c, i, j)
  {}

  /** The neighbours of position k are distinct slots of the list, or none. */
  lemma {:induction false} AuxNeighbours(c: seq<HCtrl>, q: seq<nat>, a: nat, k: nat)
    requires AuxThread(c, q) && NoDup(q) && k < |q| && 0 !in q && 0 < a < |c| && a !in q
    ensures q[k] < |c| && c[q[k]].auxNext == Nth(q, k + 1) < |c| && c[q[k]].auxPrev == Nth(q, k - 1) < |c|
    ensures var n, p := Nth(q, k + 1), Nth(q, k - 1);
      && a != n && a != p && n != q[k] && p != q[k] && (n == p ==> n == 0)
      && (n != 0 ==> n in q) && (p != 0 ==> p in q) && (p == 0 <==> k == 0) && a != q[k]
  {
    assert AuxAt(c, q, k) && q[k] in q;
    if k + 1 < |q| { assert AuxAt(c, q, k + 1) && q[k + 1] in q; }
    if k > 0 { assert AuxAt(c, q, k - 1) && q[k - 1] in q; }
  }

  /** Position k cut out of an auxiliary list: the rest is threaded, and the head points at
      the first of the rest. */
  lemma {:induction false} CutAux(c: seq<HCtrl>, d: seq<HCtrl>, q: seq<nat>, a: nat, k: nat)
    requires AuxThread(c, q) && NoDup(q) && k < |q| && 0 !in q && 0 < a < |c| && a !in q
    requires q[k] < |c| && c[a].auxNext == Nth(q, 0) && c[q[k]].auxHead == a
    requires |d| == |c| && forall j :: 0 <= j < |c| ==> d[j] == PartedAux(c, q[k], j)
    ensures AuxThread(d, q[..k] + q[k + 1..])
    ensures d[a].auxNext == Nth(q[..k] + q[k + 1..], 0)
  {
    AuxNeighbours(c, q, a, k);
    var r := q[..k] + q[k + 1..];
    forall j | 0 <= j < |r| ensures AuxAt(d, r, j) {
      var o := if j < k then j else j + 1;
      assert AuxAt(c, q, o) && r[j] == q[o] && q[o] in q;
    }
  }

  lemma {:induction false} LeaveAuxRep(c: seq<HCtrl>, s: State, i: nat)
    requires Inv(s) && Rep(c, s) && i < |c| && s.slots[i].auxHead != 0
    ensures c[i].auxHead < |c| && c[i].auxNext < |c| && c[i].auxPrev < |c|
    ensures Rep(LeaveAuxThread(c, i), LeaveAux(s, i))
  {
    var a := s.slots[i].auxHead;
    assert AuxSlotAt(s.slots, i);
    var q := s.slots[a].auxList;
    MemberOfAux(s, a, i);
    AuxFacts(s, a);
    assert AuxEntry(c[a], s.slots[a]);
    LeaveAuxInv(s, i);
    hide Inv, LeaveAux;
    var k := Position(q, i);
    AuxNeighbours(c, q, a, k);
    var d := LeaveAuxThread(c, i);
    forall j | 0 <= j < |c| ensures |d| == |c| && d[j] == PartedAux(c, i, j) { LeaveAuxAt(c, i, j); }
    hide LeaveAuxThread;
    CutAux(c, d, q, a, k);
    WithoutOne(q, k);
    PartRep(c, d, s, a, i);
  }

  /** The slots other than the head, the cut slot and its neighbours are as before. */
  lemma {:induction false} PartRep(c: seq<HCtrl>, d: seq<HCtrl>, s: State, a: nat, i: nat)
    requires Rep(c, s) && |d| == |c| && 0 < a < |c| && i < |c| && a != i && c[i].auxHead == a
    requires i in s.slots[a].auxList && s.slots[i].auxList == [] && s.slots[a].auxHead == 0
    requires var q, n, p := s.slots[a].auxList, c[i].auxNext, c[i].auxPrev;
      && (n != 0 ==> n in q) && (p != 0 ==> p in q) && |Without(q, {i})| == |q| - 1
      && AuxThread(d, Without(q, {i})) && d[a].auxNext == Nth(Without(q, {i}), 0)
      && (forall b, j :: 0 <= b < |s.slots| && b != a && j in s.slots[b].auxList ==> j !in q && j != a && j != 0)
      && (forall j :: j in q ==> j < |s.slots| && s.slots[j].auxHead == a)
      && (forall j :: 0 <= j < |c| ==> d[j] == PartedAux(c, i, j))
    ensures Rep(d, s.(slots := PartAux(s.slots, a, i)))
  {
    hide Without;
    var slots := PartAux(s.slots, a, i);
    FrameH(c, d, s.free, s.prim);
    forall b | 0 <= b < |d| ensures AuxEntry(d[b], slots[b]) && AuxThread(d, slots[b].auxList) {
      assert AuxEntry(c[b], s.slots[b]);
      if b == i {
        assert slots[b].auxList == [];
      } else if b != a {
        AuxFrame(c, d, s.slots[b].auxList);
      }
    }
    PartSlots(c, d, s.slots, a, i);
  }

  lemma {:induction false} PartSlots(c: seq<HCtrl>, d: seq<HCtrl>, slots: seq<Slot>, a: nat, i: nat)
    requires SlotsRep(c, slots) && |d| == |c| && a < |c| && i < |c| && a != i && c[i].auxHead == a
    requires |Without(slots[a].auxList, {i})| == |slots[a].auxList| - 1
    requires forall j :: 0 <= j < |c| ==> d[j] == PartedAux(c, i, j)
    ensures SlotsRep(d, PartAux(slots, a, i))
  {
    hide Without;
    forall j | 0 <= j < |d| ensures SlotRep(d[j], PartAux(slots, a, i)[j]) { assert SlotRep(c[j], slots[j]); }
  }

  // ---------- the free list ----------

  /** A slot as growth and initialisation leave it, threaded in front of next. */
  function BlankCtrl(next: nat): HCtrl {
    HCtrl(0, 0, next, 0, 0, 0, 0, 0, INV_HANDLE_TYPE, 0, false, false, false, false)
  }

  /** n new slots behind the first `size`, threaded in front of free slot head. */
  function BlankCtrls(size: nat, head: nat, n: nat): seq<HCtrl> {
    seq(n, k => BlankCtrl(if k <= 0 then head else size + k - 1))
  }

  lemma {:induction false} BlankCtrlsAt(size: nat, head: nat, n: nat, k: nat)
    requires k < n
    ensures BlankCtrls(size, head, n)[k] == BlankCtrl(if k == 0 then head else size + k - 1)
  {}

  lemma {:induction false} DownAt(low: nat, n: nat, j: nat)
    requires low <= n && j < n - low
    ensures |Down(low, n)| == n - low && Down(low, n)[j] == n - j
    decreases n
  {
    DownMembers(low, n);
    if j > 0 { DownAt(low, n - 1, j - 1); }
  }

  lemma {:induction false} PopThread(c: seq<HCtrl>, q: seq<nat>)
    requires FreeThread(c, q) && q != []
    ensures q[0] < |c| && c[q[0]].hNext == Nth(q[1..], 0) && FreeThread(c, q[1..])
  {
    assert FreeAt(c, q, 0);
    forall k | 0 <= k < |q[1..]| ensures FreeAt(c, q[1..], k) { assert FreeAt(c, q, k + 1); }
  }

  lemma {:induction false} PushThread(c: seq<HCtrl>, q: seq<nat>, i: nat, x: HCtrl)
    requires FreeThread(c, q) && i < |c| && i !in q && x.hNext == Nth(q, 0)
    ensures FreeThread(c[i := x], [i] + q)
  {
    var d, r := c[i := x], [i] + q;
    forall k | 0 <= k < |r| ensures FreeAt(d, r, k) {
      if k > 0 { assert FreeAt(c, q, k - 1) && q[k - 1] in q; }
    }
  }

  /** New slots in front of a threaded free list. */
  lemma {:induction false} GrowThread(c: seq<HCtrl>, q: seq<nat>, n: nat)
    requires FreeThread(c, q) && |c| > 0
    ensures FreeThread(c + BlankCtrls(|c|, Nth(q, 0), n), Down(|c| - 1, |c| - 1 + n) + q)
  {
    var d, r := c + BlankCtrls(|c|, Nth(q, 0), n), Down(|c| - 1, |c| - 1 + n) + q;
    DownMembers(|c| - 1, |c| - 1 + n);
    forall k | 0 <= k < |r| ensures FreeAt(d, r, k) {
      if k < n {
        DownAt(|c| - 1, |c| - 1 + n, k);
        BlankCtrlsAt(|c|, Nth(q, 0), n, n - 1 - k);
        assert k + 1 == n ==> r[k + 1..] == q;
        if k + 1 < n { DownAt(|c| - 1, |c| - 1 + n, k + 1); }
      } else {
        assert FreeAt(c, q, k - n);
      }
    }
  }

  lemma {:induction false} GrowRep(c: seq<HCtrl>, s: State)
    requires Rep(c, s) && |c| > 0
    ensures Rep(c + BlankCtrls(|c|, Nth(s.free, 0), GROW_BY), Grow(s))
  {
    var d, t := c + BlankCtrls(|c|, Nth(s.free, 0), GROW_BY), Grow(s);
    GrowThread(c, s.free, GROW_BY);
    hide Down;
    forall l | l in s.prim ensures PrimThread(d, s.prim[l]) { PrimFrame(c, d, s.prim[l]); }
    forall a | 0 <= a < |d|
      ensures SlotRep(d[a], t.slots[a]) && AuxEntry(d[a], t.slots[a]) && AuxThread(d, t.slots[a].auxList)
    {
      if a < |c| {
        assert SlotRep(c[a], s.slots[a]) && AuxEntry(c[a], s.slots[a]);
        AuxFrame(c, d, s.slots[a].auxList);
      } else {
        assert t.slots[a] == BLANK;
        BlankCtrlsAt(|c|, Nth(s.free, 0), GROW_BY, a - |c|);
      }
    }
  }

  /** The slot as u_handle_alloc initialises it. */
  function FreshCtrl(c: HCtrl, typ: nat, obj: int, tag: int): HCtrl {
    HCtrl(tag, obj, 0, 0, 0, 0, 0, 0, typ, (c.count + 1) % 256, true, false, false, false)
  }

  lemma {:induction false} ReuseRep(c: seq<HCtrl>, r: State, i: nat, typ: nat, obj: int, tag: int)
    requires Rep(c, r) && Popped(r, i)
    ensures Rep(c[i := FreshCtrl(c[i], typ, obj, tag)], Reuse(r, i, typ, obj, tag))
  {
    hide *;
    PoppedAlone(r, i);
    RepSlot(c, r, i);
    var d := FreshCtrl(c[i], typ, obj, tag);
    FreshRep(c, r, i, typ, obj, tag);
    ReplaceRep(c, r, i, d, Fresh(r.slots[i], typ, obj, tag));
    ReuseIs(r, i, typ, obj, tag);
  }

  /** A popped slot is on no list. */
  lemma {:induction false} PoppedAlone(r: State, i: nat)
    requires Popped(r, i)
    ensures i < |r.slots| && i !in r.free
    ensures forall l :: l in r.prim ==> i !in r.prim[l]
    ensures forall a :: 0 <= a < |r.slots| ==> i !in r.slots[a].auxList
  {
    forall l, j | l in r.prim && j in r.prim[l] ensures j != i { assert PrimListAt(r.slots, r.prim, l); }
    forall a, j | 0 <= a < |r.slots| && j in r.slots[a].auxList ensures j != i { assert AuxListAt(r.slots, a); }
  }

  lemma {:induction false} FreshRep(c: seq<HCtrl>, r: State, i: nat, typ: nat, obj: int, tag: int)
    requires Rep(c, r) && Popped(r, i)
    ensures i < |c| == |r.slots| && SlotRep(FreshCtrl(c[i], typ, obj, tag), Fresh(r.slots[i], typ, obj, tag))
    ensures var x, d := Fresh(r.slots[i], typ, obj, tag), FreshCtrl(c[i], typ, obj, tag);
      x.auxHead == 0 && x.auxList == [] && d.auxNext == 0 && d.auxPrev == 0
  {
    hide Popped, Rep, SlotRep;
    PoppedSlot(r, i);
    RepSlot(c, r, i);
    FreshSlot(c[i], r.slots[i], typ, obj, tag);
  }

  lemma {:induction false} FreshSlot(c: HCtrl, x: Slot, typ: nat, obj: int, tag: int)
    requires SlotRep(c, x) && !Active(x)
    ensures SlotRep(FreshCtrl(c, typ, obj, tag), Fresh(x, typ, obj, tag))
  {}

  lemma {:induction false} PoppedSlot(r: State, i: nat)
    requires Popped(r, i)
    ensures i < |r.slots| && !Active(r.slots[i])
    ensures r.slots[i].auxHead == 0 && r.slots[i].auxList == [] && r.slots[i].owner.None?
  {
    hide PrimOk, AuxOk, StatOk;
  }

  lemma {:induction false} RepSlot(c: seq<HCtrl>, s: State, i: nat)
    requires Rep(c, s) && i < |s.slots|
    ensures |c| == |s.slots| && SlotRep(c[i], s.slots[i])
  {
    hide PrimRep, AuxRep, FreeThread;
    assert SlotsRep(c, s.slots);
  }

  /** Reuse changes slot i and statistics the array does not show. */
  lemma {:induction false} ReuseIs(r: State, i: nat, typ: nat, obj: int, tag: int)
    requires i < |r.slots|
    ensures forall c :: Rep(c, r.(slots := r.slots[i := Fresh(r.slots[i], typ, obj, tag)])) ==>
      Rep(c, Reuse(r, i, typ, obj, tag))
  {}

  /** A slot on no list at all may be rewritten freely. */
  lemma {:induction false} ReplaceRep(c: seq<HCtrl>, s: State, i: nat, d: HCtrl, x: Slot)
    requires Rep(c, s) && i < |c| && i !in s.free && SlotRep(d, x)
    requires forall l :: l in s.prim ==> i !in s.prim[l]
    requires forall a :: 0 <= a < |s.slots| ==> i !in s.slots[a].auxList
    requires x.auxHead == 0 && x.auxList == [] && d.auxNext == 0 && d.auxPrev == 0
    ensures Rep(c[i := d], s.(slots := s.slots[i := x]))
  {
    var e, slots := c[i := d], s.slots[i := x];
    FreeFrame(c, e, s.free);
    forall l | l in s.prim ensures PrimThread(e, s.prim[l]) { PrimFrame(c, e, s.prim[l]); }
    forall a | 0 <= a < |e| ensures AuxEntry(e[a], slots[a]) && AuxThread(e, slots[a].auxList) {
      if a != i {
        assert AuxEntry(c[a], s.slots[a]);
        AuxFrame(c, e, s.slots[a].auxList);
      }
    }
  }

  function ReleasedCtrl(c: HCtrl, head: nat): HCtrl {
    c.(count := (c.count + 1) % 256, active := false, hNext := head, hPrev := 0)
  }

  lemma {:induction false} ReleaseRep(c: seq<HCtrl>, s: State, i: nat)
    requires Rep(c, s) && Inv(s) && i < |c| && Active(s.slots[i]) && s.slots[i].owner.None?
    ensures Rep(c[i := ReleasedCtrl(c[i], Nth(s.free, 0))], Release(s, i))
  {
    var x := ReleasedCtrl(c[i], Nth(s.free, 0));
    forall l, j | l in s.prim && j in s.prim[l] ensures j != i { assert PrimListAt(s.slots, s.prim, l); }
    assert i !in s.free && SlotRep(c[i], s.slots[i]);
    hide Inv;
    ReleasedSlot(c[i], s.slots[i], Nth(s.free, 0));
    PushThread(c, s.free, i, x);
    hide SlotRep;
    ReleaseRepCore(c, s, i, x, At(s, i).(gen := At(s, i).gen + 1));
    hide Rep;
  }

  lemma {:induction false} ReleasedSlot(c: HCtrl, x: Slot, head: nat)
    requires SlotRep(c, x) && Active(x)
    ensures SlotRep(ReleasedCtrl(c, head), x.(gen := x.gen + 1))
  {}

  lemma {:induction false} ReleaseRepCore(c: seq<HCtrl>, s: State, i: nat, d: HCtrl, x: Slot)
    requires Rep(c, s) && i < |c| && SlotRep(d, x) && SameAux(c[i], d) && FreeThread(c[i := d], [i] + s.free)
    requires forall l :: l in s.prim ==> i !in s.prim[l]
    requires x.auxHead == s.slots[i].auxHead && x.auxList == s.slots[i].auxList
    ensures Rep(c[i := d], s.(slots := s.slots[i := x], free := [i] + s.free))
  {
    var e := c[i := d];
    forall l | l in s.prim ensures PrimThread(e, s.prim[l]) { PrimFrame(c, e, s.prim[l]); }
    FrameAux(c, e, s.slots, s.slots[i := x]);
  }
}
