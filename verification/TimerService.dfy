/** timerd/_timer.c as classes: the ring of timers spliced in place and the heap of argument
    blocks. Every method leaves the object in the state its TimerModel function computes. */
module TimerService {
  import opened Seqs
  import opened TimerModel
  import opened TimerList
  import opened TimerExpiry

  // ---------- struct timespec ----------

  datatype TimeSpec = TimeSpec(sec: int, nsec: int)

  predicate Normal(a: TimeSpec) {
    0 <= a.nsec < SECOND
  }

  function Ns(a: TimeSpec): int {
    a.sec * SECOND + a.nsec
  }

  /** time_before */
  predicate TimeBefore(a: TimeSpec, b: TimeSpec) {
    a.sec < b.sec || (a.sec == b.sec && a.nsec < b.nsec)
  }

  /** a plus the duration d, with the carry of the source. */
  function AddTime(a: TimeSpec, d: TimeSpec): TimeSpec {
    var s, n := a.sec + d.sec, a.nsec + d.nsec;
    if n >= SECOND then TimeSpec(s + 1, n - SECOND) else TimeSpec(s, n)
  }

  /** a minus now, with the borrow of u_timer_stop. */
  function Remaining(a: TimeSpec, now: TimeSpec): TimeSpec {
    var s := a.sec - now.sec;
    if a.nsec < now.nsec then TimeSpec(s - 1, a.nsec + SECOND - now.nsec) else TimeSpec(s, a.nsec - now.nsec)
  }

  /** On normalised times the comparison of the source is that of nanoseconds, and its sums
      and differences are exact and normalised. */
  lemma {:induction false} TimesAreExact(a: TimeSpec, b: TimeSpec)
    requires Normal(a) && Normal(b)
    ensures TimeBefore(a, b) <==> Ns(a) < Ns(b)
    ensures Normal(AddTime(a, b)) && Ns(AddTime(a, b)) == Ns(a) + Ns(b)
    ensures Normal(Remaining(a, b)) && Ns(Remaining(a, b)) == Ns(a) - Ns(b)
    ensures a == b <==> Ns(a) == Ns(b)
  {
    if a.sec < b.sec { assert Ns(b) - Ns(a) >= SECOND + b.nsec - a.nsec; }
    if a.sec > b.sec { assert Ns(a) - Ns(b) >= SECOND + a.nsec - b.nsec; }
  }

  /** The delay of u_timer_start, in milliseconds. */
  function Delay(ms: nat): TimeSpec {
    TimeSpec(ms / 1000, (ms % 1000) * MILLISECOND)
  }

  lemma {:induction false} DelayIsExact(ms: nat)
    ensures Normal(Delay(ms)) && Ns(Delay(ms)) == ms * MILLISECOND
  {
    assert ms == ms / 1000 * 1000 + ms % 1000;
  }

  // ---------- the ring ----------

  /** OS_TIMER_LIGHT_T. id is the address the handle is made of, args the argument block. */
  class TimerNode {
    ghost const id: nat
    var previous: TimerNode?
    var next: TimerNode?
    var abstime: TimeSpec
    var interval: TimeSpec
    var callback: bool
    var args: Option<nat>

    /** u_timer_create: calloc */
    constructor (ghost i: nat)
      ensures id == i && previous == null && next == null && args.None? && !callback
      ensures abstime == TimeSpec(0, 0) && interval == TimeSpec(0, 0)
    {
      id := i;
      previous, next := null, null;
      abstime, interval := TimeSpec(0, 0), TimeSpec(0, 0);
      callback, args := false, None;
    }

    /** The fields other than the links say x. */
    ghost predicate Holds(x: Timer)
      reads this
    {
      && Normal(abstime) && Ns(abstime) == x.deadline
      && Normal(interval) && Ns(interval) == x.interval
      && args == x.args && callback == x.callback
    }
  }

  function Succ(k: nat, n: nat): nat { if k + 1 == n then 0 else k + 1 }

  function Pred(k: nat, n: nat): nat { if k == 0 && n > 0 then n - 1 else if k == 0 then 0 else k - 1 }

  ghost predicate LinkedAt(q: seq<TimerNode>, k: nat)
    requires k < |q|
    reads q
  {
    q[k].next == q[Succ(k, |q|)] && q[k].previous == q[Pred(k, |q|)]
  }

  /** The nodes of q form a ring in both directions. */
  ghost predicate Ring(q: seq<TimerNode>)
    reads q
  {
    forall k :: 0 <= k < |q| ==> LinkedAt(q, k)
  }

  twostate predicate SameFields(n: TimerNode)
    reads n
  {
    && n.abstime == old(n.abstime) && n.interval == old(n.interval)
    && n.callback == old(n.callback) && n.args == old(n.args)
  }

  /** Link t in front of p, which is the node at position k of the ring, or the first one for
      k at the end. */
  method Splice(t: TimerNode, p: TimerNode, ghost q: seq<TimerNode>, ghost k: nat)
    requires Ring(q) && NoDup(q) && t !in q && k <= |q| && |q| > 0 && p == (if k == |q| then q[0] else q[k])
    requires p.previous != null
    modifies t`previous, t`next, p`previous, p.previous`next
    ensures Ring(q[..k] + [t] + q[k..]) && NoDup(q[..k] + [t] + q[k..])
  {
    ghost var j := if k == |q| then 0 else k;
    assert LinkedAt(q, j);
    t.previous := p.previous;
    t.next := p;
    p.previous.next := t;
    p.previous := t;
    ghost var r := q[..k] + [t] + q[k..];
    forall i | 0 <= i < |r| ensures LinkedAt(r, i) {
      if i < k { assert old(LinkedAt(q, i)); } else if i > k { assert old(LinkedAt(q, i - 1)); }
    }
    SpliceDistinct(q, t, k);
  }

  lemma {:induction false} SpliceDistinct<T>(q: seq<T>, t: T, k: nat)
    requires NoDup(q) && t !in q && k <= |q|
    ensures NoDup(q[..k] + [t] + q[k..])
  {}

  /** Take the node at position k out of the ring of at least two. */
  method Unsplice(t: TimerNode, ghost q: seq<TimerNode>, ghost k: nat)
    requires Ring(q) && NoDup(q) && k < |q| && |q| > 1 && t == q[k] && t.previous != null && t.next != null
    modifies t.previous`next, t.next`previous
    ensures Ring(q[..k] + q[k + 1..]) && NoDup(q[..k] + q[k + 1..])
    ensures t.next == old(t.next) && t.next == q[Succ(k, |q|)]
  {
    assert LinkedAt(q, k);
    ghost var n := |q|;
    t.previous.next := t.next;
    t.next.previous := t.previous;
    ghost var r := q[..k] + q[k + 1..];
    forall i | 0 <= i < |r| ensures LinkedAt(r, i) {
      ghost var o := if i < k then i else i + 1;
      assert old(LinkedAt(q, o));
      CutNeighbours(q, k, i);
      assert q[o].next == if o == Pred(k, n) then q[Succ(k, n)] else q[Succ(o, n)];
      assert q[o].previous == if o == Succ(k, n) then q[Pred(k, n)] else q[Pred(o, n)];
    }
    CutDistinct(q, k);
  }

  lemma {:induction false} CutDistinct<T>(q: seq<T>, k: nat)
    requires NoDup(q) && k < |q|
    ensures NoDup(q[..k] + q[k + 1..])
  {}

  /** The neighbours of an element once the one at position k is cut out. */
  lemma {:induction false} CutNeighbours<T>(q: seq<T>, k: nat, i: nat)
    requires k < |q| && |q| > 1 && i < |q| - 1
    ensures var r, n, o := q[..k] + q[k + 1..], |q|, if i < k then i else i + 1;
      && r[i] == q[o]
      && r[Succ(i, n - 1)] == (if o == Pred(k, n) then q[Succ(k, n)] else q[Succ(o, n)])
      && r[Pred(i, n - 1)] == (if o == Succ(k, n) then q[Pred(k, n)] else q[Pred(o, n)])
  {}

  /** The static variables of the file, the messages its callbacks have sent, and what became
      of memory: the timers given back and the fault, if any, of the daemon's thread. */
  class TimerDaemon {
    var list: TimerNode?
    var heap: map<nat, Payload>
    var nextBlock: nat
    var sent: seq<Payload>
    var dead: set<TimerNode>
    var status: Status

    ghost var nodes: map<nat, TimerNode>  // the timers that exist, by address
    ghost var world: set<TimerNode>       // all that ever existed
    ghost var ring: seq<TimerNode>
    ghost var current: TimerNode?         // the pt_timer of the daemon's thread
    ghost var abs: Daemon

    ghost predicate Valid()
      reads this, world, ring
    {
      Inv(abs) && NodesOk() && RingOk() && HeapOk() && ThreadOk()
    }

    /** The timer the daemon's thread is about to call back for: still known, or given back. */
    ghost predicate ThreadOk()
      reads this
    {
      && status == abs.status && (forall i :: i in nodes ==> nodes[i] !in dead)
      && (abs.pending.Some? ==>
            && current != null && current.id == abs.pending.value.timer
            && if abs.pending.value.gone then current in dead else current.id in nodes && nodes[current.id] == current)
    }

    ghost predicate NodesOk()
      reads this, world
    {
      && nodes.Keys == abs.timers.Keys
      && forall i :: i in nodes ==> nodes[i] in world && NodeOk(i)
    }

    /** A timer's fields say what the model says; its links are null unless it is listed. */
    ghost predicate NodeOk(i: nat)
      requires i in nodes
      reads this, nodes[i]
    {
      && nodes[i].id == i && i in abs.timers && nodes[i].Holds(abs.timers[i])
      && (nodes[i].previous == null <==> i !in abs.list) && (nodes[i].next == null <==> i !in abs.list)
    }

    ghost predicate RingOk()
      reads this, ring
    {
      && Ring(ring) && NoDup(ring) && |ring| == |abs.list|
      && (forall k :: 0 <= k < |ring| ==> abs.list[k] in nodes && ring[k] == nodes[abs.list[k]])
      && list == (if ring == [] then null else ring[0])
    }

    ghost predicate HeapOk()
      reads this
    {
      && heap.Keys == abs.live && (forall b :: b in heap ==> b < |abs.blocks| && heap[b] == abs.blocks[b])
      && nextBlock == |abs.blocks|
      && |sent| == |abs.fired| && forall k :: 0 <= k < |sent| ==> abs.fired[k].payload == sent[k]
    }

    constructor ()
      ensures Valid() && abs == Init() && nodes == map[]
    {
      list, heap, nextBlock, sent, dead, status := null, map[], 0, [], {}, Up;
      nodes, world, ring, current, abs := map[], {}, [], null, Init();
    }

    /** Timer t is one of this daemon's. */
    ghost predicate Knows(t: TimerNode)
      reads this, t
    {
      t.id in nodes && nodes[t.id] == t
    }

    lemma {:induction false} IdsKnown()
      requires NodesOk()
      ensures NodeIds()
      ensures RingOk() ==> forall k :: 0 <= k < |ring| ==> ring[k] in world
    {
      forall i | i in nodes ensures nodes[i].id == i { assert NodeOk(i); }
    }

    /** What is known of the node at position k of the ring. */
    lemma {:induction false} RingNode(k: nat)
      requires NodesOk() && RingOk() && k < |ring|
      ensures abs.list[k] in nodes && ring[k] == nodes[abs.list[k]] && ring[k] in world
      ensures ring[k].id == abs.list[k] && ring[k].Holds(TimerOf(abs.timers, abs.list[k]))
      ensures LinkedAt(ring, k) && ring[k].previous != null && ring[k].next != null
    {
      assert NodeOk(abs.list[k]);
    }

    lemma {:induction false} KnownNode(t: TimerNode)
      requires NodesOk() && Knows(t)
      ensures t.id in abs.timers && t.Holds(TimerOf(abs.timers, t.id)) && t in world
      ensures t.previous == null <==> t.id !in abs.list
    {
      assert NodeOk(t.id);
    }

    /** A known timer that is not listed is not in the ring. */
    lemma {:induction false} NotInRing(t: TimerNode)
      requires NodesOk() && RingOk() && Knows(t) && t.id !in abs.list
      ensures t !in ring
    {
      if t in ring {
        var k := Position(ring, t);
        RingNode(k);
      }
    }

    lemma {:induction false} Earlier(t: TimerNode, k: nat)
      requires NodesOk() && RingOk() && Knows(t) && k < |ring|
      ensures TimeBefore(t.abstime, ring[k].abstime)
         <==> TimerOf(abs.timers, t.id).deadline < TimerOf(abs.timers, abs.list[k]).deadline
    {
      RingNode(k);
      KnownNode(t);
      TimesAreExact(t.abstime, ring[k].abstime);
    }

    /** The search of timer_list_add: the first node after the head that is due later, or the
        head again. */
    method Search(t: TimerNode) returns (p: TimerNode, ghost k: nat)
      requires NodesOk() && RingOk() && Knows(t) && list != null && !TimeBefore(t.abstime, list.abstime)
      ensures 1 <= k <= |ring| && p == (if k == |ring| then ring[0] else ring[k])
      ensures Insert(abs.timers, abs.list, t.id) == abs.list[..k] + [t.id] + abs.list[k..]
    {
      hide NodesOk, Insert;
      RingNode(0);
      Earlier(t, 0);
      p, k := list.next, 1;
      while p != list && !TimeBefore(t.abstime, p.abstime)
        invariant 1 <= k <= |ring| && p == (if k == |ring| then ring[0] else ring[k])
        invariant forall j :: 0 <= j < k ==>
          TimerOf(abs.timers, t.id).deadline >= TimerOf(abs.timers, abs.list[j]).deadline
        decreases |ring| - k
      {
        RingNode(k);
        Earlier(t, k);
        p := p.next;
        k := k + 1;
      }
      if k < |ring| { Earlier(t, k); }
      InsertAt(abs.timers, abs.list, t.id, k);
    }

    /** The new head is t if it is due before the old head; the place to link it in front of. */
    method Place(t: TimerNode) returns (p: TimerNode, ghost k: nat)
      requires NodesOk() && RingOk() && Knows(t) && list != null
      modifies this`list
      ensures k <= |ring| && p == (if k == |ring| then ring[0] else ring[k])
      ensures list == (if k == 0 then t else old(list))
      ensures Insert(abs.timers, abs.list, t.id) == abs.list[..k] + [t.id] + abs.list[k..]
    {
      hide NodesOk, Insert;
      p, k := list, 0;
      RingNode(0);
      Earlier(t, 0);
      if TimeBefore(t.abstime, p.abstime) {
        list := t;
        InsertAt(abs.timers, abs.list, t.id, 0);
      } else {
        p, k := Search(t);
      }
    }

    /** Thread t into the ring; k is its place. */
    method LinkIn(t: TimerNode) returns (ghost k: nat)
      requires NodesOk() && RingOk() && Knows(t) && t.id !in abs.list
      modifies this`list, this`ring, world
      ensures k <= |old(ring)| && ring == old(ring)[..k] + [t] + old(ring)[k..]
      ensures Ring(ring) && NoDup(ring) && list == ring[0]
      ensures Insert(abs.timers, abs.list, t.id) == abs.list[..k] + [t.id] + abs.list[k..]
      ensures forall n :: n in world ==> SameFields(n) && (n !in ring ==> unchanged(n))
    {
      hide NodesOk, Insert;
      k := 0;
      IdsKnown();
      KnownNode(t);
      NotInRing(t);
      if list != null {
        ghost var q := ring;
        var p: TimerNode;
        p, k := Place(t);
        ghost var j := if k == |q| then 0 else k;
        assert Ring(q) && p == q[j];
        assert LinkedAt(q, j);
        PrevKnown(j);
        Splice(t, p, q, k);
      } else {
        t.previous, t.next := t, t;
        list := t;
        InsertAt(abs.timers, abs.list, t.id, 0);
      }
      ring := ring[..k] + [t] + ring[k..];
    }

    lemma {:induction false} PrevKnown(j: nat)
      requires j < |ring| && Ring(ring) && forall k :: 0 <= k < |ring| ==> ring[k] in world
      ensures ring[j].previous != null && ring[j].previous in world && ring[j].previous in ring
      ensures ring[j] in world
    {
      assert LinkedAt(ring, j);
    }

    /** timer_list_add */
    method ListAdd(t: TimerNode)
      requires Valid() && Knows(t) && t.id !in abs.list && Inv(AddS(abs, t.id))
      modifies this`list, this`ring, this`abs, world
      ensures Valid() && abs == AddS(old(abs), t.id) && t.callback == old(t.callback)
    {
      hide NodesOk, Inv, Insert, RingOk, Ring, NoDup, HeapOk, ThreadOk;
      IdsKnown();
      RingIs();
      ghost var k := LinkIn(t);
      abs := AddS(abs, t.id);
      AddedRing(t, k, old(ring), old(abs.list));
      HeapKept();
      StillLoose();
      Relinked();
      ThreadKept();
    }

    /** The daemon's thread is not concerned. */
    twostate lemma {:induction false} ThreadKept()
      requires old(ThreadOk()) && nodes == old(nodes) && dead == old(dead)
      requires current == old(current) && status == old(status)
      requires abs.pending == old(abs).pending && abs.status == old(abs).status
      ensures ThreadOk()
    {}

    /** The ring with t linked in at position k, given that it was the ring of list q. */
    lemma {:induction false} AddedRing(t: TimerNode, k: nat, r: seq<TimerNode>, q: seq<nat>)
      requires Knows(t) && |r| == |q| && k <= |q|
      requires forall j :: 0 <= j < |r| ==> q[j] in nodes && r[j] == nodes[q[j]]
      requires ring == r[..k] + [t] + r[k..] && abs.list == q[..k] + [t.id] + q[k..]
      requires Ring(ring) && NoDup(ring) && list == ring[0]
      ensures RingOk()
    {}

    /** Only links changed, and the links of unlisted timers are null. */
    twostate lemma {:induction false} Relinked()
      requires old(NodesOk()) && RingOk() && nodes == old(nodes) && abs.timers == old(abs.timers)
      requires world == old(world) && forall n :: n in world ==> SameFields(n)
      requires forall i :: i in nodes && i !in abs.list ==> nodes[i].previous == null && nodes[i].next == null
      ensures NodesOk()
    {
      forall i | i in nodes ensures NodeOk(i) {
        assert old(NodeOk(i));
        if i in abs.list {
          var k := Position(abs.list, i);
          assert LinkedAt(ring, k) && ring[k] == nodes[i];
        }
      }
    }

    /** Linking in leaves the timers that are not listed alone. */
    twostate lemma {:induction false} StillLoose()
      requires old(NodesOk()) && NodeIds() && RingOk() && nodes == old(nodes)
      requires forall i :: i in old(abs.list) ==> i in abs.list
      requires world == old(world) && forall n :: n in world && n !in ring ==> unchanged(n)
      ensures forall i :: i in nodes && i !in abs.list ==> nodes[i].previous == null && nodes[i].next == null
    {
      forall i | i in nodes && i !in abs.list ensures nodes[i].previous == null && nodes[i].next == null {
        assert old(NodeOk(i));
        if nodes[i] in ring { InRing(i); }
      }
    }

    /** A node in the ring is listed. */
    lemma {:induction false} InRing(i: nat)
      requires NodeIds() && RingOk() && i in nodes && nodes[i] in ring
      ensures i in abs.list
    {
      var k := Position(ring, nodes[i]);
      assert nodes[abs.list[k]].id == abs.list[k];
    }

    ghost predicate NodeIds()
      reads this
    {
      forall i :: i in nodes ==> nodes[i].id == i
    }

    twostate predicate SameLinks(n: TimerNode)
      reads n
    {
      n.previous == old(n.previous) && n.next == old(n.next)
    }

    /** Fields other than the links changed, of t alone. */
    twostate lemma {:induction false} Rewritten(t: TimerNode)
      requires old(NodesOk()) && Knows(t) && nodes == old(nodes) && world == old(world)
      requires abs.list == old(abs.list) && t.id in abs.timers
      requires abs.timers == old(abs.timers)[t.id := abs.timers[t.id]]
      requires forall n :: n in world ==> SameLinks(n) && (n != t ==> SameFields(n))
      requires t.Holds(abs.timers[t.id])
      ensures NodesOk()
    {
      forall i | i in nodes ensures NodeOk(i) { assert old(NodeOk(i)); }
    }

    twostate lemma {:induction false} SameRing()
      requires old(RingOk()) && ring == old(ring) && list == old(list) && abs.list == old(abs.list)
      requires forall k :: 0 <= k < |abs.list| ==> abs.list[k] in nodes && abs.list[k] in old(nodes)
      requires forall k :: 0 <= k < |abs.list| ==> nodes[abs.list[k]] == old(nodes)[abs.list[k]]
      requires forall k :: 0 <= k < |ring| ==> SameLinks(ring[k])
      ensures RingOk()
    {
      forall k | 0 <= k < |ring| ensures LinkedAt(ring, k) { assert old(LinkedAt(ring, k)) && SameLinks(ring[k]); }
    }

    /** Timer t changed to x. */
    ghost function Changed(t: TimerNode, x: Timer): Daemon
      reads this
    {
      abs.(timers := abs.timers[t.id := x])
    }

    /** The first part of timer_list_remove: free what a one-shot was to deliver. */
    method DropBlock(t: TimerNode)
      requires NodesOk() && RingOk() && HeapOk() && Knows(t)
      modifies this`heap, this`abs, t`args
      ensures NodesOk() && RingOk() && HeapOk() && abs == Dropped(old(abs), t.id)
    {
      hide NodesOk, RingOk, TimerNode.Holds;
      ghost var x := TimerOf(abs.timers, t.id);
      KnownNode(t);
      NeverArmed(t);
      RingIs();
      if t.interval.sec == 0 && t.interval.nsec == 0 {
        if t.args.Some? {
          heap := heap - {t.args.value};
          t.args := None;
          abs := Dropped(abs, t.id);
          BlockGone(t);
        }
      }
      assert abs == Dropped(old(abs), t.id);
      SameRing();
    }

    lemma {:induction false} NeverArmed(t: TimerNode)
      requires NodesOk() && Knows(t)
      ensures var x := TimerOf(abs.timers, t.id);
        (t.interval.sec == 0 && t.interval.nsec == 0 <==> x.interval == 0) && t.args == x.args && t.id in abs.timers
    {
      KnownNode(t);
      TimesAreExact(t.interval, TimeSpec(0, 0));
    }

    twostate lemma {:induction false} BlockGone(t: TimerNode)
      requires old(NodesOk()) && Knows(t) && nodes == old(nodes) && world == old(world)
      requires var x := TimerOf(old(abs).timers, t.id); x.interval == 0 && t.args.None? && x.args.Some?
      requires abs == Dropped(old(abs), t.id)
      requires forall n :: n in world ==> SameLinks(n) && (n != t ==> SameFields(n))
      requires t.abstime == old(t.abstime) && t.interval == old(t.interval) && t.callback == old(t.callback)
      ensures NodesOk()
    {
      assert old(NodeOk(t.id));
      assert t.Holds(TimerOf(old(abs).timers, t.id).(args := None));
      hide NodesOk;
      Rewritten(t);
    }

    /** Let the neighbours of t pass it over; k was its place. */
    method CutRing(t: TimerNode) returns (ghost k: nat)
      requires NodesOk() && RingOk() && Knows(t) && t.id in abs.list
      modifies this`list, this`ring, world
      ensures k < |old(ring)| && old(ring)[k] == t && ring == old(ring)[..k] + old(ring)[k + 1..]
      ensures Ring(ring) && NoDup(ring) && list == (if ring == [] then null else ring[0]) && t !in ring
      ensures forall n :: n in world ==> SameFields(n) && (n != t && n !in ring ==> unchanged(n))
    {
      hide NodesOk;
      KnownNode(t);
      k := Position(abs.list, t.id);
      RingNode(k);
      RingNode(Pred(k, |ring|));
      RingNode(Succ(k, |ring|));
      ghost var q := ring;
      if t.previous == t {
        list := null;
      } else {
        Unsplice(t, q, k);
        if list == t {
          list := t.next;
        }
      }
      ring := q[..k] + q[k + 1..];
    }

    method LinkOut(t: TimerNode) returns (ghost k: nat)
      requires NodesOk() && RingOk() && Knows(t) && t.id in abs.list
      modifies this`list, this`ring, world
      ensures k < |old(ring)| && old(ring)[k] == t && ring == old(ring)[..k] + old(ring)[k + 1..]
      ensures Ring(ring) && NoDup(ring) && list == (if ring == [] then null else ring[0])
      ensures t.previous == null && t.next == null
      ensures forall n :: n in world ==> SameFields(n) && (n != t && n !in ring ==> unchanged(n))
    {
      hide NodesOk, RingOk, Ring, NoDup;
      KnownNode(t);
      k := CutRing(t);
      t.previous, t.next := null, null;
    }

    /** After t left the ring, the links of unlisted timers are null. */
    twostate lemma {:induction false} LooseNow(t: TimerNode)
      requires old(NodesOk()) && NodeIds() && RingOk() && Knows(t) && nodes == old(nodes) && world == old(world)
      requires t.previous == null && t.next == null && forall i :: i in old(abs.list) && i != t.id ==> i in abs.list
      requires forall n :: n in world && n != t && n !in ring ==> unchanged(n)
      ensures forall i :: i in nodes && i !in abs.list ==> nodes[i].previous == null && nodes[i].next == null
    {
      forall i | i in nodes && i !in abs.list ensures nodes[i].previous == null && nodes[i].next == null {
        assert old(NodeOk(i));
        if i != t.id && nodes[i] in ring { InRing(i); }
      }
    }

    /** The ring without the node at position k. */
    lemma {:induction false} RemovedRing(t: TimerNode, k: nat, r: seq<TimerNode>, q: seq<nat>)
      requires Knows(t) && |r| == |q| && k < |q| && r[k] == t && NodeIds() && NoDup(q)
      requires forall j :: 0 <= j < |r| ==> q[j] in nodes && r[j] == nodes[q[j]]
      requires ring == r[..k] + r[k + 1..] && abs.list == Without(q, {t.id})
      requires Ring(ring) && NoDup(ring) && list == (if ring == [] then null else ring[0])
      ensures RingOk()
    {
      assert q[k] == t.id;
      hide Without;
      WithoutOne(q, k);
    }

    /** The second part of timer_list_remove: unlink t and clear its links. */
    method TakeOut(t: TimerNode)
      requires NodesOk() && RingOk() && HeapOk() && ThreadOk() && Knows(t) && t.id in abs.list && NoDup(abs.list)
      modifies this`list, this`ring, this`abs, world
      ensures NodesOk() && RingOk() && HeapOk() && ThreadOk() && t.callback == old(t.callback)
      ensures abs == old(abs).(list := Without(old(abs).list, {t.id}))
    {
      hide NodesOk, RingOk, HeapOk, ThreadOk, Ring, NoDup, Without;
      KnownNode(t);
      IdsKnown();
      ghost var s, r := abs, ring;
      RingIs();
      ghost var k := LinkOut(t);
      abs := s.(list := Without(s.list, {t.id}));
      RemovedRing(t, k, r, s.list);
      WithoutMembers(s.list, {t.id});
      LooseNow(t);
      Relinked();
      HeapKept();
      ThreadKept();
    }

    /** timer_list_remove */
    method ListRemove(t: TimerNode)
      requires Valid() && Knows(t) && t.id in abs.list
      modifies this`list, this`ring, this`abs, this`heap, world
      ensures Valid() && abs == RemoveS(old(abs), t.id) && t.callback == old(t.callback)
    {
      hide NodesOk, RingOk, HeapOk, ThreadOk, Inv, Without;
      RemoveInv(abs, t.id);
      DistinctList();
      KnownNode(t);
      DropBlock(t);
      ThreadKept();
      TakeOut(t);
    }

    lemma {:induction false} RingIs()
      requires RingOk()
      ensures |ring| == |abs.list| && forall j :: 0 <= j < |ring| ==>
        abs.list[j] in nodes && ring[j] == nodes[abs.list[j]]
    {}

    /** Heap and log do not depend on the list. */
    twostate lemma {:induction false} HeapKept()
      requires old(HeapOk()) && heap == old(heap) && nextBlock == old(nextBlock) && sent == old(sent)
      requires abs.live == old(abs).live && abs.blocks == old(abs).blocks && abs.fired == old(abs).fired
      ensures HeapOk()
    {}

    lemma {:induction false} DistinctList()
      requires Inv(abs)
      ensures NoDup(abs.list)
    {}

    // ---------- TimerProc ----------

    /** Fill in the fields of a timer that is not listed. */
    method SetTimer(t: TimerNode, a: TimeSpec, d: TimeSpec, callback: bool, args: Option<nat>)
      requires Valid() && Knows(t) && t.id !in abs.list && Normal(a) && Normal(d) && Ns(d) >= 0
      requires Inv(Changed(t, Timer(Ns(a), Ns(d), args, callback)))
      modifies this`abs, t`abstime, t`interval, t`callback, t`args
      ensures Valid() && abs == old(Changed(t, Timer(Ns(a), Ns(d), args, callback))) && t.callback == callback
    {
      hide NodesOk, RingOk, HeapOk, ThreadOk, Inv;
      KnownNode(t);
      IdsKnown();
      RingIs();
      t.abstime, t.interval, t.callback, t.args := a, d, callback, args;
      abs := Changed(t, Timer(Ns(a), Ns(d), args, callback));
      Rewritten(t);
      SameRing();
      HeapKept();
      ThreadKept();
    }

    /** _os_timer_cb_fct: send the message, if any, to the application. */
    method Deliver(p: Option<Payload>)
      modifies this`sent
      ensures sent == if p.Some? then old(sent) + [p.value] else old(sent)
    {
      if p.Some? {
        sent := sent + [p.value];
      }
    }

    twostate lemma {:induction false} SameNodes()
      requires old(NodesOk()) && nodes == old(nodes) && world == old(world)
      requires abs.timers == old(abs).timers && abs.list == old(abs).list && forall n :: n in world ==> unchanged(n)
      ensures NodesOk()
    {
      forall i | i in nodes ensures NodeOk(i) { assert old(NodeOk(i)); }
    }

    /** What is known of the head of the list. */
    lemma {:induction false} HeadNode()
      requires Valid() && list != null
      ensures abs.list != [] && list.id == abs.list[0] && Knows(list) && list in world
      ensures list.callback && list.args.Some? && list.args.value in heap
      ensures list.args == TimerOf(abs.timers, list.id).args
      ensures Contents(abs, list.args.value) == heap[list.args.value]
    {
      RingNode(0);
      assert abs.list[0] in abs.list;
      HeadBlock(abs);
    }

    /** The test for a repeating timer. */
    lemma {:induction false} IsRepeating(t: TimerNode)
      requires Valid() && Knows(t)
      ensures t.interval.sec != 0 || t.interval.nsec != 0 <==> TimerOf(abs.timers, t.id).interval != 0
      ensures t.Holds(TimerOf(abs.timers, t.id)) && t in world
    {
      hide Inv;
      KnownNode(t);
      TimesAreExact(t.interval, TimeSpec(0, 0));
      TimesAreExact(t.abstime, t.interval);
    }

    /** The repeating timer t, just taken off the list, is listed again. */
    method Rearm(t: TimerNode, ghost s: Daemon)
      requires Valid() && Knows(t) && Inv(s) && s.list != [] && t.id == s.list[0] && abs == RemoveS(s, t.id)
      requires TimerOf(s.timers, t.id).interval != 0
      modifies this`list, this`ring, this`abs, world
      ensures Valid() && abs == Requeue(s) && t.callback == old(t.callback)
    {
      hide Inv, NodesOk, RingOk, HeapOk, Insert, Without;
      RearmInv(s);
      IsRepeating(t);
      TimesAreExact(t.abstime, t.interval);
      SetTimer(t, AddTime(t.abstime, t.interval), t.interval, t.callback, t.args);
      ListAdd(t);
    }

    /** The head leaves the list and, if it is repeating, is listed again. */
    method RequeueFirst(t: TimerNode)
      requires Valid() && t == list
      modifies this`list, this`ring, this`abs, this`heap, world
      ensures old(abs).list != [] && Valid() && abs == Requeue(old(abs)) && Knows(t) && t.id == old(abs).list[0]
    {
      hide Inv, NodesOk, RingOk, HeapOk, ThreadOk, Insert, Without;
      HeadNode();
      IsRepeating(t);
      ghost var s := abs;
      RemoveInv(s, t.id);
      ListRemove(t);
      IsRepeating(t);
      if t.interval.sec != 0 || t.interval.nsec != 0 {
        Rearm(t, s);
      }
    }

    /** A round of the expiry loop up to the unlock: the local variables are the timer and the
        copy, if one was made. */
    method BeginRound() returns (t: TimerNode, pargs: Option<Payload>)
      requires Valid() && list != null
      modifies this`list, this`ring, this`abs, this`heap, this`current, world
      ensures old(abs).list != [] && Valid() && abs == BeginS(old(abs))
      ensures t == current && pargs == abs.pending.value.copy
    {
      hide Inv, NodesOk, RingOk, HeapOk, Requeue;
      HeadNode();
      t := list;
      IsRepeating(t);
      BeginEffect(abs);
      ghost var s := abs;
      pargs := None;
      if t.callback && t.interval.sec == 0 && t.interval.nsec == 0 && t.args.Some? {
        pargs := Some(heap[t.args.value]);
      }
      RequeueFirst(t);
      IdsKnown();
      RingIs();
      label requeued:
      current := t;
      abs := BeginS(s);
      SameNodes@requeued();
      SameRing@requeued();
      HeapKept@requeued();
    }

    /** The rest of the round, without the lock: t is read again. Other threads may have called
        since; if one has deleted t, its fields are no longer there. */
    method Callback(t: TimerNode, pargs: Option<Payload>)
      requires Valid() && abs.pending.Some? && t == current && pargs == abs.pending.value.copy
      modifies this`sent, this`abs, this`status
      ensures Valid() && abs == CallS(old(abs))
    {
      hide Inv, NodesOk, RingOk, HeapOk;
      CallInv(abs);
      RingIs();
      ghost var s := abs;
      if t in dead {
        status := DeletedRead;
      } else {
        IsRepeating(t);
        if t.callback {
          if t.interval.sec == 0 && t.interval.nsec == 0 {
            Deliver(pargs);
            if pargs.None? {
              status := NullRead;
            }
          } else {
            if t.args.Some? { KeepsBlock(t); }
            Deliver(if t.args.Some? then Some(heap[t.args.value]) else None);
          }
        }
      }
      abs := CallS(s);
      SameNodes();
      SameRing();
      SentKept();
    }

    /** The log of what was sent and the heap, after a callback. */
    twostate lemma {:induction false} SentKept()
      requires old(HeapOk()) && heap == old(heap) && nextBlock == old(nextBlock)
      requires abs.live == old(abs).live && abs.blocks == old(abs).blocks
      requires (sent == old(sent) && abs.fired == old(abs).fired)
            || (|abs.fired| == |old(abs).fired| + 1 && abs.fired == old(abs).fired + [abs.fired[|old(abs).fired|]]
                && sent == old(sent) + [abs.fired[|old(abs).fired|].payload])
      ensures HeapOk()
    {}

    /** One round of the expiry loop without calls of other threads in between. */
    method Round()
      requires Valid() && list != null
      modifies this`list, this`ring, this`abs, this`heap, this`sent, this`current, this`status, world
      ensures old(abs).list != [] && Valid() && abs == FireS(old(abs))
    {
      hide Inv, NodesOk, RingOk, HeapOk;
      var t, pargs := BeginRound();
      Callback(t, pargs);
    }

    /** The block of a timer is in the heap. */
    lemma {:induction false} KeepsBlock(t: TimerNode)
      requires Valid() && Knows(t) && t.args.Some?
      ensures t.args.value in heap && t.args == TimerOf(abs.timers, t.id).args && t.args.value < |abs.blocks|
      ensures heap[t.args.value] == abs.blocks[t.args.value]
    {
      KnownNode(t);
      assert OwnsAt(abs.timers, abs.live, t.id);
    }

    /** The inner loop of TimerProc, for the clock reading `now`. */
    method ExpiryLoop(now: TimeSpec)
      requires Valid() && Normal(now)
      modifies this`list, this`ring, this`abs, this`heap, this`sent, this`current, this`status, world
      ensures Valid() && abs == Expire(old(abs), Ns(now))
    {
      hide Inv, NodesOk, RingOk, HeapOk, FireS, Work;
      HeadDue(now);
      while list != null && TimeBefore(list.abstime, now)
        invariant Valid() && Expire(abs, Ns(now)) == Expire(old(abs), Ns(now))
        invariant list != null && TimeBefore(list.abstime, now) <==> Due(abs, Ns(now))
        decreases Work(abs.timers, abs.list, Ns(now))
      {
        FireWork(abs, Ns(now));
        Round();
        HeadDue(now);
      }
    }

    /** The loop's test on the head. */
    lemma {:induction false} HeadDue(now: TimeSpec)
      requires Valid() && Normal(now)
      ensures list != null && TimeBefore(list.abstime, now) <==> Due(abs, Ns(now))
    {
      hide Inv;
      if list != null {
        HeadNode();
        IsRepeating(list);
        TimesAreExact(list.abstime, now);
      } else {
        RingIs();
      }
    }

    // ---------- the API ----------

    /** u_timer_create */
    method Create(ghost i: nat) returns (t: TimerNode)
      requires Valid() && i !in abs.timers
      modifies this`nodes, this`world, this`abs
      ensures Valid() && fresh(t) && Knows(t) && t.id == i && world == old(world) + {t}
      ensures abs == CreateS(old(abs), i)
    {
      hide Inv, NodesOk, RingOk, HeapOk, ThreadOk;
      IdsKnown();
      RingIs();
      CreateInv(abs, i);
      t := new TimerNode(i);
      nodes, world := nodes[i := t], world + {t};
      abs := CreateS(abs, i);
      NodesGrown(i);
      SameRing();
      HeapKept();
      ThreadGrown(i);
    }

    twostate lemma {:induction false} ThreadGrown(i: nat)
      requires old(ThreadOk()) && old(NodesOk()) && i !in old(abs).timers && abs == CreateS(old(abs), i)
      requires i in nodes && nodes == old(nodes)[i := nodes[i]] && nodes[i] !in dead
      requires dead == old(dead) && current == old(current) && status == old(status)
      ensures ThreadOk()
    {}

    /** A new timer, of calloc's fields, under a new address. */
    twostate lemma {:induction false} NodesGrown(i: nat)
      requires old(NodesOk()) && i !in old(abs).timers && abs == CreateS(old(abs), i) && i !in abs.list
      requires i in nodes && nodes == old(nodes)[i := nodes[i]] && world == old(world) + {nodes[i]}
      requires nodes[i].id == i && nodes[i].previous == null
      requires nodes[i].next == null && nodes[i].args.None? && !nodes[i].callback
      requires nodes[i].abstime == TimeSpec(0, 0) && nodes[i].interval == TimeSpec(0, 0)
      requires forall n :: n in old(world) ==> unchanged(n)
      ensures NodesOk()
    {
      forall j | j in nodes ensures nodes[j] in world && NodeOk(j) {
        if j != i { assert old(NodeOk(j)); }
      }
    }

    twostate lemma {:induction false} NodesShrunk(i: nat)
      requires old(NodesOk()) && nodes == old(nodes) - {i} && world == old(world)
      requires abs.timers == old(abs).timers - {i} && abs.list == old(abs).list
      requires forall n :: n in world ==> unchanged(n)
      ensures NodesOk()
    {
      forall j | j in nodes ensures NodeOk(j) { assert old(NodeOk(j)); }
    }

    /** Timer t was given back; the daemon's thread may be about to call back for it. */
    twostate lemma {:induction false} ThreadShrunk(t: TimerNode)
      requires old(ThreadOk()) && NodeIds() && old(Knows(t)) && old(NodeIds())
      requires nodes == old(nodes) - {t.id} && dead == old(dead) + {t}
      requires current == old(current) && status == old(status) && abs.status == old(abs).status
      requires abs.pending
            == if Awaits(old(abs), t.id) then Some(old(abs).pending.value.(gone := true)) else old(abs).pending
      ensures ThreadOk()
    {}

    /** _timer_start: args is a block no timer holds yet. */
    method TimerStart(t: TimerNode, now: TimeSpec, delay: nat, flag: nat, callback: bool, args: nat) returns (r: Code)
      requires Valid() && Knows(t) && Normal(now) && args in abs.live
      requires forall u :: u in abs.timers ==> TimerOf(abs.timers, u).args != Some(args)
      modifies this`list, this`ring, this`abs, this`heap, world
      ensures Valid()
      ensures (r, abs) == if callback then ArmS(old(abs), t.id, Ns(now), delay, flag, args) else (InvArg, old(abs))
    {
      hide Inv, NodesOk, RingOk, HeapOk, ThreadOk, Insert, Without;
      if !callback || delay == 0 || (flag != ONCE && flag != REPEAT) {
        return InvArg;
      }
      KnownNode(t);
      DelayIsExact(delay);
      TimesAreExact(now, Delay(delay));
      ArmInv(abs, t.id, Ns(now), delay, flag, args);
      if t.previous != null {
        ListRemove(t);
      }
      var interval := if flag == ONCE then TimeSpec(0, 0) else Delay(delay);
      SetTimer(t, AddTime(now, Delay(delay)), interval, callback, Some(args));
      ListAdd(t);
      return OK;
    }

    /** u_timer_start */
    method Start(t: TimerNode, now: TimeSpec, delay: nat, flag: nat, p: Payload) returns (r: Code)
      requires Valid() && Knows(t) && Normal(now)
      modifies this`list, this`ring, this`abs, this`heap, this`nextBlock, world
      ensures Valid() && (r, abs) == StartS(old(abs), t.id, Ns(now), delay, flag, p)
    {
      hide Inv, NodesOk, RingOk, Insert, ThreadOk;
      KnownNode(t);
      RingIs();
      var b := nextBlock;
      heap, nextBlock := heap[b := p], b + 1;
      NewBlock(abs, p);
      abs := abs.(blocks := abs.blocks + [p], live := abs.live + {|abs.blocks|});
      SameNodes();
      SameRing();
      ThreadKept();
      hide HeapOk;
      r := TimerStart(t, now, delay, flag, true, b);
    }

    /** u_timer_stop */
    method Stop(t: TimerNode, now: TimeSpec)
      requires Valid() && Knows(t) && Normal(now)
      modifies this`list, this`ring, this`abs, this`heap, world
      ensures Valid() && abs == StopS(old(abs), t.id, Ns(now))
    {
      hide Inv, NodesOk, RingOk, HeapOk, ThreadOk, Insert, Without;
      KnownNode(t);
      if t.previous != null {
        RemoveInv(abs, t.id);
        ListRemove(t);
        IsRepeating(t);
        TimesAreExact(t.abstime, now);
        RetimeInv(abs, t.id, TimerOf(abs.timers, t.id).deadline - Ns(now));
        SetTimer(t, Remaining(t.abstime, now), t.interval, t.callback, t.args);
      }
    }

    /** free(pt_timer), for a timer that is not listed. */
    method GiveBack(t: TimerNode)
      requires Valid() && Knows(t) && t.id !in abs.list
      modifies this`abs, this`nodes, this`dead
      ensures Valid() && abs == DeleteS(old(abs), t.id) && t.id !in nodes && dead == old(dead) + {t}
    {
      hide Inv, NodesOk, RingOk, HeapOk, ThreadOk;
      ForgetInv(abs, t.id);
      IdsKnown();
      RingIs();
      nodes, dead := nodes - {t.id}, dead + {t};
      abs := DeleteS(abs, t.id);
      NodesShrunk(t.id);
      SameRing();
      HeapKept();
      ThreadShrunk(t);
    }

    /** u_timer_delete */
    method Delete(t: TimerNode)
      requires Valid() && Knows(t)
      modifies this`list, this`ring, this`abs, this`heap, this`nodes, this`dead, world
      ensures Valid() && abs == DeleteS(old(abs), t.id) && t.id !in nodes && t in dead
    {
      hide Inv, NodesOk, RingOk, HeapOk, ThreadOk, Without;
      KnownNode(t);
      if t.previous != null {
        RemoveInv(abs, t.id);
        ListRemove(t);
      }
      GiveBack(t);
    }
  }

  lemma {:induction false} InsertAt(m: map<nat, Timer>, q: seq<nat>, t: nat, k: nat)
    requires k <= |q| && forall j :: 0 <= j < k ==> TimerOf(m, t).deadline >= TimerOf(m, q[j]).deadline
    requires k < |q| ==> TimerOf(m, t).deadline < TimerOf(m, q[k]).deadline
    ensures Insert(m, q, t) == q[..k] + [t] + q[k..]
  {
    if k > 0 {
      InsertAt(m, q[1..], t, k - 1);
      CutTail(q, k);
      Regroup([q[0]], q[1..][..k - 1], [t]);
      Regroup([q[0]], q[1..][..k - 1] + [t], q[k..]);
    } else {
      assert q[..0] + [t] + q[0..] == [t] + q;
    }
  }
}
