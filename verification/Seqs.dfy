/** Options, and facts about sequences that the list models share. */
module Seqs {

  datatype Option<+T> = None | Some(value: T)

  predicate NoDup<T(==)>(q: seq<T>) {
    forall i, j :: 0 <= i < j < |q| ==> q[i] != q[j]
  }

  /** Element k, or 0 outside the sequence: the link a list member carries to that neighbour. */
  function Nth(q: seq<nat>, k: int): nat {
    if 0 <= k < |q| then q[k] else 0
  }

  /** The elements of q that are not in f, in order. */
  function Without<T(==)>(q: seq<T>, f: set<T>): seq<T> {
    if q == [] then []
    else if q[0] in f then Without(q[1..], f)
    else [q[0]] + Without(q[1..], f)
  }

  lemma {:induction false} WithoutMembers<T>(q: seq<T>, f: set<T>)
    ensures forall x :: x in Without(q, f) <==> x in q && x !in f
    ensures NoDup(q) ==> NoDup(Without(q, f))
    ensures |Without(q, f)| <= |q|
  {
    if q != [] {
      WithoutMembers(q[1..], f);
      assert q == [q[0]] + q[1..];
    }
  }

  lemma {:induction false} WithoutConcat<T>(a: seq<T>, b: seq<T>, f: set<T>)
    ensures Without(a + b, f) == Without(a, f) + Without(b, f)
  {
    if a == [] {
      assert a + b == b;
    } else {
      assert (a + b)[1..] == a[1..] + b;
      WithoutConcat(a[1..], b, f);
    }
  }

  lemma {:induction false} WithoutTwice<T>(q: seq<T>, f: set<T>, g: set<T>)
    ensures Without(Without(q, f), g) == Without(q, f + g)
  {
    if q != [] {
      WithoutTwice(q[1..], f, g);
      if q[0] !in f {
        assert ([q[0]] + Without(q[1..], f))[1..] == Without(q[1..], f);
      }
    }
  }

  lemma {:induction false} WithoutNothing<T>(q: seq<T>, f: set<T>)
    requires forall x :: x in q ==> x !in f
    ensures Without(q, f) == q
  {
    if q != [] {
      assert forall x :: x in q[1..] ==> x in q;
      WithoutNothing(q[1..], f);
    }
  }

  /** Taking one member out of a list cuts it at that member's position. */
  lemma {:induction false} WithoutOne<T>(q: seq<T>, k: nat)
    requires k < |q| && NoDup(q)
    ensures Without(q, {q[k]}) == q[..k] + q[k + 1..]
  {
    assert q == q[..k] + ([q[k]] + q[k + 1..]);
    WithoutConcat(q[..k], [q[k]] + q[k + 1..], {q[k]});
    WithoutConcat([q[k]], q[k + 1..], {q[k]});
    WithoutNothing(q[..k], {q[k]});
    WithoutNothing(q[k + 1..], {q[k]});
  }

  /** At most as many elements disappear as the removed set holds. */
  lemma {:induction false} WithoutLoss<T>(q: seq<T>, f: set<T>)
    requires NoDup(q)
    ensures |q| - |Without(q, f)| <= |f|
  {
    if q != [] {
      WithoutMembers(q[1..], f);
      if q[0] in f {
        var g := f - {q[0]};
        WithoutLoss(q[1..], g);
        WithoutTwice(q[1..], {q[0]}, g);
        WithoutNothing(q[1..], {q[0]});
        assert {q[0]} + g == f;
      } else {
        WithoutLoss(q[1..], f);
      }
    }
  }

  lemma {:induction false} WithoutSame<T>(q: seq<T>, f: set<T>, g: set<T>)
    requires forall x :: x in q ==> (x in f <==> x in g)
    ensures Without(q, f) == Without(q, g)
  {
    if q != [] {
      assert q[0] in q;
      assert forall x :: x in q[1..] ==> x in q;
      WithoutSame(q[1..], f, g);
    }
  }

  lemma {:induction false} NoDupConcat<T>(a: seq<T>, b: seq<T>)
    requires NoDup(a) && NoDup(b) && forall x :: x in a ==> x !in b
    ensures NoDup(a + b)
  {
    var q := a + b;
    forall i, j | 0 <= i < j < |q|
      ensures q[i] != q[j]
    {
      if i < |a| <= j {
        assert q[i] in a && q[j] in b;
      }
    }
  }

  lemma {:induction false} Regroup<T>(a: seq<T>, b: seq<T>, c: seq<T>)
    ensures a + (b + c) == a + b + c
  {}

  lemma {:induction false} HeadOrTail<T>(q: seq<T>, x: T)
    requires q != []
    ensures x in q <==> x == q[0] || x in q[1..]
  {
    assert q == [q[0]] + q[1..];
  }

  lemma {:induction false} CutTail<T>(q: seq<T>, k: nat)
    requires 0 < k <= |q|
    ensures q[..k] == [q[0]] + q[1..][..k - 1] && q[k..] == q[1..][k - 1..]
  {}

  lemma {:induction false} Position<T>(q: seq<T>, x: T) returns (k: nat)
    requires x in q
    ensures k < |q| && q[k] == x
  {
    k :| 0 <= k < |q| && q[k] == x;
  }
}
