/**
  Entity ids. The game keys its bullets, enemies and stars by small
  non-negative integers, and iterates over those maps with `for…in`, which
  visits integer keys in ascending numeric order. The loops of the model
  reproduce that order by taking the smallest id still pending.
 */
module Ids {

  /** The ids 0 .. n-1, as handed out by the counting loops that fill a map. */
  function IdRange(n: nat): (r: set<nat>)
    ensures forall i: nat :: i in r <==> i < n
  {
    if n == 0 then {} else IdRange(n - 1) + {n - 1}
  }

  /** A range of n ids holds exactly n ids. */
  lemma {:induction false} IdRangeSize(n: nat)
    ensures |IdRange(n)| == n
  {
    if n > 0 {
      var below := IdRange(n - 1);
      IdRangeSize(n - 1);
      assert n - 1 !in below;
      assert IdRange(n) == below + {n - 1};
    }
  }

  /** A map keyed by exactly the ids 0 .. n-1 holds n entries. */
  lemma CountKeys<V>(m: map<nat, V>, n: nat)
    requires forall k: nat :: k in m <==> k < n
    ensures m.Keys == IdRange(n)
    ensures |m| == n
  {
    assert m.Keys == IdRange(n);
    IdRangeSize(n);
    assert |m| == |m.Keys|;
  }

  predicate IsLeast(m: nat, s: set<nat>)
  {
    m in s && forall k :: k in s ==> m <= k
  }

  /** Every non-empty finite set of ids has a least element. */
  lemma {:induction false} LeastExists(s: set<nat>)
    requires s != {}
    ensures exists m :: IsLeast(m, s)
    decreases s
  {
    var x :| x in s;
    if s == {x} {
      assert IsLeast(x, s);
    } else {
      LeastExists(s - {x});
      var m :| IsLeast(m, s - {x});
      assert forall k :: k in s ==> k == x || k in s - {x};
      if x < m {
        assert IsLeast(x, s);
      } else {
        assert IsLeast(m, s);
      }
    }
  }

  /** The id a `for…in` loop visits next among the ids still pending. */
  method Smallest(pending: set<nat>) returns (m: nat)
    requires pending != {}
    ensures m in pending
    ensures forall k :: k in pending ==> m <= k
  {
    LeastExists(pending);
    m :| IsLeast(m, pending);
  }

  /** A subset is no larger than its superset. */
  lemma {:induction false} SubsetSize(a: set<nat>, b: set<nat>)
    requires a <= b
    ensures |a| <= |b|
    decreases b
  {
    if a != {} {
      var x :| x in a;
      SubsetSize(a - {x}, b - {x});
    }
  }
}
