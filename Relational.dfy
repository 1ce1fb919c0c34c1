/** pandas `merge(how='inner')` on one key column, as a nested-loop join:
    every left row, in order, followed by each right row with the same key,
    in the right table's order (the row order of pandas 2.2 and later). */
module Relational {

  /** The right rows whose key is `k`, in order. */
  function Matching<R(!new), K(==)>(rs: seq<R>, rkey: R -> K, k: K): (m: seq<R>)
    ensures forall r :: r in m <==> r in rs && rkey(r) == k
    ensures forall r :: multiset(m)[r] == if rkey(r) == k then multiset(rs)[r] else 0
  {
    if rs == [] then []
    else
      assert rs == [rs[0]] + rs[1..];
      if rkey(rs[0]) == k then [rs[0]] + Matching(rs[1..], rkey, k)
      else Matching(rs[1..], rkey, k)
  }

  /** One left row paired with each of its right matches. */
  function PairWith<L, R>(l: L, ms: seq<R>): (p: seq<(L, R)>)
    ensures |p| == |ms|
    ensures forall k :: 0 <= k < |p| ==> p[k] == (l, ms[k])
  {
    seq(|ms|, k requires 0 <= k < |ms| => (l, ms[k]))
  }

  /** `left.merge(right, left_on=lkey, right_on=rkey, how='inner')`. */
  function InnerJoin<L, R(!new), K(==)>(ls: seq<L>, rs: seq<R>, lkey: L -> K, rkey: R -> K): seq<(L, R)>
  {
    if ls == [] then []
    else PairWith(ls[0], Matching(rs, rkey, lkey(ls[0]))) + InnerJoin(ls[1..], rs, lkey, rkey)
  }

  /** The number of joined rows: each left row contributes its number of matches. */
  function JoinSize<L, R(!new), K(==)>(ls: seq<L>, rs: seq<R>, lkey: L -> K, rkey: R -> K): nat
  {
    if ls == [] then 0
    else |Matching(rs, rkey, lkey(ls[0]))| + JoinSize(ls[1..], rs, lkey, rkey)
  }

  lemma {:induction false} JoinLength<L, R(!new), K>(ls: seq<L>, rs: seq<R>, lkey: L -> K, rkey: R -> K)
    ensures |InnerJoin(ls, rs, lkey, rkey)| == JoinSize(ls, rs, lkey, rkey)
  {
    if ls != [] {
      JoinLength(ls[1..], rs, lkey, rkey);
    }
  }

  /** A pair is in the join exactly when it is a left row and a right row with equal keys. */
  lemma {:induction false} JoinMember<L, R(!new), K>(ls: seq<L>, rs: seq<R>, lkey: L -> K, rkey: R -> K, l: L, r: R)
    ensures (l, r) in InnerJoin(ls, rs, lkey, rkey) <==> l in ls && r in rs && lkey(l) == rkey(r)
  {
    if ls != [] {
      JoinMember(ls[1..], rs, lkey, rkey, l, r);
      var head := PairWith(ls[0], Matching(rs, rkey, lkey(ls[0])));
      assert (l, r) in head <==> l == ls[0] && r in Matching(rs, rkey, lkey(ls[0])) by {
        if (l, r) in head {
          var k :| 0 <= k < |head| && head[k] == (l, r);
        }
        if l == ls[0] && r in Matching(rs, rkey, lkey(ls[0])) {
          var m := Matching(rs, rkey, lkey(ls[0]));
          var k :| 0 <= k < |m| && m[k] == r;
          assert head[k] == (l, r);
        }
      }
      assert ls == [ls[0]] + ls[1..];
    }
  }

  /** How often a pair occurs in the join: once per copy of the left row times
      once per copy of the right row, when the keys agree. */
  lemma {:induction false} JoinMultiplicity<L, R(!new), K>(ls: seq<L>, rs: seq<R>, lkey: L -> K, rkey: R -> K, l: L, r: R)
    ensures multiset(InnerJoin(ls, rs, lkey, rkey))[(l, r)]
         == if lkey(l) == rkey(r) then multiset(ls)[l] * multiset(rs)[r] else 0
  {
    if ls != [] {
      var head := PairWith(ls[0], Matching(rs, rkey, lkey(ls[0])));
      var tail := InnerJoin(ls[1..], rs, lkey, rkey);
      assert multiset(InnerJoin(ls, rs, lkey, rkey))[(l, r)] == multiset(head)[(l, r)] + multiset(tail)[(l, r)] by {
        assert InnerJoin(ls, rs, lkey, rkey) == head + tail;
        assert multiset(head + tail) == multiset(head) + multiset(tail);
      }
      JoinMultiplicity(ls[1..], rs, lkey, rkey, l, r);
      PairWithMultiplicity(ls[0], Matching(rs, rkey, lkey(ls[0])), l, r);
      HeadMultiplicity(ls, l);
      var a, b := multiset(ls[1..])[l], multiset(rs)[r];
      if lkey(l) == rkey(r) && ls[0] == l {
        MulSucc(a, b);
      }
    }
  }

  lemma MulSucc(a: int, b: int)
    ensures (a + 1) * b == a * b + b
  {
  }

  lemma HeadMultiplicity<T>(s: seq<T>, x: T)
    requires s != []
    ensures multiset(s)[x] == (if s[0] == x then 1 else 0) + multiset(s[1..])[x]
  {
    assert s == [s[0]] + s[1..];
    assert multiset(s) == multiset([s[0]]) + multiset(s[1..]);
  }

  lemma {:induction false} PairWithMultiplicity<L, R>(l0: L, ms: seq<R>, l: L, r: R)
    ensures multiset(PairWith(l0, ms))[(l, r)] == if l0 == l then multiset(ms)[r] else 0
  {
    if ms != [] {
      var p := PairWith(l0, ms);
      PairWithMultiplicity(l0, ms[1..], l, r);
      assert p[1..] == PairWith(l0, ms[1..]);
      HeadMultiplicity(p, (l, r));
      HeadMultiplicity(ms, r);
    }
  }

  /** A left row without a match contributes no row. */
  lemma UnmatchedDropped<L, R(!new), K>(ls: seq<L>, rs: seq<R>, lkey: L -> K, rkey: R -> K, l: L)
    requires forall r :: r in rs ==> rkey(r) != lkey(l)
    ensures forall p :: p in InnerJoin(ls, rs, lkey, rkey) ==> p.0 != l
  {
    forall p | p in InnerJoin(ls, rs, lkey, rkey) ensures p.0 != l {
      JoinMember(ls, rs, lkey, rkey, p.0, p.1);
    }
  }
}
