/** Ids in increasing order: what `ORDER BY id` and `LIMIT` answer over a set of row ids. */
module Ordered {

  lemma HasMember(s: set<int>)
    requires s != {}
    ensures exists x :: x in s
  {
    if forall x :: x !in s { assert false; }
  }

  predicate Within(x: int, s: set<int>) { x in s }

  lemma SameSet(a: set<int>, b: set<int>)
    requires forall x :: Within(x, a) <==> Within(x, b)
    ensures a == b
  {
    forall x: int | x in a ensures x in b { assert Within(x, a); }
    forall x: int | x in b ensures x in a { assert Within(x, b); }
  }

  lemma {:induction false} MinExists(s: set<int>)
    requires s != {}
    ensures exists m :: m in s && forall x :: x in s ==> m <= x
    decreases |s|
  {
    HasMember(s);
    var a :| a in s;
    var rest := s - {a};
    assert s == rest + {a};
    var least := a;
    if rest != {} {
      MinExists(rest);
      var m :| m in rest && forall x :: x in rest ==> m <= x;
      least := if a < m then a else m;
    }
    assert least in s && forall x :: x in s ==> least <= x;
  }

  function Least(s: set<int>): (m: int)
    requires s != {}
    ensures m in s && forall x :: x in s ==> m <= x
  {
    MinExists(s);
    var m :| m in s && forall x :: x in s ==> m <= x;
    m
  }

  /** Lists s in increasing order. */
  function Ascending(s: set<int>): (q: seq<int>)
    ensures forall i, j :: 0 <= i < j < |q| ==> q[i] < q[j]
    ensures forall x :: x in q <==> x in s
    decreases |s|
  {
    if s == {} then [] else
      var m := Least(s);
      var rest := Ascending(s - {m});
      [m] + rest
  }

  lemma {:induction false} AscendingCounts(s: set<int>)
    ensures |Ascending(s)| == |s|
    decreases |s|
  {
    if s != {} {
      MinExists(s);
      var m :| m in s && forall x :: x in s ==> m <= x;
      AscendingCounts(s - {m});
      LeastIsFirst(s, m);
    }
  }

  lemma LeastIsFirst(s: set<int>, m: int)
    requires m in s && forall x :: x in s ==> m <= x
    ensures Ascending(s) == [m] + Ascending(s - {m})
  {
  }

  lemma OneAscending(a: int)
    ensures Ascending({a}) == [a]
  {
    LeastIsFirst({a}, a);
    assert {a} - {a} == {};
  }

  lemma TwoAscending(a: int, b: int)
    requires a < b
    ensures Ascending({a, b}) == [a, b]
  {
    LeastIsFirst({a, b}, a);
    assert {a, b} - {a} == {b};
    OneAscending(b);
  }

  /** The first `limit` entries of q. */
  function Limit<T>(q: seq<T>, limit: nat): (r: seq<T>)
    ensures r <= q
    ensures |r| <= limit
    ensures |r| == limit || r == q
  {
    if |q| <= limit then q else q[..limit]
  }

  /** The ids past a cursor. */
  function Beyond(ids: set<int>, after: int): set<int> { set k | k in ids && k > after }

  lemma {:induction false} Fewer(a: set<int>, b: set<int>)
    requires forall k: int | k in a :: k in b
    ensures |a| <= |b|
    decreases |a|
  {
    if a != {} {
      HasMember(a);
      var x :| x in a;
      Fewer(a - {x}, b - {x});
    }
  }

  /** One more than the largest id, or 1 over no ids: the id SQLite gives the next row of an
      INTEGER PRIMARY KEY table declared without AUTOINCREMENT. */
  function NextId(s: set<int>): (id: int)
    ensures forall x :: x in s ==> x < id
    ensures s == {} ==> id == 1
    ensures (forall x :: x in s ==> x >= 1) ==> id >= 1
  {
    var q := Ascending(s);
    assert forall x :: x in s ==> x in q;
    if q == [] then 1 else q[|q| - 1] + 1
  }
}
