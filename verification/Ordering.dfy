/** Rows ordered by two integer columns, as in `ORDER BY a, b`. */
module Ordering {

  type Row = (int, int)

  predicate Before(a: Row, b: Row) {
    a.0 < b.0 || (a.0 == b.0 && a.1 < b.1)
  }

  predicate Ascending(q: seq<Row>) {
    forall i, j :: 0 <= i < j < |q| ==> Before(q[i], q[j])
  }

  predicate IsLeast(m: Row, s: set<Row>) {
    m in s && forall x :: x in s && x != m ==> Before(m, x)
  }

  lemma {:induction false} LeastExists(s: set<Row>)
    requires s != {}
    ensures exists m :: IsLeast(m, s)
  {
    var x :| x in s;
    if s == {x} {
      assert IsLeast(x, s);
    } else {
      LeastExists(s - {x});
      var y :| IsLeast(y, s - {x});
      var m := if Before(y, x) then y else x;
      assert s == (s - {x}) + {x};
      assert IsLeast(m, s);
    }
  }

  ghost function Least(s: set<Row>): (m: Row)
    requires s != {}
    ensures IsLeast(m, s)
  {
    LeastExists(s);
    var m :| IsLeast(m, s);
    m
  }

  /** The rows of `s` in order. */
  ghost function Sorted(s: set<Row>): (q: seq<Row>)
    decreases |s|
  {
    if s == {} then [] else [Least(s)] + Sorted(s - {Least(s)})
  }

  lemma {:induction false} SortedIsAscending(s: set<Row>)
    ensures Ascending(Sorted(s))
    ensures |Sorted(s)| == |s|
    ensures forall x :: x in Sorted(s) <==> x in s
    decreases |s|
  {
    if s != {} {
      var m := Least(s);
      SortedIsAscending(s - {m});
      var rest := Sorted(s - {m});
      assert Sorted(s) == [m] + rest;
      forall j | 0 <= j < |rest|
        ensures Before(m, rest[j])
      {
        assert rest[j] in s - {m};
      }
    }
  }

  /** Two ordered lists of the same rows are equal, so `ORDER BY` on a key has one answer. */
  lemma {:induction false} AscendingIsUnique(a: seq<Row>, b: seq<Row>)
    requires Ascending(a) && Ascending(b)
    requires forall x :: x in a <==> x in b
    ensures a == b
  {
    if b != [] {
      assert b[0] in a;
    }
    if a != [] {
      assert a[0] in b;
      assert b != [];
      assert b[0] in a;
      assert a[0] == b[0];
      forall x
        ensures x in a[1..] <==> x in b[1..]
      {
        assert x in a <==> x == a[0] || x in a[1..];
        assert x in b <==> x == b[0] || x in b[1..];
        assert a[0] !in a[1..] && b[0] !in b[1..];
      }
      AscendingIsUnique(a[1..], b[1..]);
      assert a == [a[0]] + a[1..] && b == [b[0]] + b[1..];
    }
  }

  lemma SortedIsUnique(s: set<Row>, q: seq<Row>)
    requires Ascending(q)
    requires forall x :: x in q <==> x in s
    ensures q == Sorted(s)
  {
    SortedIsAscending(s);
    AscendingIsUnique(q, Sorted(s));
  }

  lemma Inserted(a: seq<Row>, x: Row, b: seq<Row>)
    requires Ascending(a) && Ascending(b)
    requires forall y :: y in a ==> Before(y, x)
    requires forall y :: y in b ==> Before(x, y)
    ensures Ascending(a + [x] + b)
    ensures forall y :: y in a + [x] + b <==> y in a || y == x || y in b
  {
    var r := a + [x] + b;
    assert forall y :: y in r <==> y in a || y == x || y in b;
    forall i, j | 0 <= i < j < |r|
      ensures Before(r[i], r[j])
    {
      assert i < |a| ==> a[i] in a;
      assert j > |a| ==> b[j - |a| - 1] in b;
      if i < |a| < j {
        assert Before(a[i], x) && Before(x, b[j - |a| - 1]);
      }
    }
  }

  lemma Slices(q: seq<Row>, p: nat)
    requires Ascending(q) && p <= |q|
    ensures Ascending(q[..p]) && Ascending(q[p..])
    ensures forall y :: y in q <==> y in q[..p] || y in q[p..]
  {
    assert q == q[..p] + q[p..];
  }

  /** One row put in its place. */
  method InsertRow(sorted: seq<Row>, x: Row) returns (r: seq<Row>)
    requires Ascending(sorted) && x !in sorted
    ensures Ascending(r)
    ensures forall y :: y in r <==> y in sorted || y == x
  {
    var p := 0;
    while p < |sorted| && Before(sorted[p], x)
      invariant 0 <= p <= |sorted|
      invariant forall k :: 0 <= k < p ==> Before(sorted[k], x)
    {
      p := p + 1;
    }
    forall k | p <= k < |sorted|
      ensures Before(x, sorted[k])
    {
      assert sorted[p] in sorted;
      assert k == p || Before(sorted[p], sorted[k]);
    }
    r := sorted[..p] + [x] + sorted[p..];
    Slices(sorted, p);
    hide Ascending;
    Inserted(sorted[..p], x, sorted[p..]);
  }
}
