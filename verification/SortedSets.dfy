/** Visiting the keys of an ordered container. */
module SortedSets {
  import opened Sequences

  ghost predicate Ascending(q: seq<int>) {
    forall j, k :: 0 <= j < k < |q| ==> q[j] < q[k]
  }

  lemma NonEmpty(s: set<int>)
    ensures s == {} || exists x :: x in s
  {
    if forall x :: x !in s {
      assert s == {};
    }
  }

  /** The members of a set in ascending order. */
  method InOrder(s: set<int>) returns (q: seq<int>)
    ensures Ascending(q) && Elems(q) == s
  {
    var rest := s;
    q := [];
    while rest != {}
      invariant Ascending(q) && Elems(q) + rest == s
      invariant forall x, y :: x in q && y in rest ==> x < y
      decreases rest
    {
      var m := Least(rest);
      assert forall j :: 0 <= j < |q| ==> q[j] in q;
      q := q + [m];
      rest := rest - {m};
    }
  }

  method Least(s: set<int>) returns (m: int)
    requires s != {}
    ensures m in s && forall x :: x in s ==> m <= x
  {
    NonEmpty(s);
    m :| m in s;
    var rest := s - {m};
    while rest != {}
      invariant m in s && forall x :: x in s ==> x in rest || m <= x
      decreases rest
    {
      NonEmpty(rest);
      var x :| x in rest;
      if x < m {
        m := x;
      }
      rest := rest - {x};
    }
  }

  /** A list without duplicates in ascending order is determined by its members. */
  lemma {:induction false} AscendingUnique(p: seq<int>, q: seq<int>)
    requires Ascending(p) && Ascending(q) && Elems(p) == Elems(q)
    ensures p == q
    decreases |p|
  {
    if p == [] || q == [] {
      NoMembers(p);
      NoMembers(q);
    } else {
      assert p[0] in Elems(p) && q[0] in Elems(q);
      assert p[0] == q[0];
      WithoutFirst(p);
      WithoutFirst(q);
      AscendingUnique(p[1..], q[1..]);
      assert p == [p[0]] + p[1..] && q == [q[0]] + q[1..];
    }
  }

  lemma NoMembers(q: seq<int>)
    ensures Elems(q) == {} <==> q == []
  {
    assert q != [] ==> q[0] in Elems(q);
  }

  lemma WithoutFirst(q: seq<int>)
    requires Ascending(q) && q != []
    ensures Elems(q[1..]) == Elems(q) - {q[0]} && Ascending(q[1..])
    ensures forall x :: x in Elems(q) ==> q[0] <= x
  {
    assert q == [q[0]] + q[1..];
  }
}
