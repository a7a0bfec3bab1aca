/** Group numbers in ascending order, as sort.Ints leaves them. */
module Ordering {
  import opened Sets

  ghost predicate Ascending(s: seq<int>) {
    forall i, j | 0 <= i < j < |s| :: s[i] < s[j]
  }

  /** A set of groups has only one ordering. */
  lemma {:induction false} AscendingUnique(a: seq<int>, b: seq<int>)
    requires Ascending(a) && Ascending(b) && forall x :: x in a <==> x in b
    ensures a == b
    decreases |a|
  {
    assert a != [] ==> a[0] in a;
    assert b != [] ==> b[0] in b;
    if a != [] {
      assert a[0] in b && b[0] in a;
      assert a[0] == b[0];
      assert a == [a[0]] + a[1..] && b == [b[0]] + b[1..];
      forall x
        ensures x in a[1..] <==> x in b[1..]
      {
        assert a[0] !in a[1..] && b[0] !in b[1..];
        assert x in a <==> x in b;
      }
      AscendingUnique(a[1..], b[1..]);
    }
  }

  method Sorted(groups: set<int>) returns (r: seq<int>)
    ensures Ascending(r) && |r| == |groups| && forall x :: x in r <==> x in groups
  {
    r := [];
    var rest := groups;
    while rest != {}
      invariant rest <= groups && Ascending(r) && forall x :: x in r <==> x in groups && x !in rest
      invariant |r| + |rest| == |groups|
      decreases |rest|
    {
      ghost var some := Member(rest);
      var x :| x in rest;
      r := Insert(r, x);
      rest := rest - {x};
    }
  }

  method Insert(s: seq<int>, x: int) returns (r: seq<int>)
    requires Ascending(s) && x !in s
    ensures Ascending(r) && |r| == |s| + 1 && forall y :: y in r <==> y in s || y == x
  {
    var i := 0;
    while i < |s| && s[i] < x
      invariant i <= |s| && forall j | 0 <= j < i :: s[j] < x
    {
      i := i + 1;
    }
    assert i < |s| ==> s[i] in s;
    InsertedAt(s, i, x);
    r := s[..i] + [x] + s[i..];
  }

  lemma InsertedAt(s: seq<int>, i: nat, x: int)
    requires Ascending(s) && i <= |s|
    requires forall j | 0 <= j < i :: s[j] < x
    requires i < |s| ==> x < s[i]
    ensures var r := s[..i] + [x] + s[i..]; Ascending(r) && forall y :: y in r <==> y in s || y == x
  {
    var r := s[..i] + [x] + s[i..];
    forall j, k | 0 <= j < k < |r|
      ensures r[j] < r[k]
    {
      assert r[j] == if j < i then s[j] else if j == i then x else s[j - 1];
      assert r[k] == if k < i then s[k] else if k == i then x else s[k - 1];
    }
    assert s == s[..i] + s[i..];
  }
}
