/** Small facts about finite sets. */
module Sets {

  lemma Member<T>(a: set<T>) returns (v: T)
    requires a != {}
    ensures v in a
  {
    v :| v in a;
  }

  lemma {:induction false} AtMost(a: set<int>, n: nat)
    requires forall x | x in a :: 0 <= x < n
    ensures |a| <= n
    decreases n
  {
    if n == 0 {
      if a != {} {
        var x := Member(a);
        assert false;
      }
    } else {
      AtMost(a - {n - 1}, n - 1);
    }
  }

  lemma SameSize<T>(a: set<T>, b: set<T>)
    requires a <= b && |a| >= |b|
    ensures a == b
  {
    assert b == a + (b - a);
    assert |b - a| == 0;
    assert b - a == {};
  }

  lemma Smaller<T>(a: set<T>, b: set<T>)
    requires a <= b
    ensures |a| <= |b|
  {
    assert b == a + (b - a);
  }
}
