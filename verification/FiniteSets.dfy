/** Two facts about finite sets. */
module FiniteSets {
  lemma SubsingletonSize<T>(a: set<T>)
    requires forall x, y :: x in a && y in a ==> x == y
    ensures |a| <= 1
  {
    if a != {} {
      var x :| x in a;
      assert a == {x};
    }
  }

  lemma SomeUnused(a: set<nat>) returns (n: nat)
    ensures n !in a
  {
    n := 0;
    var rest := a;
    while rest != {}
      invariant rest <= a
      invariant forall x <- a :: x in rest || x < n
    {
      var x :| x in rest;
      rest := rest - {x};
      n := if n <= x then x + 1 else n;
    }
  }
}
