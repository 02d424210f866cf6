/** Picking an element of a finite set: the arbitrary order in which a hash set or a deque hands out its elements. */
module Sets {
  /** A set without elements is the empty set. */
  lemma {:induction false} NoElementEmpty<T>(s: set<T>)
    ensures (forall y :: y !in s) ==> s == {}
  {
    if forall y :: y !in s {
      assert forall y :: y in s <==> y in {};
    }
  }

  /** Some element of a non-empty set; which one is left open. */
  method Pick<T>(s: set<T>) returns (x: T)
    requires s != {}
    ensures x in s
  {
    NoElementEmpty(s);
    x :| x in s;
  }
}
