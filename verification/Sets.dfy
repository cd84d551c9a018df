/** Finite sets. */
module Sets {
  lemma {:induction false} AnyOf<T>(s: set<T>) returns (x: T)
    requires s != {}
    ensures x in s
  {
    x :| x in s;
  }
}
