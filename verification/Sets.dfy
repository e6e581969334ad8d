/** Elements of finite sets, and lists without repetition. */
module Sets {
  lemma NoElements<T>(s: set<T>)
    requires forall x :: x !in s
    ensures s == {}
  {}

  lemma Member<T>(s: set<T>) returns (x: T)
    requires s != {}
    ensures x in s
  {
    if forall y :: y !in s {
      NoElements(s);
    }
    x :| x in s;
  }

  predicate Distinct<T(==)>(s: seq<T>) { forall i, j | 0 <= i < j < |s| :: s[i] != s[j] }
}
