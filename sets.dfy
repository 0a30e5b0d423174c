/**
 * Two facts about finite sets of ids stated as explicit case splits, so that the
 * solver is led to consider a witness: a non-empty set has a member, and
 * sets with the same members are equal.
 */
module Sets {

  lemma Pick(s: set<int>)
    requires s != {}
    ensures exists y :: y in s
  {
    if forall y :: y !in s {
    }
  }

  lemma Extensional(a: set<int>, b: set<int>)
    requires forall x :: x in a <==> x in b
    ensures a == b
  {
    if a != b {
      if forall x :: x in a <==> x in b {
      }
    }
  }
}
