/** Identifiers that are not yet taken. */
module FreshIds {

  lemma Unused(ids: set<nat>) returns (id: nat)
    ensures id !in ids
  {
    id := 0;
    var rest := ids;
    while rest != {}
      invariant forall x: nat :: x in ids && x !in rest ==> x < id
      decreases |rest|
    {
      var x: nat :| x in rest;
      id := if x < id then id else x + 1;
      rest := rest - {x};
    }
  }
}
