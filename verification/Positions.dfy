/** Sets of positions in a list that grows at its end. */
module Positions {

  /** One more position: it may empty the set, and it may join it. */
  lemma OneMore(before: set<nat>, after: set<nat>, last: nat, empties: bool, joins: bool)
    requires forall i :: i in before ==> i < last
    requires forall i :: i in after ==> i <= last
    requires forall i: nat :: i < last ==> (i in after <==> i in before && !empties)
    requires last in after <==> joins
    ensures |after| == (if empties then 0 else |before|) + if joins then 1 else 0
  {
    assert after == (if empties then {} else before) + if joins then {last} else {};
  }
}
