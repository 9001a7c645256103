/** Least elements of sets of integers, and the entries of an integer-keyed map in key order. */
module Ordering {

  ghost predicate IsLeast(k: nat, keys: set<nat>) {
    k in keys && forall j :: j in keys ==> k <= j
  }

  lemma {:induction false} LeastExists(keys: set<nat>) returns (least: nat)
    requires keys != {}
    ensures IsLeast(least, keys)
    decreases |keys|
  {
    var k :| k in keys;
    var rest := keys - {k};
    assert keys == rest + {k};
    if rest == {} {
      least := k;
    } else {
      var m := LeastExists(rest);
      least := if m < k then m else k;
    }
  }

  function Least(keys: set<nat>): (k: nat)
    requires keys != {}
    ensures k in keys && forall j :: j in keys ==> k <= j
  {
    assert exists k :: IsLeast(k, keys) by {
      var least := LeastExists(keys);
    }
    var k :| k in keys && forall j :: j in keys ==> k <= j;
    k
  }
}
