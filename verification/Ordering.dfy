/** Reading a table in primary-key order. */
module Ordering {

  lemma {:induction false} LeastExists(ids: set<nat>) returns (m: nat)
    requires ids != {}
    ensures m in ids && forall x :: x in ids ==> m <= x
  {
    m :| m in ids;
    assert forall x :: x in ids ==> x == m || x in ids - {m};
    if ids != {m} {
      var n := LeastExists(ids - {m});
      if n < m { m := n; }
    }
  }

  lemma LeastIsDefined(ids: set<nat>)
    requires ids != {}
    ensures exists m :: m in ids && forall x :: x in ids ==> m <= x
  {
    var m := LeastExists(ids);
  }

  function Least(ids: set<nat>): (m: nat)
    requires ids != {}
    ensures m in ids && forall x :: x in ids ==> m <= x
  {
    LeastIsDefined(ids);
    var m :| m in ids && forall x :: x in ids ==> m <= x;
    m
  }
}
