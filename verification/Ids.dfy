/** Document ids, and finite sets of them in order. */
module Ids {

  /** Document ids, ranked in the natural order of their collection. */
  datatype Id = Id(rank: nat)

  predicate IsLeast(m: Id, s: set<Id>) {
    m in s && forall i :: i in s ==> m.rank <= i.rank
  }

  function Least(s: set<Id>): (m: Id)
    requires s != {}
    ensures IsLeast(m, s)
  {
    LeastExists(s);
    var m :| IsLeast(m, s);
    m
  }

  lemma {:induction false} LeastExists(s: set<Id>)
    requires s != {}
    ensures exists m :: IsLeast(m, s)
  {
    var x :| x in s;
    var rest := s - {x};
    assert forall i :: i in s ==> i == x || i in rest;
    if rest == {} {
      assert IsLeast(x, s);
    } else {
      LeastExists(rest);
      var r :| IsLeast(r, rest);
      assert IsLeast(if r.rank <= x.rank then r else x, s);
    }
  }

  /** The ids of a set in natural order. */
  function Sorted(s: set<Id>): (r: seq<Id>)
    ensures forall i :: i in r <==> i in s
  {
    if s == {} then [] else [Least(s)] + Sorted(s - {Least(s)})
  }

  lemma {:induction false} SortedOnce(s: set<Id>)
    ensures |Sorted(s)| == |s|
    ensures forall j, k :: 0 <= j < k < |Sorted(s)| ==> Sorted(s)[j] != Sorted(s)[k]
  {
    if s != {} {
      SortedOnce(s - {Least(s)});
    }
  }
}
