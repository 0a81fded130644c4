/** Iteration order of std::set and std::map: ascending keys. */
module Ordered {

  ghost predicate StrictlyAscending(q: seq<nat>) {
    forall i, j | 0 <= i < j < |q| :: q[i] < q[j]
  }

  predicate IsMin(m: nat, s: set<nat>) {
    m in s && forall x | x in s :: m <= x
  }

  lemma {:induction false} MinExists(s: set<nat>)
    requires s != {}
    ensures exists m :: IsMin(m, s)
  {
    var x :| x in s;
    var rest := s - {x};
    assert s == rest + {x};
    if rest == {} {
      assert IsMin(x, s);
    } else {
      MinExists(rest);
      var m :| IsMin(m, rest);
      assert IsMin(if x < m then x else m, s);
    }
  }

  /** The elements of s in the order a std::set or the keys of a std::map are visited. */
  function Ascending(s: set<nat>): (q: seq<nat>)
    ensures StrictlyAscending(q)
    ensures |q| == |s|
    ensures forall x :: x in q <==> x in s
  {
    if s == {} then [] else
      MinExists(s);
      var m :| m in s && IsMin(m, s);
      [m] + Ascending(s - {m})
  }

  /** A number outside a finite set. */
  function FreshOutside(s: set<nat>): (n: nat)
    ensures n !in s
  {
    if s == {} then 0 else
      var q := Ascending(s);
      AscendingLast(s);
      q[|q| - 1] + 1
  }

  lemma {:induction false} AscendingLast(s: set<nat>)
    requires s != {}
    ensures forall x | x in s :: x <= Ascending(s)[|s| - 1]
  {
  }
}
