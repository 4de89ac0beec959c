/** Sizes of finite sets, and values outside them. */
module Cardinality {

  lemma {:induction false} SubsetSize<T>(part: set<T>, whole: set<T>)
    requires part <= whole
    ensures |part| <= |whole|
    ensures |part| == |whole| ==> part == whole
  {
    if part != {} {
      var x :| x in part;
      SubsetSize(part - {x}, whole - {x});
    }
  }

  /** A number above all members, so a value that is not used yet. */
  lemma {:induction false} AboveAll(used: set<nat>) returns (bound: nat)
    ensures forall k | k in used :: k < bound
  {
    bound := 0;
    if used != {} {
      var k :| k in used;
      var rest := AboveAll(used - {k});
      bound := if rest > k then rest else k + 1;
      assert forall j | j in used :: j == k || j in used - {k};
    }
  }
}
