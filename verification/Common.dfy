/** Types and facts shared by the other modules. */
module Common {
  datatype Option<+T> = None | Some(value: T)

  lemma HasMember(s: set<int>)
    ensures s == {} || exists k :: k in s
  {
    if forall k :: k !in s { assert s == {}; }
  }

  lemma {:induction false} SubsetSize<T>(a: set<T>, b: set<T>)
    requires a <= b
    ensures |a| <= |b|
    decreases a
  {
    if a != {} {
      var x :| x in a;
      SubsetSize(a - {x}, b - {x});
    }
  }
}
