/** The loops over hash maps and hash sets visit their keys in some order: each takes out any key still there. */
module Sets {

  lemma SomeMember(s: set<int>)
    requires s != {}
    ensures exists x: int :: x in s
  {
    if forall x: int :: x !in s { assert false; }
  }
}
