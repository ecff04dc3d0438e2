/** What several parts share: outcomes of operations, and sequences that list the elements of
    a set or of other sequences. */
module Common {
  datatype Outcome = Done | Invalid | NotFound | AlreadyExists

  /** `order` lists each element of `s` once: the order in which a map is iterated. */
  ghost predicate Enumerates<T>(order: seq<T>, s: set<T>) {
    && (forall x | x in order :: x in s) && (forall x | x in s :: x in order)
    && (forall i, j | 0 <= i < j < |order| :: order[i] != order[j])
  }

  function Flatten<T>(s: seq<seq<T>>): seq<T> {
    if s == [] then [] else s[0] + Flatten(s[1..])
  }

  lemma FlattenSnoc<T>(s: seq<seq<T>>, x: seq<T>)
    ensures Flatten(s + [x]) == Flatten(s) + x
  {
    if s == [] {
      assert [x][1..] == [];
    } else {
      assert (s + [x])[1..] == s[1..] + [x];
      FlattenSnoc(s[1..], x);
    }
  }

  lemma FlattenElement<T>(s: seq<seq<T>>, x: T)
    ensures x in Flatten(s) <==> exists i :: 0 <= i < |s| && x in s[i]
  {
    if s != [] {
      FlattenElement(s[1..], x);
      if x in Flatten(s[1..]) {
        var i :| 0 <= i < |s[1..]| && x in s[1..][i];
        assert x in s[i + 1];
      }
      if i :| 0 <= i < |s| && x in s[i] {
        if i > 0 {
          assert x in s[1..][i - 1];
        }
      }
    }
  }
}
