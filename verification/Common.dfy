/** Options, and lists of ids without repetition. */
module Common {
  datatype Option<T> = None | Some(value: T)

  predicate NoDup(q: seq<nat>) {
    forall i, j :: 0 <= i < j < |q| ==> q[i] != q[j]
  }

  /** The list without the first occurrence of an id. */
  function Remove(q: seq<nat>, id: nat): seq<nat> {
    if q == [] then [] else if q[0] == id then q[1..] else [q[0]] + Remove(q[1..], id)
  }

  lemma {:induction false} RemoveFacts(q: seq<nat>, id: nat)
    requires NoDup(q)
    ensures NoDup(Remove(q, id)) && forall x :: x in Remove(q, id) <==> x in q && x != id
  {
    if q != [] {
      assert forall x :: x in q <==> x == q[0] || x in q[1..];
      assert NoDup(q[1..]);
      RemoveFacts(q[1..], id);
      var w := Remove(q, id);
      if q[0] != id {
        assert w == [q[0]] + Remove(q[1..], id);
        forall i, j | 0 <= i < j < |w|
          ensures w[i] != w[j]
        {
          if i == 0 {
            assert w[j] in Remove(q[1..], id);
            assert w[j] in q[1..];
          }
        }
      }
    }
  }
}
