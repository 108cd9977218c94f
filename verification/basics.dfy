/** Definitions shared by the models. */
module Basics {
  datatype Option<+T> = None | Some(value: T)

  // ---- lists without repetition ----

  ghost predicate NoDup<T(!new)>(q: seq<T>) {
    forall i, j :: 0 <= i < j < |q| ==> q[i] != q[j]
  }

  lemma AppendFacts<T(!new)>(q: seq<T>, t: T)
    requires NoDup(q) && t !in q
    ensures NoDup(q + [t]) && NoDup([t] + q)
  {
  }

  lemma PopFacts<T(!new)>(q: seq<T>)
    requires NoDup(q) && q != []
    ensures NoDup(q[1..])
    ensures forall t :: t in q[1..] <==> t in q && t != q[0]
  {
    forall t ensures t in q[1..] <==> t in q && t != q[0] {
      assert q == [q[0]] + q[1..];
      if t in q[1..] {
        var i :| 0 <= i < |q[1..]| && q[1..][i] == t;
        assert q[i + 1] == t;
      }
    }
  }

  /** list_remove of one element. */
  function Without<T(==)>(q: seq<T>, t: T): seq<T> {
    if q == [] then [] else (if q[0] == t then [] else [q[0]]) + Without(q[1..], t)
  }

  lemma {:induction false} WithoutMembers<T(!new)>(q: seq<T>, t: T)
    requires NoDup(q)
    ensures NoDup(Without(q, t)) && forall u :: u in Without(q, t) <==> u in q && u != t
  {
    if q != [] {
      PopFacts(q);
      WithoutMembers(q[1..], t);
      hide NoDup;
      if q[0] != t { AppendFacts(Without(q[1..], t), q[0]); }
    }
  }
}
