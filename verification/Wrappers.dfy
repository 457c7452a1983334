/** Option and Result, and the two set extrema that stand for SQL's MIN and MAX. */
module Wrappers {

  datatype Option<+T> = None | Some(value: T)

  datatype Result<+T, +E> = Success(value: T) | Failure(error: E)

  ghost function Pick<T>(s: set<T>): (x: T)
    requires s != {}
    ensures x in s
  {
    var x :| x in s;
    x
  }

  predicate Tops(m: int, s: set<int>) {
    m in s && forall x | x in s :: x <= m
  }

  function MaxOf(s: set<int>): (m: int)
    requires s != {}
    ensures m in s && forall x | x in s :: x <= m
  {
    HasTop(s);
    var m :| Tops(m, s);
    m
  }

  lemma {:induction false} FindTop(s: set<int>) returns (m: int)
    requires s != {}
    ensures Tops(m, s)
  {
    var y := Pick(s);
    var rest := s - {y};
    m := y;
    if rest != {} {
      var n := FindTop(rest);
      m := if y <= n then n else y;
    }
    forall x | x in s
      ensures x <= m
    {
      assert x == y || x in rest;
    }
  }

  lemma HasTop(s: set<int>)
    requires s != {}
    ensures exists m :: Tops(m, s)
  {
    var m := FindTop(s);
  }

  function Negated(s: set<int>): set<int> {
    set x | x in s :: -x
  }

  lemma NegatedMembers(s: set<int>)
    ensures forall x :: x in s <==> -x in Negated(s)
    ensures s != {} ==> Negated(s) != {}
  {
    forall x | -x in Negated(s)
      ensures x in s
    {
      var y :| y in s && -y == -x;
    }
    if s != {} {
      var m := FindTop(s);
      assert -m in Negated(s);
    }
  }

  function MinOf(s: set<int>): (m: int)
    requires s != {}
    ensures m in s && forall x | x in s :: m <= x
  {
    NegatedMembers(s);
    -MaxOf(Negated(s))
  }
}
