/** Small helpers for collections, shared by the models. */
module Collections {

  datatype Option<T> = None | Some(value: T)

  ghost function Greatest(s: set<int>): (m: int)
    requires s != {}
    ensures m in s && forall x | x in s :: x <= m
  {
    assert exists y :: y in s by {
      assert (forall y :: y !in s) ==> s == {};
    }
    var x :| x in s;
    if s == {x} then x else
      assert forall y | y in s :: y == x || y in s - {x};
      var m := Greatest(s - {x});
      if m > x then m else x
  }

  ghost function Smallest(s: set<int>): (m: int)
    requires s != {}
    ensures m in s && forall x | x in s :: m <= x
  {
    assert exists y :: y in s by {
      assert (forall y :: y !in s) ==> s == {};
    }
    var x :| x in s;
    if s == {x} then x else
      assert forall y | y in s :: y == x || y in s - {x};
      var m := Smallest(s - {x});
      if m < x then m else x
  }

  lemma Associative<T>(x: seq<T>, y: seq<T>, z: seq<T>)
    ensures (x + y) + z == x + (y + z)
  {
  }
}
