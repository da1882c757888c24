/** Names shared by every module of the model. */
module Common {
  /** A node identifier.  The source draws 32-bit values; the model only compares them. */
  type NodeId = int

  datatype Option<+T> = None | Some(value: T)

  datatype Result<+T> = Ok(value: T) | Err

  lemma SubsetSmaller<T>(s: set<T>, t: set<T>)
    requires s <= t
    ensures |s| <= |t|
  {
    assert t == s + (t - s);
  }

  /** An injective function maps a set to one of the same size. */
  lemma {:induction false} ImageSize<T(!new), U>(s: set<T>, f: T -> U)
    requires forall x, y | x in s && y in s && f(x) == f(y) :: x == y
    ensures |set x <- s :: f(x)| == |s|
  {
    if s != {} {
      var x :| x in s;
      ImageSize(s - {x}, f);
      assert (set y <- s :: f(y)) == (set y <- s - {x} :: f(y)) + {f(x)};
    }
  }
}
