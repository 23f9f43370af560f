/**
  Small value types shared by every part of the model: the optional and
  error-carrying results that stand for Go's nil-able values and `(T, error)`
  pairs, the float64 coordinates the service passes around, and counting over
  sequences of rows.
*/
module Values {

  /** A nullable column or a nil-able Go value. */
  datatype Option<+T> = None | Some(value: T)

  /** The `(value, error)` pair a Go call returns; the error is kept as the text
      that `err.Error()` would print, since that text is all a client sees. */
  datatype Result<+R> = Success(value: R) | Failure(error: string)

  /** A Go float64 as far as this service looks at one: the handlers only ask
      whether a parsed coordinate equals zero, and the store only passes it on.
      NaN and the infinities are kept apart because `!= 0` holds for all three. */
  datatype Float = Finite(value: real) | Infinite(negative: bool) | NaN {
    /** Go's `f == 0` (negative zero included, since it is the real 0.0 here). */
    predicate IsZero() {
      Finite? && value == 0.0
    }
  }

  /** A PostgreSQL `point`: `location[0]` is `x`, `location[1]` is `y`. */
  datatype Point = Point(x: Float, y: Float)

  /** Number of elements of `s` that satisfy `p`. */
  function Count<T>(s: seq<T>, p: T -> bool): nat
  {
    if s == [] then 0 else (if p(s[0]) then 1 else 0) + Count(s[1..], p)
  }

  lemma CountAppend<T>(a: seq<T>, b: seq<T>, p: T -> bool)
    ensures Count(a + b, p) == Count(a, p) + Count(b, p)
  {
    if a == [] {
      assert a + b == b;
    } else {
      assert (a + b)[1..] == a[1..] + b;
      CountAppend(a[1..], b, p);
    }
  }

  lemma CountNone<T>(s: seq<T>, p: T -> bool)
    requires forall i | 0 <= i < |s| :: !p(s[i])
    ensures Count(s, p) == 0
  {
    if s != [] {
      CountNone(s[1..], p);
    }
  }

  lemma CountAll<T>(s: seq<T>, p: T -> bool)
    requires forall i | 0 <= i < |s| :: p(s[i])
    ensures Count(s, p) == |s|
  {
    if s != [] {
      CountAll(s[1..], p);
    }
  }
}
