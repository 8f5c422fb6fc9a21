/** Vocabulary shared by the records, the selection pools and the crate state machine. */
module Common {

  /** The three states of a crate, in the order a census lists them. */
  datatype State = Home | Rented | Lost

  /** The state names in census order. */
  const States: seq<State> := [Home, Rented, Lost]

  /** Calendar dates are modelled as integer day numbers. */
  type Day = int

  datatype Option<T> = None | Some(value: T)

  function Min(a: nat, b: nat): nat
  {
    if a <= b then a else b
  }

  /** How many times `x` occurs in `s`. */
  function Mult(s: seq<int>, x: int): nat
  {
    if s == [] then 0 else (if s[0] == x then 1 else 0) + Mult(s[1..], x)
  }

  /** Occurrences add up over a concatenation. */
  lemma {:induction false} MultConcat(a: seq<int>, b: seq<int>, x: int)
    ensures Mult(a + b, x) == Mult(a, x) + Mult(b, x)
  {
    if a != [] {
      assert (a + b)[1..] == a[1..] + b;
      MultConcat(a[1..], b, x);
    } else {
      assert a + b == b;
    }
  }

  /** An id is in `s` exactly when it occurs there at least once. */
  lemma {:induction false} MultIn(s: seq<int>, x: int)
    ensures x in s <==> Mult(s, x) > 0
  {
    if s != [] {
      MultIn(s[1..], x);
      assert s == [s[0]] + s[1..];
    }
  }

  /** Appending `v` adds one occurrence of `v` and no other. */
  lemma MultAppend(s: seq<int>, v: int)
    ensures forall y :: Mult(s + [v], y) == Mult(s, y) + (if y == v then 1 else 0)
  {
    forall y ensures Mult(s + [v], y) == Mult(s, y) + (if y == v then 1 else 0) {
      MultConcat(s, [v], y);
    }
  }
}
