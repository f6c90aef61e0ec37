/** Machine bytes and a few sequence helpers shared by the other modules. */
module Bytes {
  newtype byte = x: int | 0 <= x < 0x100

  datatype Option<+T> = None | Some(value: T)

  /** The concatenation of a sequence of sequences. */
  function Flatten<T>(parts: seq<seq<T>>): seq<T> {
    if parts == [] then [] else parts[0] + Flatten(parts[1..])
  }

  lemma Reassociate<T>(a: seq<T>, b: seq<T>, c: seq<T>)
    ensures (a + b) + c == a + (b + c)
  {
  }

  lemma {:induction false} FlattenAppend<T>(a: seq<seq<T>>, b: seq<seq<T>>)
    ensures Flatten(a + b) == Flatten(a) + Flatten(b)
  {
    if a == [] {
      assert a + b == b;
    } else {
      FlattenAppend(a[1..], b);
      assert (a + b)[1..] == a[1..] + b;
      Reassociate(a[0], Flatten(a[1..]), Flatten(b));
    }
  }

  lemma FlattenLast<T>(parts: seq<seq<T>>, last: seq<T>)
    ensures Flatten(parts + [last]) == Flatten(parts) + last
  {
    FlattenAppend(parts, [last]);
    assert Flatten([last]) == last;
  }

  lemma ProductTooLarge(m: int, d: int, p: int)
    requires m * d == p && -m < p < m
    ensures p == 0 && d == 0
  {
  }

  /** Quotient and remainder are the only numbers that fit. */
  lemma DivisionIsUnique(x: nat, m: nat, q: nat, r: nat)
    requires m > 0 && x == m * q + r && r < m
    ensures x / m == q && x % m == r
  {
    var d := q - x / m;
    assert m * q - m * (x / m) == m * d;
    ProductTooLarge(m, d, x % m - r);
  }
}
