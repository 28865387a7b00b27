/** Byte strings, shared by the storage, framing and relay models. */
module Bytes {

  newtype byte = x: int | 0 <= x < 256

  type bytes = seq<byte>

  const LF: byte := 10
  const CR: byte := 13

  function Min(a: int, b: int): int {
    if a < b then a else b
  }

  /** All parts, one after the other. */
  function Flatten(parts: seq<bytes>): bytes {
    if parts == [] then [] else parts[0] + Flatten(parts[1..])
  }

  lemma {:induction false} FlattenAppend(front: seq<bytes>, back: seq<bytes>)
    ensures Flatten(front + back) == Flatten(front) + Flatten(back)
  {
    if front == [] {
      assert front + back == back;
    } else {
      assert (front + back)[1..] == front[1..] + back;
      FlattenAppend(front[1..], back);
    }
  }

  lemma FlattenOne(part: bytes)
    ensures Flatten([part]) == part
  {
    assert [part][1..] == [];
  }

  /** One element moved across the seam of a concatenation. */
  lemma MoveAcross<T>(a: seq<T>, b: seq<T>, x: seq<T>)
    requires x == a + b && b != []
    ensures x == (a + [b[0]]) + b[1..]
  {
  }
}
