/**
 32-bit sequence numbers and their wrapping comparison (section 3.4 of RFC 9293), and how they stand for
 absolute stream offsets.
 */
module SeqNum {

  const MODULUS: int := 0x1_0000_0000
  const HALF: int := 0x8000_0000

  type U32 = x: int | 0 <= x < MODULUS witness 0

  /** The 32-bit number of an absolute offset; also the result of 32-bit arithmetic. */
  function Wrap(x: int): U32 {
    x % MODULUS
  }

  /** (int32_t)(a - b) */
  function Diff(a: U32, b: U32): (d: int)
    ensures -HALF <= d < HALF
    ensures Wrap(b + d) == a
  {
    var d := (a - b) % MODULUS;
    if d < HALF then d else d - MODULUS
  }

  predicate SeqLt(a: U32, b: U32) { Diff(a, b) < 0 }

  predicate SeqLeq(a: U32, b: U32) { Diff(a, b) <= 0 }

  predicate SeqGt(a: U32, b: U32) { Diff(a, b) > 0 }

  predicate SeqGeq(a: U32, b: U32) { Diff(a, b) >= 0 }

  /** Wrapping subtraction of two offsets less than 2^31 apart is their real difference. */
  lemma DiffOfOffsets(a: int, b: int)
    requires -HALF <= a - b < HALF
    ensures Diff(Wrap(a), Wrap(b)) == a - b
  {
  }

  lemma WrapAdd(a: int, n: int)
    ensures Wrap(Wrap(a) + n) == Wrap(a + n)
  {
  }

  lemma WrapTurn(a: int)
    ensures Wrap(a - MODULUS) == Wrap(a) == Wrap(a + MODULUS)
  {
  }

  lemma WrapCancel(a: int, b: U32, n: int)
    requires Wrap(a) == Wrap(b + n)
    ensures Wrap(a - n) == b
  {
    WrapAdd(a, -n);
    WrapAdd(b + n, -n);
  }

  lemma WrapSub(a: int, b: int)
    requires 0 <= a - b < MODULUS
    ensures Wrap(Wrap(a) - Wrap(b)) == a - b
  {
  }
}
