/** 32-bit wrapping sequence numbers, as the TCP kernel's `u32` fields use them. */
module SeqSpace {

  const MODULUS: int := 0x1_0000_0000

  type U16 = x: int | 0 <= x < 0x1_0000
  type U32 = x: int | 0 <= x < 0x1_0000_0000
  type Byte = x: int | 0 <= x < 0x100

  /** `a.wrapping_add(n as u32)`. Also the number carried by position `n` of a
      stream whose first position is numbered `a`. */
  function WrappingAdd(a: U32, n: nat): U32 {
    if a + n < MODULUS then a + n
    else if n < MODULUS then a + n - MODULUS
    else (a + n) % MODULUS
  }

  /** `a.wrapping_sub(b)`. */
  function WrappingSub(a: U32, b: U32): U32 {
    if b <= a then a - b else a - b + MODULUS
  }

  /** So many bytes, their SYN and their FIN have numbers of their own. */
  predicate FitsSequenceSpace(n: nat) {
    n < MODULUS - 1
  }

  lemma AddAdd(a: U32, i: nat, n: nat)
    ensures WrappingAdd(WrappingAdd(a, i), n) == WrappingAdd(a, i + n)
  {
  }

  /** Wrapping distance recovers the true distance of two positions less than
      2^32 apart, and complements it when they are taken the wrong way round. */
  lemma Distance(a: U32, i: nat, j: nat)
    requires -MODULUS < i - j < MODULUS
    ensures WrappingSub(WrappingAdd(a, i), WrappingAdd(a, j))
         == if j <= i then i - j else i - j + MODULUS
  {
  }

  /** Two positions carry the same number exactly when they are congruent, so
      equality is decisive for positions less than 2^32 apart. */
  lemma SamePosition(a: U32, i: nat, j: nat)
    ensures WrappingAdd(a, i) == WrappingAdd(a, j) <==> (i - j) % MODULUS == 0
    ensures -MODULUS < i - j < MODULUS ==>
              (WrappingAdd(a, i) == WrappingAdd(a, j) <==> i == j)
  {
  }

  /** A number at wrapping distance `n` past `a` is `a` advanced by `n`. */
  lemma SubThenAdd(a: U32, b: U32)
    ensures WrappingAdd(a, WrappingSub(b, a)) == b
  {
  }

  /** `wrapping_sub` undoes `wrapping_add` for offsets below 2^32. */
  lemma AddThenSub(a: U32, n: nat)
    requires n < MODULUS
    ensures WrappingSub(WrappingAdd(a, n), a) == n
    ensures WrappingSub(WrappingAdd(a, n), n) == a
  {
  }

  /** Acknowledging part of what is in flight leaves the rest in flight. */
  lemma Remaining(nxt: U32, una: U32, ack: U32)
    requires WrappingSub(ack, una) <= WrappingSub(nxt, una)
    ensures WrappingSub(nxt, ack) == WrappingSub(nxt, una) - WrappingSub(ack, una)
  {
  }
}
