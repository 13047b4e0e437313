/** Bytes and their bitwise exclusive or. */
module Octets {

  type byte = b: int | 0 <= b < 256
  type bytes = seq<byte>

  function Pow2(n: nat): nat {
    if n == 0 then 1 else 2 * Pow2(n - 1)
  }

  function Flip(p: nat, q: nat): (r: nat)
    ensures r < 2
  {
    (p + q) % 2
  }

  function Join(low: nat, high: nat): nat {
    low + 2 * high
  }

  /** Bitwise exclusive or of the lowest `n` bits. */
  function XorBits(a: nat, b: nat, n: nat): (r: nat)
    ensures r < Pow2(n)
  {
    if n == 0 then 0 else Join(Flip(a % 2, b % 2), XorBits(a / 2, b / 2, n - 1))
  }

  lemma JoinSplits(low: nat, high: nat)
    requires low < 2
    ensures Join(low, high) % 2 == low && Join(low, high) / 2 == high
  {
  }

  lemma Rejoin(a: nat)
    ensures Join(a % 2, a / 2) == a
  {
  }

  lemma FlipTwice(p: nat, q: nat)
    requires p < 2
    ensures Flip(Flip(p, q), q) == p
  {
  }

  lemma XorOfJoin(low: nat, high: nat, b: nat, n: nat)
    requires low < 2 && n > 0
    ensures XorBits(Join(low, high), b, n) == Join(Flip(low, b % 2), XorBits(high, b / 2, n - 1))
  {
    JoinSplits(low, high);
  }

  lemma {:induction false} XorTwice(a: nat, b: nat, n: nat)
    requires a < Pow2(n)
    ensures XorBits(XorBits(a, b, n), b, n) == a
  {
    if n > 0 {
      var low, high := Flip(a % 2, b % 2), XorBits(a / 2, b / 2, n - 1);
      XorTwice(a / 2, b / 2, n - 1);
      XorOfJoin(low, high, b, n);
      FlipTwice(a % 2, b % 2);
      Rejoin(a);
    }
  }

  lemma EightBits()
    ensures Pow2(8) == 256
  {
  }

  function Xor(a: byte, b: byte): byte {
    EightBits();
    XorBits(a, b, 8)
  }
}
