/** The 32-bit word arithmetic of the hasher in JavaScript's own terms. A number that is a
    sum of words is exact (below 2^53), so sums are taken in 64 bits and `>>> 0` is
    ToUint32; a bitwise result keeps its 32-bit pattern. */
module JsWords {
  import opened FipsWords

  function ToUint32(s: bv64): bv32 { (s & 0xFFFF_FFFF) as bv32 }

  function Rotr(x: bv32, n: bv32): bv32
    requires 0 < n < 32
  {
    (x >> n) | (x << (32 - n))
  }

  function Bit(x: bv32, i: bv32): bv32
    requires i < 32
  {
    (x >> i) & 1
  }

  // Rotr is rotation for every amount: bit i of the result is bit i + n of x, counted
  // round the word.

  lemma RotrLowBits(x: bv32, n: bv32, i: bv32)
    requires 0 < n < 32 && i < 32 - n
    ensures Bit(Rotr(x, n), i) == Bit(x, i + n)
  {
  }

  lemma RotrHighBits(x: bv32, n: bv32, i: bv32)
    requires 0 < n < 32 && 32 - n <= i < 32
    ensures Bit(Rotr(x, n), i) == Bit(x, i - (32 - n))
  {
  }

  function Sum2(a: bv32, b: bv32): bv32 { ToUint32(a as bv64 + b as bv64) }
  function Sum4(a: bv32, b: bv32, c: bv32, d: bv32): bv32 {
    ToUint32(a as bv64 + b as bv64 + c as bv64 + d as bv64)
  }
  function Sum5(a: bv32, b: bv32, c: bv32, d: bv32, e: bv32): bv32 {
    ToUint32(a as bv64 + b as bv64 + c as bv64 + d as bv64 + e as bv64)
  }

  lemma Rotations(x: bv32)
    ensures Rotr(x, 2) == x.RotateRight(2) && Rotr(x, 6) == x.RotateRight(6)
    ensures Rotr(x, 7) == x.RotateRight(7) && Rotr(x, 11) == x.RotateRight(11)
    ensures Rotr(x, 13) == x.RotateRight(13) && Rotr(x, 17) == x.RotateRight(17)
    ensures Rotr(x, 18) == x.RotateRight(18) && Rotr(x, 19) == x.RotateRight(19)
    ensures Rotr(x, 22) == x.RotateRight(22) && Rotr(x, 25) == x.RotateRight(25)
  {
  }

  // The word expressions of the two loops, each with what the standard calls it.

  function LoadWord(b0: bv8, b1: bv8, b2: bv8, b3: bv8): bv32 {
    ((b0 as bv32) << 24) | ((b1 as bv32) << 16) | ((b2 as bv32) << 8) | (b3 as bv32)
  }

  function SchedS0(x: bv32): bv32 { Xor3(Rotr(x, 7), Rotr(x, 18), (x >> 3)) }
  function SchedS1(y: bv32): bv32 { Xor3(Rotr(y, 17), Rotr(y, 19), (y >> 10)) }
  function RoundS0(a: bv32): bv32 { Xor3(Rotr(a, 2), Rotr(a, 13), Rotr(a, 22)) }
  function RoundS1(e: bv32): bv32 { Xor3(Rotr(e, 6), Rotr(e, 11), Rotr(e, 25)) }
  function RoundCh(e: bv32, f: bv32, g: bv32): bv32 { (e & f) ^ (!e & g) }
  function RoundMaj(a: bv32, b: bv32, c: bv32): bv32 { (a & b) ^ (a & c) ^ (b & c) }

  lemma SmallSigmas(x: bv32)
    ensures SchedS0(x) == SmallSigma0(x)
    ensures SchedS1(x) == SmallSigma1(x)
  {
    hide Rotr, Xor3;
    Rotations(x);
  }

  lemma BigSigmas(x: bv32)
    ensures RoundS0(x) == BigSigma0(x)
    ensures RoundS1(x) == BigSigma1(x)
  {
    hide Rotr, Xor3;
    Rotations(x);
  }

  lemma ChMaj(x: bv32, y: bv32, z: bv32)
    ensures RoundCh(x, y, z) == Ch(x, y, z)
    ensures RoundMaj(x, y, z) == Maj(x, y, z)
  {
  }

  lemma LoadIsWord(b0: bv8, b1: bv8, b2: bv8, b3: bv8)
    ensures LoadWord(b0, b1, b2, b3) == Word(b0, b1, b2, b3)
  {
  }

  lemma ExactSum2(a: bv32, b: bv32)
    ensures Sum2(a, b) == Add2(a, b)
  {
  }

  lemma ExactSum4(a: bv32, b: bv32, c: bv32, d: bv32)
    ensures Sum4(a, b, c, d) == Add4(d, c, b, a)
  {
  }

  lemma ExactSum5(a: bv32, b: bv32, c: bv32, d: bv32, e: bv32)
    ensures Sum5(a, b, c, d, e) == Add5(a, b, c, d, e)
  {
  }
}
