/** The word operations of SHA-256 (FIPS 180-4). */
module FipsWords {

  // Section 3.2: addition is modulo 2^32, which is what `+` does on 32-bit words.
  function Add2(a: bv32, b: bv32): bv32 { a + b }
  function Add4(a: bv32, b: bv32, c: bv32, d: bv32): bv32 { a + b + c + d }
  function Add5(a: bv32, b: bv32, c: bv32, d: bv32, e: bv32): bv32 { a + b + c + d + e }

  // Section 4.1.2.
  function Xor3(x: bv32, y: bv32, z: bv32): bv32 { x ^ y ^ z }
  function Ch(x: bv32, y: bv32, z: bv32): bv32 { (x & y) ^ (!x & z) }
  function Maj(x: bv32, y: bv32, z: bv32): bv32 { (x & y) ^ (x & z) ^ (y & z) }
  function BigSigma0(x: bv32): bv32 { Xor3(x.RotateRight(2), x.RotateRight(13), x.RotateRight(22)) }
  function BigSigma1(x: bv32): bv32 { Xor3(x.RotateRight(6), x.RotateRight(11), x.RotateRight(25)) }
  function SmallSigma0(x: bv32): bv32 { Xor3(x.RotateRight(7), x.RotateRight(18), x >> 3) }
  function SmallSigma1(x: bv32): bv32 { Xor3(x.RotateRight(17), x.RotateRight(19), x >> 10) }

  // Section 3.1: a word is the number its four bytes stand for, most significant byte first.
  function Word(b0: bv8, b1: bv8, b2: bv8, b3: bv8): bv32 {
    (b0 as bv32) * 0x100_0000 + (b1 as bv32) * 0x1_0000 + (b2 as bv32) * 0x100 + (b3 as bv32)
  }
}

/** SHA-256 as FIPS 180-4 defines it, on byte messages. This is the reference the
    streaming hasher is proved against; nothing in it knows about buffers or chunks. */
module Fips180 {
  import opened FipsWords

  // Section 4.2.2: the sixty-four round constants.
  const K: seq<bv32> := [
    0x428a2f98, 0x71374491, 0xb5c0fbcf, 0xe9b5dba5, 0x3956c25b, 0x59f111f1, 0x923f82a4, 0xab1c5ed5,
    0xd807aa98, 0x12835b01, 0x243185be, 0x550c7dc3, 0x72be5d74, 0x80deb1fe, 0x9bdc06a7, 0xc19bf174,
    0xe49b69c1, 0xefbe4786, 0x0fc19dc6, 0x240ca1cc, 0x2de92c6f, 0x4a7484aa, 0x5cb0a9dc, 0x76f988da,
    0x983e5152, 0xa831c66d, 0xb00327c8, 0xbf597fc7, 0xc6e00bf3, 0xd5a79147, 0x06ca6351, 0x14292967,
    0x27b70a85, 0x2e1b2138, 0x4d2c6dfc, 0x53380d13, 0x650a7354, 0x766a0abb, 0x81c2c92e, 0x92722c85,
    0xa2bfe8a1, 0xa81a664b, 0xc24b8b70, 0xc76c51a3, 0xd192e819, 0xd6990624, 0xf40e3585, 0x106aa070,
    0x19a4c116, 0x1e376c08, 0x2748774c, 0x34b0bcb5, 0x391c0cb3, 0x4ed8aa4a, 0x5b9cca4f, 0x682e6ff3,
    0x748f82ee, 0x78a5636f, 0x84c87814, 0x8cc70208, 0x90befffa, 0xa4506ceb, 0xbef9a3f7, 0xc67178f2]

  /** The working variables a..h, and also a hash value H0..H7. */
  datatype State = State(a: bv32, b: bv32, c: bv32, d: bv32, e: bv32, f: bv32, g: bv32, h: bv32)

  // Section 5.3.3.
  const IV := State(0x6a09e667, 0xbb67ae85, 0x3c6ef372, 0xa54ff53a,
                    0x510e527f, 0x9b05688c, 0x1f83d9ab, 0x5be0cd19)

  // Section 5.2.1: the t-th big-endian word of a 512-bit block.
  function WordAt(block: seq<bv8>, t: nat): bv32
    requires 4 * t + 4 <= |block|
  {
    Word(block[4 * t], block[4 * t + 1], block[4 * t + 2], block[4 * t + 3])
  }

  // Section 6.2.2, step 1: the message schedule, as the recurrence the standard writes.
  function W(block: seq<bv8>, t: nat): bv32
    requires |block| == 64 && t < 64
  {
    if t < 16 then WordAt(block, t)
    else Add4(SmallSigma1(W(block, t - 2)), W(block, t - 7), SmallSigma0(W(block, t - 15)), W(block, t - 16))
  }

  // Section 6.2.2, step 3: one round.
  function Round(v: State, k: bv32, w: bv32): State {
    var t1 := Add5(v.h, BigSigma1(v.e), Ch(v.e, v.f, v.g), k, w);
    var t2 := Add2(BigSigma0(v.a), Maj(v.a, v.b, v.c));
    State(Add2(t1, t2), v.a, v.b, v.c, Add2(v.d, t1), v.e, v.f, v.g)
  }

  function Rounds(v: State, block: seq<bv8>, n: nat): State
    requires |block| == 64 && n <= 64
  {
    if n == 0 then v else Round(Rounds(v, block, n - 1), K[n - 1], W(block, n - 1))
  }

  // Section 6.2.2, step 4.
  function AddState(x: State, y: State): State {
    State(Add2(x.a, y.a), Add2(x.b, y.b), Add2(x.c, y.c), Add2(x.d, y.d),
          Add2(x.e, y.e), Add2(x.f, y.f), Add2(x.g, y.g), Add2(x.h, y.h))
  }

  function Compress(v: State, block: seq<bv8>): State
    requires |block| == 64
  {
    AddState(v, Rounds(v, block, 64))
  }

  function HashBlocks(v: State, m: seq<bv8>): State
    requires |m| % 64 == 0
    decreases |m|
  {
    if m == [] then v else HashBlocks(Compress(v, m[..64]), m[64..])
  }

  lemma {:induction false} HashBlocksAppend(v: State, m: seq<bv8>, rest: seq<bv8>)
    requires |m| % 64 == 0 && |rest| % 64 == 0
    ensures HashBlocks(v, m + rest) == HashBlocks(HashBlocks(v, m), rest)
    decreases |m|
  {
    if m == [] {
      assert m + rest == rest;
    } else {
      assert (m + rest)[..64] == m[..64] && (m + rest)[64..] == m[64..] + rest;
      HashBlocksAppend(Compress(v, m[..64]), m[64..], rest);
    }
  }

  lemma HashBlocksOne(v: State, block: seq<bv8>)
    requires |block| == 64
    ensures HashBlocks(v, block) == Compress(v, block)
  {
    assert block[..64] == block && block[64..] == [];
    assert HashBlocks(Compress(v, block), []) == Compress(v, block);
  }

  function Byte(x: nat): bv8 { (x % 256) as bv8 }

  /** The k-byte big-endian form of x. */
  function BigEndian(x: nat, k: nat): (s: seq<bv8>)
    ensures |s| == k
  {
    if k == 0 then [] else BigEndian(x / 256, k - 1) + [Byte(x)]
  }

  function Zeros(n: nat): (s: seq<bv8>)
    ensures |s| == n && forall i :: 0 <= i < n ==> s[i] == 0
  {
    seq(n, i => 0)
  }

  /** n message bytes, 0x80, z zero bytes and the length field are whole blocks. */
  predicate Fills(n: nat, z: nat) { (n + 1 + z + 8) % 64 == 0 }

  /** Section 5.1.1: the number of zero bytes between the 0x80 byte and the length field,
      which is the least one that makes the padded message a whole number of blocks. */
  function ZeroCount(n: nat): (z: nat)
    ensures Fills(n, z)
    ensures forall y: nat :: y < z ==> !Fills(n, y)
  {
    (119 - n % 64) % 64
  }

  function Pad(m: seq<bv8>): (p: seq<bv8>)
    ensures |p| % 64 == 0
  {
    m + [0x80] + Zeros(ZeroCount(|m|)) + BigEndian(8 * |m|, 8)
  }

  /** Section 6.2: the hash value of a byte message. */
  function Sha256(m: seq<bv8>): State { HashBlocks(IV, Pad(m)) }
}
