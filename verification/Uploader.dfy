/** The streaming SHA-256 of frontend/src/services/uploader.js: typed arrays updated in
    place, fed one file slice at a time. */
module Uploader {
  import Fips = Fips180
  import opened FipsWords
  import opened JsWords

  const TWO53: int := 0x20_0000_0000_0000
  const TWO32: int := 0x1_0000_0000

  const ROUND_CONSTANTS: seq<bv32> := [
    0x428a2f98, 0x71374491, 0xb5c0fbcf, 0xe9b5dba5, 0x3956c25b, 0x59f111f1, 0x923f82a4, 0xab1c5ed5,
    0xd807aa98, 0x12835b01, 0x243185be, 0x550c7dc3, 0x72be5d74, 0x80deb1fe, 0x9bdc06a7, 0xc19bf174,
    0xe49b69c1, 0xefbe4786, 0x0fc19dc6, 0x240ca1cc, 0x2de92c6f, 0x4a7484aa, 0x5cb0a9dc, 0x76f988da,
    0x983e5152, 0xa831c66d, 0xb00327c8, 0xbf597fc7, 0xc6e00bf3, 0xd5a79147, 0x06ca6351, 0x14292967,
    0x27b70a85, 0x2e1b2138, 0x4d2c6dfc, 0x53380d13, 0x650a7354, 0x766a0abb, 0x81c2c92e, 0x92722c85,
    0xa2bfe8a1, 0xa81a664b, 0xc24b8b70, 0xc76c51a3, 0xd192e819, 0xd6990624, 0xf40e3585, 0x106aa070,
    0x19a4c116, 0x1e376c08, 0x2748774c, 0x34b0bcb5, 0x391c0cb3, 0x4ed8aa4a, 0x5b9cca4f, 0x682e6ff3,
    0x748f82ee, 0x78a5636f, 0x84c87814, 0x8cc70208, 0x90befffa, 0xa4506ceb, 0xbef9a3f7, 0xc67178f2]

  /** The hasher's table is the standard's, entry by entry. */
  lemma SameConstants()
    ensures ROUND_CONSTANTS == Fips.K
  {
  }

  /** One turn of the round loop is one round of the standard. */
  lemma RoundParts(a: bv32, b: bv32, c: bv32, d: bv32, e: bv32, f: bv32, g: bv32, h: bv32, k: bv32, w: bv32)
    ensures var t1 := Sum5(h, RoundS1(e), RoundCh(e, f, g), k, w);
            var t2 := Sum2(RoundS0(a), RoundMaj(a, b, c));
            Fips.State(Sum2(t1, t2), a, b, c, Sum2(d, t1), e, f, g)
            == Fips.Round(Fips.State(a, b, c, d, e, f, g, h), k, w)
  {
    hide BigSigma0, BigSigma1, Ch, Maj, Add2, Add5, RoundS0, RoundS1, RoundCh, RoundMaj, Sum2, Sum5;
    var t1 := Sum5(h, RoundS1(e), RoundCh(e, f, g), k, w);
    var t2 := Sum2(RoundS0(a), RoundMaj(a, b, c));
    BigSigmas(a);
    BigSigmas(e);
    ChMaj(e, f, g);
    ChMaj(a, b, c);
    ExactSum5(h, RoundS1(e), RoundCh(e, f, g), k, w);
    ExactSum2(RoundS0(a), RoundMaj(a, b, c));
    ExactSum2(d, t1);
    ExactSum2(t1, t2);
  }

  /** A word read from the block is the schedule's. */
  lemma LoadedWord(m: seq<bv8>, t: nat)
    requires |m| == 64 && t < 16
    ensures LoadWord(m[4 * t], m[4 * t + 1], m[4 * t + 2], m[4 * t + 3]) == Fips.W(m, t)
  {
    hide LoadWord, Word;
    LoadIsWord(m[4 * t], m[4 * t + 1], m[4 * t + 2], m[4 * t + 3]);
  }

  /** One turn of the second loop makes the schedule's next word. */
  lemma ScheduledWord(m: seq<bv8>, t: nat)
    requires |m| == 64 && 16 <= t < 64
    ensures Sum4(Fips.W(m, t - 16), SchedS0(Fips.W(m, t - 15)), Fips.W(m, t - 7), SchedS1(Fips.W(m, t - 2)))
            == Fips.W(m, t)
  {
    hide SmallSigma0, SmallSigma1, Add4, SchedS0, SchedS1, Sum4;
    SmallSigmas(Fips.W(m, t - 15));
    SmallSigmas(Fips.W(m, t - 2));
    ExactSum4(Fips.W(m, t - 16), SchedS0(Fips.W(m, t - 15)), Fips.W(m, t - 7), SchedS1(Fips.W(m, t - 2)));
  }

  /** Adding word by word is the standard's addition of states. */
  lemma SumsAdd(x: Fips.State, v: Fips.State)
    ensures Fips.AddState(x, v) == Fips.State(Sum2(x.a, v.a), Sum2(x.b, v.b), Sum2(x.c, v.c), Sum2(x.d, v.d),
                                              Sum2(x.e, v.e), Sum2(x.f, v.f), Sum2(x.g, v.g), Sum2(x.h, v.h))
  {
    hide Sum2, Add2;
    ExactSum2(x.a, v.a);
    ExactSum2(x.b, v.b);
    ExactSum2(x.c, v.c);
    ExactSum2(x.d, v.d);
    ExactSum2(x.e, v.e);
    ExactSum2(x.f, v.f);
    ExactSum2(x.g, v.g);
    ExactSum2(x.h, v.h);
  }

  /** The two halves hold the whole bit count, and their bytes are its big-endian form. */
  lemma LengthField(n: nat, bitsHi: nat, bitsLo: nat)
    requires n < TWO53
    requires bitsHi == (n / 0x2000_0000) % TWO32 && bitsLo == ((n % TWO32) * 8) % TWO32
    ensures bitsHi * TWO32 + bitsLo == 8 * n
    ensures Fips.BigEndian(8 * n, 8) == FourBytes(bitsHi) + FourBytes(bitsLo)
  {
    hide Fips.BigEndian, FourBytes;
    Halves(n);
    LowFour(bitsHi, bitsLo, 4);
    LowFour(0, bitsHi, 0);
    assert Fips.BigEndian(0, 0) + FourBytes(bitsHi) == FourBytes(bitsHi);
  }

  lemma Halves(n: nat)
    requires n < TWO53
    ensures (n / 0x2000_0000) % TWO32 == n / 0x2000_0000
    ensures ((n % TWO32) * 8) % TWO32 == 8 * (n % 0x2000_0000)
  {
    var q := n / 0x2000_0000;
    assert q < TWO32;
    Reduce(0, q);
    var a, b := n / TWO32, n % TWO32;
    var c, r := b / 0x2000_0000, b % 0x2000_0000;
    assert b * 8 == c * TWO32 + 8 * r;
    Reduce(c, 8 * r);
    assert n == (8 * a + c) * 0x2000_0000 + r;
    assert n % 0x2000_0000 == r;
  }

  lemma Reduce(c: nat, x: nat)
    requires x < TWO32
    ensures (c * TWO32 + x) % TWO32 == x
  {
  }

  function FourBytes(x: nat): (s: seq<bv8>)
    ensures |s| == 4
  {
    [Fips.Byte(x / 0x100_0000), Fips.Byte(x / 0x1_0000), Fips.Byte(x / 0x100), Fips.Byte(x)]
  }

  /** The last four bytes of hi·2^32 + lo are those of lo; the others are those of hi. */
  lemma {:induction false} LowFour(hi: nat, lo: nat, k: nat)
    requires lo < TWO32
    ensures Fips.BigEndian(hi * TWO32 + lo, k + 4) == Fips.BigEndian(hi, k) + FourBytes(lo)
  {
    hide Fips.Byte, Fips.BigEndian;
    var x0 := hi * TWO32 + lo;
    var x1, x2, x3 := x0 / 0x100, x0 / 0x1_0000, x0 / 0x100_0000;
    assert x1 / 256 == x2 && x2 / 256 == x3 && x3 / 256 == hi;
    LastByte(x0, k + 3);
    LastByte(x1, k + 2);
    LastByte(x2, k + 1);
    LastByte(x3, k);
    ByteOf(x0, lo, hi * 0x100_0000);
    ByteOf(x1, lo / 0x100, hi * 0x1_0000);
    ByteOf(x2, lo / 0x1_0000, hi * 0x100);
    ByteOf(x3, lo / 0x100_0000, hi);
  }

  lemma LastByte(x: nat, k: nat)
    ensures Fips.BigEndian(x, k + 1) == Fips.BigEndian(x / 256, k) + [Fips.Byte(x)]
  {
  }

  lemma ByteOf(x: nat, y: nat, m: nat)
    requires x == m * 256 + y
    ensures Fips.Byte(x) == Fips.Byte(y)
  {
    LowByte(m, y);
  }

  lemma LowByte(m: nat, y: nat)
    ensures (m * 256 + y) % 256 == y % 256
  {
  }

  /** However the hasher splits the padding at the block boundary, it is the standard's. */
  lemma PaddingSplit(message: seq<bv8>, n: nat)
    requires n == |message| % 64
    ensures n + 1 > 56 ==> Fips.ZeroCount(|message|) == (63 - n) + 56
    ensures n + 1 <= 56 ==> Fips.ZeroCount(|message|) == 55 - n
    ensures n + 1 > 56 ==> Fips.Zeros(63 - n) + Fips.Zeros(56) == Fips.Zeros(Fips.ZeroCount(|message|))
  {
  }

  lemma OneMoreBlock(m: seq<bv8>, block: seq<bv8>)
    requires |m| % 64 == 0 && |block| == 64
    ensures Fips.HashBlocks(Fips.IV, m + block) == Fips.Compress(Fips.HashBlocks(Fips.IV, m), block)
  {
    Fips.HashBlocksAppend(Fips.IV, m, block);
    Fips.HashBlocksOne(Fips.HashBlocks(Fips.IV, m), block);
  }

  datatype Result<T> = Ok(value: T) | Finished

  function Digit(d: nat): char
    requires d < 16
  {
    "0123456789abcdef"[d]
  }

  /** Number.prototype.toString(16) of a non-negative integer. */
  function ToString16(n: nat): (s: string)
    ensures |s| >= 1
  {
    if n < 16 then [Digit(n)] else ToString16(n / 16) + [Digit(n % 16)]
  }

  function PadStart(s: string, width: nat): string {
    if |s| >= width then s else seq(width - |s|, i => '0') + s
  }

  /** The k hexadecimal digits of n, leading zeros included. */
  function FixedHex(n: nat, k: nat): (s: string)
    ensures |s| == k
  {
    if k == 0 then "" else FixedHex(n / 16, k - 1) + [Digit(n % 16)]
  }

  function Pow16(k: nat): (p: nat)
    ensures p > 0
  {
    if k == 0 then 1 else 16 * Pow16(k - 1)
  }

  lemma {:induction false} ZeroHex(k: nat)
    ensures FixedHex(0, k) == seq(k, i => '0')
  {
    if k > 0 {
      ZeroHex(k - 1);
      assert FixedHex(0, k) == FixedHex(0, k - 1) + ['0'];
    }
  }

  /** toString(16).padStart(k, '0') is exactly the k-digit form. */
  lemma {:induction false} PaddedHex(n: nat, k: nat)
    requires k >= 1 && n < Pow16(k)
    ensures PadStart(ToString16(n), k) == FixedHex(n, k)
  {
    if n < 16 {
      ZeroHex(k - 1);
      assert n / 16 == 0 && n % 16 == n;
      assert FixedHex(n, k) == seq(k - 1, i => '0') + [Digit(n)];
    } else {
      assert k > 1;
      PaddedHex(n / 16, k - 1);
      assert PadStart(ToString16(n), k) == PadStart(ToString16(n / 16), k - 1) + [Digit(n % 16)];
    }
  }

  function WordsHex(words: seq<bv32>): string {
    if words == [] then "" else FixedHex(words[0] as nat, 8) + WordsHex(words[1..])
  }

  function WordsOf(v: Fips.State): seq<bv32> { [v.a, v.b, v.c, v.d, v.e, v.f, v.g, v.h] }

  /** The digest a file must get. */
  function Sha256Hex(m: seq<bv8>): string { WordsHex(WordsOf(Fips.Sha256(m))) }

  /** Array.from(h).map(v => v.toString(16).padStart(8, '0')).join('') */
  function JoinHex(h: seq<bv32>): string {
    if h == [] then "" else PadStart(ToString16(h[0] as nat), 8) + JoinHex(h[1..])
  }

  lemma {:induction false} JoinedHex(h: seq<bv32>)
    ensures JoinHex(h) == WordsHex(h)
  {
    if h != [] {
      assert Pow16(8) == 0x1_0000_0000;
      PaddedHex(h[0] as nat, 8);
      JoinedHex(h[1..]);
    }
  }

  lemma DigestWords(h: seq<bv32>, m: seq<bv8>)
    requires |h| == 8 && StateOf(h) == Fips.Sha256(m)
    ensures JoinHex(h) == Sha256Hex(m)
  {
    hide Fips.Sha256, WordsHex;
    JoinedHex(h);
    assert h == WordsOf(StateOf(h));
  }

  function StateOf(h: seq<bv32>): Fips.State
    requires |h| == 8
  {
    Fips.State(h[0], h[1], h[2], h[3], h[4], h[5], h[6], h[7])
  }

  class SHA256 {
    const h: array<bv32>
    const buf: array<bv8>
    const w: array<bv32>
    var bufLen: nat
    var bytesHashed: nat
    var finished: bool
    ghost var message: seq<bv8>  // every byte passed to Update so far

    /** The chaining value covers all of m but the last bufLen bytes, which sit in buf. */
    ghost predicate Absorbed(m: seq<bv8>)
      reads this`bufLen, h, buf
    {
      && h.Length == 8 && buf.Length == 64
      && bufLen <= 64 && bufLen <= |m| && (|m| - bufLen) % 64 == 0
      && StateOf(h[..]) == Fips.HashBlocks(Fips.IV, m[..|m| - bufLen])
      && buf[..bufLen] == m[|m| - bufLen..]
    }

    ghost predicate Valid()
      reads this, h, buf
    {
      && h.Length == 8 && buf.Length == 64 && w.Length == 64 && h != w
      && bytesHashed == |message| < TWO53
      && (!finished ==> Absorbed(message) && bufLen < 64)
    }

    constructor ()
      ensures Valid() && !finished && message == []
      ensures fresh(h) && fresh(buf) && fresh(w)
    {
      h := new bv32[8] [0x6a09e667, 0xbb67ae85, 0x3c6ef372, 0xa54ff53a,
                        0x510e527f, 0x9b05688c, 0x1f83d9ab, 0x5be0cd19];
      buf := new bv8[64];
      w := new bv32[64];
      bufLen := 0;
      bytesHashed := 0;
      finished := false;
      message := [];
    }

    method Schedule(block: array<bv8>, offset: nat)
      requires w.Length == 64 && offset + 64 <= block.Length
      modifies w
      ensures forall t :: 0 <= t < 64 ==> w[t] == Fips.W(block[offset..offset + 64], t)
    {
      hide Fips.W, SchedS0, SchedS1, Sum4, LoadWord;
      ghost var m := block[offset..offset + 64];
      for i := 0 to 16
        invariant forall t :: 0 <= t < i ==> w[t] == Fips.W(m, t)
      {
        var j := offset + i * 4;
        w[i] := LoadWord(block[j], block[j + 1], block[j + 2], block[j + 3]);
        LoadedWord(m, i);
      }
      for i := 16 to 64
        invariant forall t :: 0 <= t < i ==> w[t] == Fips.W(m, t)
      {
        var x, y := w[i - 15], w[i - 2];
        var s0 := SchedS0(x);
        var s1 := SchedS1(y);
        w[i] := Sum4(w[i - 16], s0, w[i - 7], s1);
        ScheduledWord(m, i);
      }
    }

    method Compression(block: array<bv8>, offset: nat) returns (v: Fips.State)
      requires h.Length == 8 && w.Length == 64 && offset + 64 <= block.Length
      requires forall t :: 0 <= t < 64 ==> w[t] == Fips.W(block[offset..offset + 64], t)
      ensures v == Fips.Rounds(StateOf(h[..]), block[offset..offset + 64], 64)
    {
      hide BigSigma0, BigSigma1, Ch, Maj, Add2, Add5, Fips.W, Fips.Round;
      hide RoundS0, RoundS1, RoundCh, RoundMaj, Sum2, Sum5;
      SameConstants();
      ghost var m := block[offset..offset + 64];
      ghost var start := StateOf(this.h[..]);
      var a, b, c, d := this.h[0], this.h[1], this.h[2], this.h[3];
      var e, f, g, h := this.h[4], this.h[5], this.h[6], this.h[7];
      for i := 0 to 64
        invariant Fips.State(a, b, c, d, e, f, g, h) == Fips.Rounds(start, m, i)
      {
        var S1 := RoundS1(e);
        var ch := RoundCh(e, f, g);
        var t1 := Sum5(h, S1, ch, ROUND_CONSTANTS[i], w[i]);
        var S0 := RoundS0(a);
        var maj := RoundMaj(a, b, c);
        var t2 := Sum2(S0, maj);
        RoundParts(a, b, c, d, e, f, g, h, ROUND_CONSTANTS[i], w[i]);
        h := g; g := f; f := e; e := Sum2(d, t1); d := c; c := b; b := a; a := Sum2(t1, t2);
      }
      v := Fips.State(a, b, c, d, e, f, g, h);
    }

    method Process(block: array<bv8>, offset: nat)
      requires h.Length == 8 && w.Length == 64 && h != w && offset + 64 <= block.Length
      modifies h, w
      ensures StateOf(h[..]) == Fips.Compress(old(StateOf(h[..])), block[offset..offset + 64])
    {
      hide Fips.AddState, Fips.Rounds, Fips.W;
      Schedule(block, offset);
      var v := Compression(block, offset);
      AddInto(v);
    }

    method AddInto(v: Fips.State)
      requires h.Length == 8
      modifies h
      ensures StateOf(h[..]) == Fips.AddState(old(StateOf(h[..])), v)
    {
      hide Sum2, Fips.AddState;
      SumsAdd(StateOf(h[..]), v);
      h[0] := Sum2(h[0], v.a); h[1] := Sum2(h[1], v.b); h[2] := Sum2(h[2], v.c); h[3] := Sum2(h[3], v.d);
      h[4] := Sum2(h[4], v.e); h[5] := Sum2(h[5], v.f); h[6] := Sum2(h[6], v.g); h[7] := Sum2(h[7], v.h);
    }

    /** Append one byte to a buffer that has room. */
    method PutByte(b: bv8, ghost m: seq<bv8>)
      requires Absorbed(m) && bufLen < 64
      modifies this`bufLen, buf
      ensures Absorbed(m + [b]) && bufLen == old(bufLen) + 1
    {
      hide Fips.HashBlocks, StateOf;
      buf[bufLen] := b;
      bufLen := bufLen + 1;
      assert (m + [b])[..|m| + 1 - bufLen] == m[..|m| - old(bufLen)];
    }

    /** A full buffer is compressed and emptied. */
    method DrainBuffer(ghost m: seq<bv8>)
      requires Absorbed(m) && bufLen == 64 && w.Length == 64 && h != w
      modifies this`bufLen, h, w
      ensures Absorbed(m) && bufLen == 0
    {
      hide Fips.HashBlocks, Fips.Compress, StateOf;
      ghost var head, block := m[..|m| - 64], m[|m| - 64..];
      assert buf[0..64] == block;
      Process(buf, 0);
      bufLen := 0;
      OneMoreBlock(head, block);
      assert head + block == m == m[..|m|];
    }

    /** A whole block of the input skips the buffer. */
    method AbsorbBlock(data: array<bv8>, pos: nat, ghost m: seq<bv8>)
      requires Absorbed(m) && bufLen == 0 && w.Length == 64 && h != w
      requires data != buf && pos + 64 <= data.Length
      modifies h, w
      ensures Absorbed(m + data[pos..pos + 64])
    {
      hide Fips.HashBlocks, Fips.Compress, StateOf;
      ghost var block := data[pos..pos + 64];
      assert m[..|m|] == m && (m + block)[..|m + block|] == m + block;
      Process(data, pos);
      OneMoreBlock(m, block);
    }

    method Update(data: array<bv8>) returns (r: Result<()>)
      requires Valid() && data != buf && |message| + data.Length < TWO53
      modifies this, h, buf, w
      ensures Valid() && finished == old(finished)
      ensures r == if old(finished) then Finished else Ok(())
      ensures message == if old(finished) then old(message) else old(message) + data[..]
    {
      hide Absorbed;
      if finished {
        return Finished;
      }
      bytesHashed := bytesHashed + data.Length;
      ghost var before := message;
      var pos := 0;
      assert before + data[..0] == before;

      if bufLen > 0 {
        while bufLen < 64 && pos < data.Length
          invariant pos <= data.Length && bufLen <= 64 && Absorbed(before + data[..pos])
          modifies this`bufLen, buf
        {
          PutByte(data[pos], before + data[..pos]);
          pos := pos + 1;
          assert before + data[..pos] == before + data[..pos - 1] + [data[pos - 1]];
        }
        if bufLen == 64 {
          DrainBuffer(before + data[..pos]);
        }
      }

      while pos + 64 <= data.Length
        invariant pos <= data.Length && Absorbed(before + data[..pos])
        invariant bufLen < 64 && (bufLen > 0 ==> pos == data.Length)
        modifies h, w
      {
        AbsorbBlock(data, pos, before + data[..pos]);
        pos := pos + 64;
        assert before + data[..pos] == before + data[..pos - 64] + data[pos - 64..pos];
      }

      while pos < data.Length
        invariant pos <= data.Length && Absorbed(before + data[..pos])
        invariant bufLen + (data.Length - pos) < 64
        modifies this`bufLen, buf
      {
        PutByte(data[pos], before + data[..pos]);
        pos := pos + 1;
        assert before + data[..pos] == before + data[..pos - 1] + [data[pos - 1]];
      }
      assert data[..pos] == data[..];
      message := before + data[..];
      r := Ok(());
    }

    /** Zero bytes up to position `target` of the buffer. */
    method PutZeros(target: nat, ghost m: seq<bv8>)
      requires Absorbed(m) && bufLen <= target <= 64
      modifies this`bufLen, buf
      ensures Absorbed(m + Fips.Zeros(target - old(bufLen))) && bufLen == target
    {
      hide Absorbed;
      ghost var start := bufLen;
      assert m + Fips.Zeros(0) == m;
      while bufLen < target
        invariant start <= bufLen <= target && Absorbed(m + Fips.Zeros(bufLen - start))
      {
        ghost var k := bufLen - start;
        PutByte(0, m + Fips.Zeros(k));
        assert m + Fips.Zeros(k) + [0] == m + Fips.Zeros(k + 1);
      }
    }

    /** Four bytes of the length field, most significant first. */
    method StoreWord(at: nat, x: nat)
      requires at + 4 <= buf.Length
      modifies buf
      ensures buf[..] == old(buf[..at]) + FourBytes(x) + old(buf[at + 4..])
    {
      var bytes := FourBytes(x);
      hide FourBytes;
      buf[at], buf[at + 1], buf[at + 2], buf[at + 3] := bytes[0], bytes[1], bytes[2], bytes[3];
    }

    /** The eight length bytes, from the two 32-bit halves of the bit count. */
    method PutLength(ghost m: seq<bv8>)
      requires Absorbed(m) && bufLen == 56 && bytesHashed < TWO53
      modifies this`bufLen, buf
      ensures Absorbed(m + Fips.BigEndian(8 * bytesHashed, 8)) && bufLen == 64
    {
      hide Fips.HashBlocks, Fips.BigEndian, FourBytes, StateOf;
      var bitsHi := (bytesHashed / 0x2000_0000) % TWO32;
      var bitsLo := ((bytesHashed % TWO32) * 8) % TWO32;
      StoreWord(56, bitsHi);
      StoreWord(60, bitsLo);
      bufLen := 64;
      ghost var field := Fips.BigEndian(8 * bytesHashed, 8);
      LengthField(bytesHashed, bitsHi, bitsLo);
      assert buf[..64] == buf[..] == old(buf[..56]) + field;
      assert (m + field)[..|m| - 56] == m[..|m| - 56];
      assert (m + field)[|m| - 56..] == m[|m| - 56..] + field;
    }

    method DigestHex() returns (r: Result<string>)
      requires Valid()
      modifies this, h, buf, w
      ensures Valid() && finished && message == old(message)
      ensures r == if old(finished) then Finished else Ok(Sha256Hex(message))
    {
      hide Absorbed, Fips.Sha256, StateOf, JoinHex, Sha256Hex;
      if finished {
        return Finished;
      }
      finished := true;
      FinishBlocks();
      DigestWords(h[..], message);
      r := Ok(JoinHex(h[..]));
    }

    method FinishBlocks()
      requires Absorbed(message) && bufLen < 64 && bytesHashed == |message| < TWO53
      requires w.Length == 64 && h != w
      modifies this`bufLen, h, buf, w
      ensures StateOf(h[..]) == Fips.Sha256(message)
    {
      hide Absorbed, Fips.HashBlocks, Fips.BigEndian, Fips.Zeros, Fips.ZeroCount, StateOf;
      ghost var m := message + [0x80] + Fips.Zeros(Fips.ZeroCount(|message|));
      Remainder(message);
      PadToLength();
      PutLength(m);
      DrainBuffer(Fips.Pad(message));
      EverythingHashed(Fips.Pad(message));
    }

    /** 0x80, then zeros up to the length field, through a block boundary if need be. */
    method PadToLength()
      requires Absorbed(message) && bufLen == |message| % 64 && w.Length == 64 && h != w
      modifies this`bufLen, h, buf, w
      ensures Absorbed(message + [0x80] + Fips.Zeros(Fips.ZeroCount(|message|))) && bufLen == 56
    {
      hide Absorbed, Fips.Zeros, Fips.ZeroCount;
      ghost var m, n := message + [0x80], bufLen;
      PaddingSplit(message, n);
      PutByte(0x80, message);
      if bufLen > 56 {
        PutZeros(64, m);
        DrainBuffer(m + Fips.Zeros(63 - n));
        PutZeros(56, m + Fips.Zeros(63 - n));
        assert m + Fips.Zeros(63 - n) + Fips.Zeros(56) == m + (Fips.Zeros(63 - n) + Fips.Zeros(56));
      } else {
        PutZeros(56, m);
      }
    }

    lemma Remainder(m: seq<bv8>)
      requires Absorbed(m) && bufLen < 64
      ensures bufLen == |m| % 64
    {
    }

    lemma EverythingHashed(m: seq<bv8>)
      requires Absorbed(m) && bufLen == 0
      ensures |m| % 64 == 0 && StateOf(h[..]) == Fips.HashBlocks(Fips.IV, m)
    {
      hide Fips.HashBlocks, StateOf;
      assert m[..|m|] == m;
    }
  }

  /** What file.slice(start, end).arrayBuffer() yields, as a fresh typed array. */
  method Slice(file: seq<bv8>, start: nat, end: nat) returns (a: array<bv8>)
    requires start <= end <= |file|
    ensures fresh(a) && a[..] == file[start..end]
  {
    a := new bv8[end - start] (i requires 0 <= i < end - start => file[start + i]);
    assert a[..] == file[start..end];
  }

  /** The worker: the file goes through Update in slices of chunkSize bytes. */
  method HashFile(file: seq<bv8>, chunkSize: nat) returns (hash: Result<string>)
    requires chunkSize > 0 && |file| < TWO53
    ensures hash == Ok(Sha256Hex(file))
  {
    hide SHA256.Valid, Sha256Hex;
    var sha := new SHA256();
    var chunks := (|file| + chunkSize - 1) / chunkSize;
    var done := 0;
    for i := 0 to chunks
      invariant sha.Valid() && !sha.finished
      invariant fresh(sha) && fresh(sha.h) && fresh(sha.buf) && fresh(sha.w)
      invariant done == Min(i * chunkSize, |file|) && sha.message == file[..done]
    {
      var start := i * chunkSize;
      ChunkStart(i, chunks, chunkSize, |file|);
      var end := Min(start + chunkSize, |file|);
      var buf := Slice(file, start, end);
      var _ := sha.Update(buf);
      done := end;
      assert file[..end] == file[..start] + file[start..end];
    }
    ChunksCover(chunks, chunkSize, |file|);
    assert file[..|file|] == file;
    hash := sha.DigestHex();
  }

  function Min(a: int, b: int): int { if a < b then a else b }

  /** Every chunk but the last is full, so chunk i starts inside the file. */
  lemma ChunkStart(i: nat, chunks: nat, chunkSize: nat, size: nat)
    requires chunkSize > 0 && chunks == (size + chunkSize - 1) / chunkSize && i < chunks
    ensures i * chunkSize < size
    ensures (i + 1) * chunkSize == i * chunkSize + chunkSize
  {
    assert (chunks - 1) * chunkSize <= size - 1;
    assert i * chunkSize <= (chunks - 1) * chunkSize;
  }

  lemma ChunksCover(chunks: nat, chunkSize: nat, size: nat)
    requires chunkSize > 0 && chunks == (size + chunkSize - 1) / chunkSize
    ensures chunks * chunkSize >= size
  {
  }
}
