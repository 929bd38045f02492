/** Message ids: milliseconds since the epoch above ten bits of sequence, in one int64. */
module ArchiverIds {
  const EPOCH: int := 1750000000000
  const TWO53: int := 0x20_0000_0000_0000
  const TWO63: int := 0x8000_0000_0000_0000
  const TWO64: int := 0x1_0000_0000_0000_0000
  const SEQUENCES: int := 1024

  // ---- the arithmetic of int64 ----

  /** The 64-bit pattern n % 2^64 read as a signed number. */
  function ToInt64(n: int): int { (n + TWO63) % TWO64 - TWO63 }

  function BitOr(a: nat, b: nat): nat
    decreases a + b
  {
    if a == 0 && b == 0 then 0
    else 2 * BitOr(a / 2, b / 2) + (if a % 2 == 1 || b % 2 == 1 then 1 else 0)
  }

  function Pow2(k: nat): (p: nat)
    ensures p > 0
  {
    if k == 0 then 1 else 2 * Pow2(k - 1)
  }

  /** Bits below k and bits from k on do not meet, so OR adds them. */
  lemma {:induction false} BitOrAdds(x: nat, s: nat, k: nat)
    requires s < Pow2(k)
    ensures BitOr(x * Pow2(k), s) == x * Pow2(k) + s
  {
    if k == 0 {
      OrZero(x);
    } else {
      var half := x * Pow2(k - 1);
      assert x * Pow2(k) == 2 * half;
      BitOrAdds(x, s / 2, k - 1);
    }
  }

  lemma {:induction false} OrZero(x: nat)
    ensures BitOr(x, 0) == x
  {
    if x > 0 { OrZero(x / 2); }
  }

  /** (now - epoch) << 10 | sequence */
  function Pack(ms: int, sequence: nat): int
    requires sequence < SEQUENCES
  {
    ToInt64(BitOr((ms * SEQUENCES) % TWO64, sequence))
  }

  /** Whatever the clock says the id is ms * 1024 + sequence modulo 2^64; within 2^53 ms of the
      epoch it is that number itself. */
  lemma PackValue(ms: int, sequence: nat)
    requires sequence < SEQUENCES
    ensures Pack(ms, sequence) == ToInt64(ms * SEQUENCES + sequence)
    ensures -TWO53 <= ms < TWO53 ==>
              Pack(ms, sequence) == ms * SEQUENCES + sequence && -TWO63 <= Pack(ms, sequence) < TWO63
  {
    hide ToInt64, BitOr;
    var low := ms % 0x40_0000_0000_0000;
    TenBits(low, sequence);
    ShiftWraps(ms);
    SameWrap(low * SEQUENCES + sequence, ms * SEQUENCES + sequence, ms / 0x40_0000_0000_0000);
    if -TWO53 <= ms < TWO53 {
      Fits(ms * SEQUENCES + sequence);
    }
  }

  lemma TenBits(x: nat, s: nat)
    requires s < SEQUENCES
    ensures BitOr(x * SEQUENCES, s) == x * SEQUENCES + s
  {
    assert Pow2(10) == SEQUENCES;
    BitOrAdds(x, s, 10);
  }

  lemma Fits(n: int)
    requires -TWO63 <= n < TWO63
    ensures ToInt64(n) == n
  {
  }

  lemma ShiftWraps(ms: int)
    ensures (ms * SEQUENCES) % TWO64 == (ms % 0x40_0000_0000_0000) * SEQUENCES
  {
    var q, r := ms / 0x40_0000_0000_0000, ms % 0x40_0000_0000_0000;
    assert ms * SEQUENCES == q * TWO64 + r * SEQUENCES;
    Mod64(q, r * SEQUENCES);
  }

  lemma Mod64(q: int, r: nat)
    requires r < TWO64
    ensures (q * TWO64 + r) % TWO64 == r
  {
  }

  lemma SameWrap(a: int, b: int, q: int)
    requires b == a + q * TWO64
    ensures ToInt64(a) == ToInt64(b)
  {
    var d, r := (a + TWO63) / TWO64, (a + TWO63) % TWO64;
    assert b + TWO63 == (d + q) * TWO64 + r;
    Mod64(d + q, r);
  }

  /** Ids are ordered as (time, sequence) pairs are. */
  lemma PackOrder(ms: int, sequence: nat, ms': int, sequence': nat)
    requires -TWO53 <= ms < TWO53 && -TWO53 <= ms' < TWO53 && sequence < SEQUENCES && sequence' < SEQUENCES
    ensures Pack(ms, sequence) < Pack(ms', sequence') <==> ms < ms' || (ms == ms' && sequence < sequence')
  {
    PackValue(ms, sequence);
    PackValue(ms', sequence');
  }

  // ---- the generator ----

  predicate InRange(now: int) { -TWO53 <= now - EPOCH < TWO53 }

  /** What a call leaves behind: idLastMs and idSequence. */
  datatype Stamp = Stamp(ms: int, sequence: nat)

  predicate StampOk(a: Stamp) { InRange(a.ms) && a.sequence < SEQUENCES }

  function IdOf(a: Stamp): int
    requires StampOk(a)
  {
    Pack(a.ms - EPOCH, a.sequence)
  }

  /** One call, from the stamp before it to the one after: `first` is its first clock reading.
      A full millisecond is waited out; any other change of the clock starts a new sequence. */
  predicate Called(a: Stamp, first: int, b: Stamp) {
    if first != a.ms then b == Stamp(first, 0)
    else if a.sequence < SEQUENCES - 1 then b == Stamp(a.ms, a.sequence + 1)
    else b.ms > a.ms && b.sequence == 0
  }

  class Generator {
    var lastMs: int
    var sequence: nat

    function Value(): Stamp
      reads this
    {
      Stamp(lastMs, sequence)
    }

    constructor ()
      ensures Value() == Stamp(0, 0)
    {
      lastMs, sequence := 0, 0;
    }

    /** clock lists the readings the call may take; it goes past the last millisecond in the
        end, or the wait for the next one would not end. */
    method NextID(clock: seq<int>) returns (id: int)
      requires StampOk(Value()) && |clock| > 0 && clock[|clock| - 1] > lastMs
      requires forall i :: 0 <= i < |clock| ==> InRange(clock[i])
      modifies this
      ensures StampOk(Value()) && id == IdOf(Value())
      ensures Called(old(Value()), clock[0], Value()) && lastMs in clock
    {
      hide Pack;
      var now, k := clock[0], 0;
      if now == lastMs {
        sequence := (sequence + 1) % SEQUENCES;
        if sequence == 0 {
          while now <= lastMs
            invariant k < |clock| && now == clock[k]
            decreases |clock| - k
          {
            k := k + 1;
            now := clock[k];
          }
        }
      } else {
        sequence := 0;
      }
      lastMs := now;
      id := Pack(now - EPOCH, sequence);
    }
  }

  ghost predicate Calls(stamps: seq<Stamp>, firsts: seq<int>) {
    && |stamps| == |firsts| + 1
    && (forall i :: 0 <= i < |stamps| ==> StampOk(stamps[i]))
    && (forall i :: 0 <= i < |firsts| ==> Called(stamps[i], firsts[i], stamps[i + 1]))
  }

  /** One call makes a larger id exactly when its first reading is no earlier than the last stamp. */
  lemma CallOrder(a: Stamp, first: int, b: Stamp)
    requires StampOk(a) && StampOk(b) && Called(a, first, b)
    ensures IdOf(a) < IdOf(b) <==> first >= a.ms
  {
    PackOrder(a.ms - EPOCH, a.sequence, b.ms - EPOCH, b.sequence);
  }

  lemma {:induction false} LaterIsLarger(stamps: seq<Stamp>, firsts: seq<int>, i: nat, j: nat)
    requires Calls(stamps, firsts) && i < j < |stamps|
    requires forall k :: 0 <= k < |firsts| ==> firsts[k] >= stamps[k].ms
    ensures IdOf(stamps[i]) < IdOf(stamps[j])
  {
    hide IdOf, Called;
    CallOrder(stamps[j - 1], firsts[j - 1], stamps[j]);
    if i < j - 1 {
      LaterIsLarger(stamps, firsts, i, j - 1);
    }
  }

  /** Ids increase strictly over a whole series of calls if and only if no call reads a clock
      that has gone back behind the last stamp. */
  lemma IdsIncrease(stamps: seq<Stamp>, firsts: seq<int>)
    requires Calls(stamps, firsts)
    ensures (forall i, j :: 0 <= i < j < |stamps| ==> IdOf(stamps[i]) < IdOf(stamps[j]))
            <==> forall k :: 0 <= k < |firsts| ==> firsts[k] >= stamps[k].ms
  {
    hide IdOf, Called;
    if forall k :: 0 <= k < |firsts| ==> firsts[k] >= stamps[k].ms {
      forall i, j | 0 <= i < j < |stamps|
        ensures IdOf(stamps[i]) < IdOf(stamps[j])
      {
        LaterIsLarger(stamps, firsts, i, j);
      }
    } else {
      var k :| 0 <= k < |firsts| && firsts[k] < stamps[k].ms;
      CallOrder(stamps[k], firsts[k], stamps[k + 1]);
    }
  }

  /** Every id fits an int64 and gives its time and sequence back. */
  lemma IdDecodes(a: Stamp)
    requires StampOk(a)
    ensures -TWO63 <= IdOf(a) < TWO63
    ensures IdOf(a) / SEQUENCES + EPOCH == a.ms && IdOf(a) % SEQUENCES == a.sequence
    ensures a.ms > EPOCH ==> IdOf(a) > 0
  {
    PackValue(a.ms - EPOCH, a.sequence);
  }
}
