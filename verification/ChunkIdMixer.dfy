/** The 64-bit mixing function that numbers chunks (master/src/chunk_planner.c).
    Words are naturals below 2^64, so that shifts are divisions, products are reduced modulo 2^64
    and exclusive-or works bit by bit. */
module ChunkIdMixer {
  import opened MachineInts

  function Pow2(k: nat): (p: nat)
    ensures p > 0
  {
    if k == 0 then 1 else 2 * Pow2(k - 1)
  }

  /** Bitwise exclusive-or. */
  function Xor(a: nat, b: nat): nat {
    if a == 0 && b == 0 then 0 else 2 * Xor(a / 2, b / 2) + (a + b) % 2
  }

  lemma XorParts(a: nat, b: nat)
    ensures Xor(a, b) / 2 == Xor(a / 2, b / 2) && Xor(a, b) % 2 == (a + b) % 2
  {
  }

  lemma SameHalves(a: nat, b: nat)
    requires a / 2 == b / 2 && a % 2 == b % 2
    ensures a == b
  {
  }

  lemma ParityCancels(a: nat, b: nat, x: nat)
    requires x % 2 == (a + b) % 2
    ensures (x + b) % 2 == a % 2
  {
  }

  lemma {:induction false} XorCancels(a: nat, b: nat)
    ensures Xor(Xor(a, b), b) == a
  {
    if a != 0 || b != 0 {
      var x, y := Xor(a, b), Xor(Xor(a, b), b);
      XorParts(a, b);
      XorParts(x, b);
      assert y / 2 == a / 2 by {
        XorCancels(a / 2, b / 2);
      }
      ParityCancels(a, b, x);
      SameHalves(y, a);
    }
  }

  lemma {:induction false} XorCommutes(a: nat, b: nat)
    ensures Xor(a, b) == Xor(b, a)
  {
    if a != 0 || b != 0 {
      XorCommutes(a / 2, b / 2);
    }
  }

  lemma {:induction false} XorBound(a: nat, b: nat, k: nat)
    requires a < Pow2(k) && b < Pow2(k)
    ensures Xor(a, b) < Pow2(k)
    decreases k
  {
    if k > 0 && (a != 0 || b != 0) {
      XorBound(a / 2, b / 2, k - 1);
    }
  }

  /** a >> k */
  function ShiftRight(a: nat, k: nat): nat {
    if k == 0 then a else ShiftRight(a / 2, k - 1)
  }

  lemma {:induction false} XorShiftsDown(a: nat, b: nat, k: nat)
    ensures ShiftRight(Xor(a, b), k) == Xor(ShiftRight(a, k), ShiftRight(b, k))
    decreases k
  {
    if k > 0 {
      XorParts(a, b);
      XorShiftsDown(a / 2, b / 2, k - 1);
    }
  }

  lemma {:induction false} ShiftShrinks(a: nat, k: nat)
    ensures ShiftRight(a, k) <= a
    decreases k
  {
    if k > 0 {
      ShiftShrinks(a / 2, k - 1);
    }
  }

  lemma {:induction false} ShiftBound(a: nat, j: nat, k: nat)
    requires a < Pow2(j + k)
    ensures ShiftRight(a, k) < Pow2(j)
    decreases k
  {
    if k > 0 {
      ShiftBound(a / 2, j, k - 1);
    }
  }

  lemma {:induction false} XorZero(a: nat)
    ensures Xor(a, 0) == a
  {
    if a != 0 {
      XorZero(a / 2);
    }
  }

  lemma {:induction false} Pow2Add(a: nat, b: nat)
    ensures Pow2(a + b) == Pow2(a) * Pow2(b)
    decreases a
  {
    if a > 0 {
      Pow2Add(a - 1, b);
    }
  }

  lemma Pow2Double(n: nat, value: nat)
    requires Pow2(n) == value
    ensures Pow2(2 * n) == value * value
  {
    Pow2Add(n, n);
  }

  lemma WordSize()
    ensures Pow2(64) == TWO_64
  {
    assert Pow2(4) == 16;
    Pow2Double(4, 0x10);
    Pow2Double(8, 0x100);
    Pow2Double(16, 0x1_0000);
    Pow2Double(32, TWO_32);
  }

  function XorWord(a: u64, b: u64): u64 {
    WordSize();
    XorBound(a, b, 64);
    Xor(a, b)
  }

  /** hash ^= hash >> 33 */
  function XorShift33(x: u64): u64 {
    ShiftShrinks(x, 33);
    XorWord(x, ShiftRight(x, 33))
  }

  lemma ShiftedOut(x: u64)
    ensures ShiftRight(ShiftRight(x, 33), 33) == 0
  {
    WordSize();
    assert Pow2(66) == 4 * Pow2(64);
    ShiftBound(x, 33, 33);
    ShiftBound(ShiftRight(x, 33), 0, 33);
  }

  lemma XorShiftUndoesItself(x: u64)
    ensures XorShift33(XorShift33(x)) == x
  {
    var h := ShiftRight(x, 33);
    assert ShiftRight(Xor(x, h), 33) == h by {
      XorShiftsDown(x, h, 33);
      ShiftedOut(x);
      XorZero(h);
    }
    XorCancels(x, h);
  }

  function Times(x: u64, factor: u64): u64 { x * factor % TWO_64 }

  const MIX_1: u64 := 0xff51afd7ed558ccd
  const MIX_2: u64 := 0xc4ceb9fe1a85ec53

  // The inverses of the two odd factors modulo 2^64.
  const UNMIX_1: u64 := 0x4f74430c22a54005
  const UNMIX_2: u64 := 0x9cb4b2f8129337db

  lemma FactorInverts(x: u64, c: u64, d: u64)
    requires c * d % TWO_64 == 1
    ensures Times(Times(x, c), d) == x
  {
    var k, q := c * d / TWO_64, x * c / TWO_64;
    assert c * d == k * TWO_64 + 1;
    assert x * c == q * TWO_64 + Times(x, c);
    calc {
      Times(x, c) * d;
      (x * c - q * TWO_64) * d;
      x * (c * d) - q * d * TWO_64;
      x * (k * TWO_64 + 1) - q * d * TWO_64;
      (x * k - q * d) * TWO_64 + x;
    }
    RemainderUnique(Times(x, c) * d, x * k - q * d, x);
  }

  lemma RemainderUnique(a: int, q: int, r: u64)
    requires a == q * TWO_64 + r
    ensures a % TWO_64 == r
  {
  }

  /** One round of the mixer, and the round that takes it back. */
  function Mix(x: u64, factor: u64): u64 { Times(XorShift33(x), factor) }

  function Unmix(x: u64, factor: u64): u64 { XorShift33(Times(x, factor)) }

  lemma MixUndone(x: u64, c: u64, d: u64)
    requires c * d % TWO_64 == 1
    ensures Unmix(Mix(x, c), d) == x
  {
    FactorInverts(XorShift33(x), c, d);
    XorShiftUndoesItself(x);
  }

  lemma UnmixUndone(x: u64, c: u64, d: u64)
    requires d * c % TWO_64 == 1
    ensures Mix(Unmix(x, d), c) == x
  {
    XorShiftUndoesItself(Times(x, d));
    FactorInverts(x, d, c);
  }

  function Scramble(x: u64, c1: u64, c2: u64): u64 { XorShift33(Mix(Mix(x, c1), c2)) }

  function Unscramble(x: u64, d1: u64, d2: u64): u64 { Unmix(Unmix(XorShift33(x), d2), d1) }

  lemma ScrambleUndone(x: u64, c1: u64, c2: u64, d1: u64, d2: u64)
    requires c1 * d1 % TWO_64 == 1 && c2 * d2 % TWO_64 == 1
    ensures Unscramble(Scramble(x, c1, c2), d1, d2) == x
  {
    XorShiftUndoesItself(Mix(Mix(x, c1), c2));
    MixUndone(Mix(x, c1), c2, d2);
    MixUndone(x, c1, d1);
  }

  lemma UnscrambleUndone(x: u64, c1: u64, c2: u64, d1: u64, d2: u64)
    requires d1 * c1 % TWO_64 == 1 && d2 * c2 % TWO_64 == 1
    ensures Scramble(Unscramble(x, d1, d2), c1, c2) == x
  {
    UnmixUndone(Unmix(XorShift33(x), d2), c1, d1);
    UnmixUndone(XorShift33(x), c2, d2);
    XorShiftUndoesItself(x);
  }

  function DeterministicChunkId(baseHash: u64, chunkIndex: u64): u64 {
    Scramble(XorWord(baseHash, chunkIndex), MIX_1, MIX_2)
  }

  /** Recovers the chunk index from a chunk id. */
  function ChunkIndexOf(baseHash: u64, id: u64): u64 {
    XorWord(baseHash, Unscramble(id, UNMIX_1, UNMIX_2))
  }

  /** For every base hash the mixer is a bijection on 64-bit words: the index can be read back
      from the id, and every word is the id of some index. */
  lemma ChunkIdRoundTrip(baseHash: u64, x: u64)
    ensures ChunkIndexOf(baseHash, DeterministicChunkId(baseHash, x)) == x
    ensures DeterministicChunkId(baseHash, ChunkIndexOf(baseHash, x)) == x
  {
    ScrambleUndone(XorWord(baseHash, x), MIX_1, MIX_2, UNMIX_1, UNMIX_2);
    XorFromLeft(baseHash, x);
    XorFromLeft(baseHash, Unscramble(x, UNMIX_1, UNMIX_2));
    UnscrambleUndone(x, MIX_1, MIX_2, UNMIX_1, UNMIX_2);
  }

  lemma XorFromLeft(a: nat, b: nat)
    ensures Xor(a, Xor(a, b)) == b
  {
    XorCommutes(a, b);
    XorCommutes(a, Xor(b, a));
    XorCancels(b, a);
  }

  /** Chunks of one workload never share an id. */
  lemma ChunkIdsDiffer(baseHash: u64, i: u64, j: u64)
    requires i != j
    ensures DeterministicChunkId(baseHash, i) != DeterministicChunkId(baseHash, j)
  {
    ChunkIdRoundTrip(baseHash, i);
    ChunkIdRoundTrip(baseHash, j);
  }
}
