/** The aggregated result hash of a completed job (master/src/workload.c): FNV-1a over the characters of
    the chunks' checksums, in chunk order. */
module ResultHash {
  import opened MachineInts
  import opened ChunkIdMixer

  const BASIS: u64 := 0xcbf29ce484222325
  const PRIME: u64 := 0x100000001b3

  // The inverse of the prime modulo 2^64.
  const UNPRIME: u64 := 0xce965057aff6957b

  function Byte(c: char): u64 { c as int % 0x100 }

  function HashChar(h: u64, c: char): u64 { Times(XorWord(h, Byte(c)), PRIME) }

  /** The hash after the first n characters of a text, from h on. */
  function HashText(h: u64, text: string, n: nat): u64
    requires n <= |text|
  {
    if n == 0 then h else HashChar(HashText(h, text, n - 1), text[n - 1])
  }

  /** The hash after the first n texts. */
  function HashTexts(texts: seq<string>, n: nat): u64
    requires n <= |texts|
  {
    if n == 0 then BASIS else HashText(HashTexts(texts, n - 1), texts[n - 1], |texts[n - 1]|)
  }

  function Aggregate(texts: seq<string>): u64 { HashTexts(texts, |texts|) }

  // ----- One step loses nothing -----

  lemma HashCharUndone(h: u64, c: char)
    ensures XorWord(Times(HashChar(h, c), UNPRIME), Byte(c)) == h
  {
    FactorInverts(XorWord(h, Byte(c)), PRIME, UNPRIME);
    XorCancels(h, Byte(c));
  }

  lemma ByteRecovered(h: u64, c: char)
    ensures XorWord(h, Times(HashChar(h, c), UNPRIME)) == Byte(c)
  {
    FactorInverts(XorWord(h, Byte(c)), PRIME, UNPRIME);
    XorFromLeft(h, Byte(c));
  }

  /** A step distinguishes states ... */
  lemma StatesDiffer(h: u64, k: u64, c: char)
    ensures HashChar(h, c) == HashChar(k, c) <==> h == k
  {
    HashCharUndone(h, c);
    HashCharUndone(k, c);
  }

  /** ... and it distinguishes bytes. */
  lemma BytesDiffer(h: u64, c: char, d: char)
    ensures HashChar(h, c) == HashChar(h, d) <==> Byte(c) == Byte(d)
  {
    ByteRecovered(h, c);
    ByteRecovered(h, d);
  }

  /** Whatever text follows, different states stay different. */
  lemma {:induction false} HashTextInjective(h: u64, k: u64, text: string, n: nat)
    requires n <= |text|
    ensures HashText(h, text, n) == HashText(k, text, n) <==> h == k
    decreases n
  {
    if n > 0 {
      HashTextInjective(h, k, text, n - 1);
      StatesDiffer(HashText(h, text, n - 1), HashText(k, text, n - 1), text[n - 1]);
    }
  }

  // ----- What the hash can tell apart -----

  /** The texts agree except for the byte at position i. */
  ghost predicate DifferAt(a: string, b: string, i: nat) {
    && |a| == |b| && i < |a| && Byte(a[i]) != Byte(b[i])
    && forall k :: 0 <= k < |a| && k != i ==> Byte(a[k]) == Byte(b[k])
  }

  lemma {:induction false} SameBytes(h: u64, a: string, b: string, n: nat)
    requires n <= |a| == |b| && forall k :: 0 <= k < n ==> Byte(a[k]) == Byte(b[k])
    ensures HashText(h, a, n) == HashText(h, b, n)
    decreases n
  {
    if n > 0 {
      SameBytes(h, a, b, n - 1);
    }
  }

  /** One changed byte changes the hash of the text, from every state. */
  lemma {:induction false} OneByteMatters(h: u64, a: string, b: string, i: nat, n: nat)
    requires DifferAt(a, b, i) && i < n <= |a|
    ensures HashText(h, a, n) != HashText(h, b, n)
    decreases n
  {
    if i == n - 1 {
      SameBytes(h, a, b, n - 1);
      BytesDiffer(HashText(h, a, n - 1), a[n - 1], b[n - 1]);
    } else {
      OneByteMatters(h, a, b, i, n - 1);
      BytesDiffer(HashText(h, b, n - 1), a[n - 1], b[n - 1]);
      StatesDiffer(HashText(h, a, n - 1), HashText(h, b, n - 1), a[n - 1]);
    }
  }

  lemma {:induction false} SamePrefix(a: seq<string>, b: seq<string>, n: nat)
    requires n <= |a| && n <= |b| && forall k :: 0 <= k < n ==> a[k] == b[k]
    ensures HashTexts(a, n) == HashTexts(b, n)
    decreases n
  {
    if n > 0 {
      SamePrefix(a, b, n - 1);
    }
  }

  /** Whatever the other checksums are: two job results that differ in one byte of one chunk's checksum
      never have the same aggregated hash. */
  lemma {:induction false} ChecksumChangeShows(a: seq<string>, c: nat, text: string, i: nat, n: nat)
    requires c < n <= |a| && DifferAt(a[c], text, i)
    ensures HashTexts(a, n) != HashTexts(a[c := text], n)
    decreases n
  {
    var b := a[c := text];
    if c == n - 1 {
      SamePrefix(a, b, n - 1);
      OneByteMatters(HashTexts(a, n - 1), a[c], text, i, |text|);
    } else {
      ChecksumChangeShows(a, c, text, i, n - 1);
      HashTextInjective(HashTexts(a, n - 1), HashTexts(b, n - 1), a[n - 1], |a[n - 1]|);
    }
  }

  /** The texts one after the other. */
  function Joined(texts: seq<string>, n: nat): string
    requires n <= |texts|
  {
    if n == 0 then "" else Joined(texts, n - 1) + texts[n - 1]
  }

  lemma {:induction false} HashAppend(h: u64, a: string, b: string, n: nat)
    requires n <= |b|
    ensures HashText(h, a + b, |a| + n) == HashText(HashText(h, a, |a|), b, n)
    decreases n
  {
    if n == 0 {
      HashPrefix(h, a + b, a, |a|);
    } else {
      HashAppend(h, a, b, n - 1);
      assert (a + b)[|a| + n - 1] == b[n - 1];
    }
  }

  lemma {:induction false} HashPrefix(h: u64, whole: string, part: string, n: nat)
    requires n <= |part| && part <= whole
    ensures HashText(h, whole, n) == HashText(h, part, n)
    decreases n
  {
    if n > 0 {
      HashPrefix(h, whole, part, n - 1);
    }
  }

  /** What the hash cannot tell apart: it sees only the checksums joined together, so where one ends and
      the next begins does not matter. */
  lemma {:induction false} OnlyJoinedMatters(texts: seq<string>, n: nat)
    requires n <= |texts|
    ensures HashTexts(texts, n) == HashText(BASIS, Joined(texts, n), |Joined(texts, n)|)
    decreases n
  {
    if n > 0 {
      OnlyJoinedMatters(texts, n - 1);
      HashAppend(BASIS, Joined(texts, n - 1), texts[n - 1], |texts[n - 1]|);
    }
  }
}
