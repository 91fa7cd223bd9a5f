/** What the scheduler's filters and scores mean (master/src/scheduler.c): whom a chunk may go to, what
    each part of the score is worth, and which worker ids carry which node number. */
module SchedulerScore {
  import opened MachineInts
  import opened SchedulerModel

  // ----- Filters -----

  /** The worker is up, of the right kind, and the demand fits beside what it has reserved. */
  ghost predicate Eligible(chunk: Chunk, worker: Worker) {
    && worker.healthy && !worker.draining
    && worker.platform == chunk.platform && worker.runtime == chunk.runtime
    && (chunk.requiresTouch ==> worker.hasTouchInput)
    && (chunk.cpu == 0 || worker.reservCpu + chunk.cpu <= worker.cpuUnits)
    && (chunk.memMb == 0 || worker.reservMemMb + chunk.memMb <= worker.freeMemMb)
  }

  /** The filters let a worker through if and only if it is eligible; it is a candidate for the chunk if
      and only if moreover it has CPU units and scores above minus one. */
  lemma FiltersMean(chunk: Chunk, worker: Worker)
    ensures HardFilters(chunk, worker) <==> Eligible(chunk, worker)
    ensures Placeable(chunk, worker) <==>
            Eligible(chunk, worker) && worker.cpuUnits > 0 && Score(chunk, worker).value > -1.0
  {
  }

  // ----- Decimal numerals -----

  function Digit(d: nat): char
    requires d < 10
  {
    ('0' as int + d) as char
  }

  /** The decimal numeral of n. */
  function Decimal(n: nat): (text: string)
    ensures |text| > 0
  {
    if n < 10 then [Digit(n)] else Decimal(n / 10) + [Digit(n % 10)]
  }

  function Zeros(z: nat): (text: string)
    ensures |text| == z
  {
    if z == 0 then "" else "0" + Zeros(z - 1)
  }

  /** part stands in text from i on. */
  ghost predicate At(text: string, i: nat, part: string) {
    i + |part| <= |text| && forall k {:trigger part[k]} :: 0 <= k < |part| ==> text[i + k] == part[k]
  }

  lemma AtSplit(text: string, i: nat, a: string, b: string)
    requires At(text, i, a + b)
    ensures At(text, i, a) && At(text, i + |a|, b)
  {
    forall k | 0 <= k < |a| ensures text[i + k] == a[k] {
      assert (a + b)[k] == a[k];
    }
    forall k | 0 <= k < |b| ensures text[i + |a| + k] == b[k] {
      assert (a + b)[|a| + k] == b[k];
    }
  }

  lemma AtHead(text: string, i: nat, part: string)
    requires At(text, i, part) && |part| > 0
    ensures text[i] == part[0]
  {
    assert text[i + 0] == part[0];
  }

  /** Reading the digits of a numeral gives its number. */
  lemma {:induction false} ReadsDecimal(text: string, i: nat, n: nat)
    requires At(text, i, Decimal(n))
    ensures DigitsFrom(text, i, 0) == DigitsFrom(text, i + |Decimal(n)|, n)
    decreases n
  {
    if n < 10 {
      AtHead(text, i, Decimal(n));
    } else {
      var front := Decimal(n / 10);
      AtSplit(text, i, front, [Digit(n % 10)]);
      ReadsDecimal(text, i, n / 10);
      AtHead(text, i + |front|, [Digit(n % 10)]);
      assert 10 * (n / 10) + n % 10 == n;
    }
  }

  lemma {:induction false} ReadsZeros(text: string, i: nat, z: nat)
    requires At(text, i, Zeros(z))
    ensures DigitsFrom(text, i, 0) == DigitsFrom(text, i + z, 0)
    decreases z
  {
    if z > 0 {
      AtHead(text, i, Zeros(z));
      AtSplit(text, i, "0", Zeros(z - 1));
      ReadsZeros(text, i + 1, z - 1);
    }
  }

  /** Leading zeros are allowed, and the number ends with the first character that is no digit. */
  lemma ReadsNumeral(text: string, i: nat, z: nat, n: nat)
    requires At(text, i, Zeros(z) + Decimal(n))
    requires var end := i + z + |Decimal(n)|; end == |text| || !IsDigit(text[end])
    ensures DigitsFrom(text, i, 0) == n
  {
    AtSplit(text, i, Zeros(z), Decimal(n));
    ReadsZeros(text, i, z);
    ReadsDecimal(text, i + z, n);
  }

  // ----- Node numbers -----

  predicate IsSpace(c: char) { c == ' ' || '\t' <= c <= '\r' }

  lemma {:induction false} SkipsSpaces(text: string, i: nat, k: nat)
    requires i <= k <= |text| && (forall m :: i <= m < k ==> IsSpace(text[m])) && (k == |text| || !IsSpace(text[k]))
    ensures SkipSpaces(text, i) == k
    decreases k - i
  {
    if i < k {
      SkipsSpaces(text, i + 1, k);
    }
  }

  lemma NumeralStarts(z: nat, n: nat)
    ensures IsDigit((Zeros(z) + Decimal(n))[0])
  {
    if z == 0 {
      DecimalStarts(n);
      assert (Zeros(z) + Decimal(n))[0] == Decimal(n)[0];
    } else {
      assert Zeros(z)[0] == '0';
    }
  }

  lemma {:induction false} DecimalStarts(n: nat)
    ensures IsDigit(Decimal(n)[0])
  {
    if n >= 10 {
      DecimalStarts(n / 10);
    }
  }

  /** What follows the seven-character prefix of a worker id: a numeral, perhaps behind spaces and with
      leading zeros, and whatever comes after the digits. */
  ghost predicate Numbered(text: string, spaces: nat, sign: string, z: nat, n: nat) {
    var at := spaces + |sign|;
    && spaces <= |text| && (forall m :: 0 <= m < spaces ==> IsSpace(text[m]))
    && sign in {"", "+", "-"} && At(text, spaces, sign) && At(text, at, Zeros(z) + Decimal(n))
    && var end := at + z + |Decimal(n)|; end == |text| || !IsDigit(text[end])
  }

  lemma NumberFollows(text: string, spaces: nat, sign: string, z: nat, n: nat)
    requires Numbered(text, spaces, sign, z, n)
    ensures SkipSpaces(text, 0) == spaces < |text|
    ensures sign == "" ==> IsDigit(text[spaces])
    ensures sign != "" ==> text[spaces] == sign[0]
    ensures DigitsFrom(text, spaces + |sign|, 0) == n
  {
    NumeralStarts(z, n);
    AtHead(text, spaces + |sign|, Zeros(z) + Decimal(n));
    if sign != "" {
      AtHead(text, spaces, sign);
    }
    SkipsSpaces(text, 0, spaces);
    ReadsNumeral(text, spaces + |sign|, z, n);
  }

  /** The node number of an id is the number behind its seven-character prefix, as a 32-bit word. */
  lemma NodeNumberReads(prefix: string, text: string, spaces: nat, sign: string, z: nat, n: nat)
    requires |prefix| == 7 && Numbered(text, spaces, sign, z, n) && n < TWO_32 / 2
    ensures NodeNumber(prefix + text) == if sign == "-" && n > 0 then TWO_32 - n else n
  {
    assert (prefix + text)[7..] == text;
    NumberFollows(text, spaces, sign, z, n);
  }

  /** In particular "worker-", or any other seven characters, followed by the numeral of n. */
  lemma NodeNumberRoundTrip(prefix: string, z: nat, n: nat)
    requires |prefix| == 7 && n < TWO_32 / 2
    ensures NodeNumber(prefix + (Zeros(z) + Decimal(n))) == n
  {
    var text := Zeros(z) + Decimal(n);
    assert At(text, 0, text) && At(text, 0, "");
    assert Numbered(text, 0, "", z, n);
    NodeNumberReads(prefix, text, 0, "", z, n);
  }

  /** Without a number behind the prefix the node number is zero. */
  lemma NoNumberIsZero(prefix: string, text: string)
    requires |prefix| == 7
    requires text == "" || (!IsSpace(text[0]) && !IsDigit(text[0]) && text[0] != '-' && text[0] != '+')
    ensures NodeNumber(prefix + text) == 0
  {
    assert (prefix + text)[7..] == text;
    SkipsSpaces(text, 0, 0);
  }

  // ----- What the parts of the score are worth -----

  lemma RatioDifference(a: real, b: real, u: real)
    requires u > 0.0
    ensures a / u - b / u == (a - b) / u
  {
  }

  /** CPU counts 40 for all of it, reliability 30, the preferred node 20, and a full or missing battery
      10: changing one of them changes the score by exactly its share. */
  lemma ScoreShares(chunk: Chunk, w: Worker, reserved: u8, reliability: real, battery: real)
    requires w.cpuUnits > 0 && battery >= 0.0
    ensures Score(chunk, w).value - Score(chunk, w.(reservCpu := reserved)).value
         == (reserved - w.reservCpu) as real / w.cpuUnits as real * 40.0
    ensures Score(chunk, w.(reliability := reliability)).value - Score(chunk, w).value
         == (reliability - w.reliability) * 30.0
    ensures Score(chunk, w.(batteryPct := battery)).value - Score(chunk, w.(batteryPct := 0.0)).value == battery / 10.0
    ensures Score(chunk, w.(batteryPct := -1.0)) == Score(chunk, w.(batteryPct := 100.0))
  {
    RatioDifference((w.cpuUnits - w.reservCpu) as real, (w.cpuUnits - reserved) as real, w.cpuUnits as real);
  }

  /** Of two workers that differ only in their ids, the one with the preferred number scores 20 more. */
  lemma PreferredScoresMore(chunk: Chunk, w: Worker, other: WorkerId)
    requires w.cpuUnits > 0 && NodeNumber(w.id) == chunk.preferredNode && NodeNumber(other) != chunk.preferredNode
    ensures Score(chunk, w).value == Score(chunk, w.(id := other)).value + 20.0
  {
  }

  lemma PreferredOutscores(chunk: Chunk, w: Worker, other: WorkerId)
    requires NodeNumber(w.id) == chunk.preferredNode && NodeNumber(other) != chunk.preferredNode
    requires Placeable(chunk, w.(id := other))
    ensures Placeable(chunk, w) && Score(chunk, w).value > Score(chunk, w.(id := other)).value
  {
    PreferredScoresMore(chunk, w, other);
  }

  lemma OutscoredNotBest(workers: seq<Worker>, chunk: Chunk, i: nat, j: nat)
    requires i < |workers| && j < |workers|
    requires Placeable(chunk, workers[j]) ==>
               Placeable(chunk, workers[i]) && Score(chunk, workers[i]).value > Score(chunk, workers[j]).value
    ensures Best(workers, chunk, |workers|) != j
  {
  }

  /** So a worker numbered m is never chosen while one that differs from it only in being numbered n is
      registered, if n is the node the chunk prefers. */
  lemma PreferredIsChosen(workers: seq<Worker>, chunk: Chunk, i: nat, j: nat, prefix: string, n: nat, m: nat)
    requires i < |workers| && j < |workers| && |prefix| == 7 && n < TWO_32 / 2 && m < TWO_32 / 2 && n != m
    requires workers[i].id == prefix + Decimal(n) && workers[j] == workers[i].(id := prefix + Decimal(m))
    requires chunk.preferredNode == n
    ensures Best(workers, chunk, |workers|) != j
  {
    PlainNodeNumber(prefix, n);
    PlainNodeNumber(prefix, m);
    if Placeable(chunk, workers[j]) {
      PreferredOutscores(chunk, workers[i], workers[j].id);
    }
    OutscoredNotBest(workers, chunk, i, j);
  }

  lemma PlainNodeNumber(prefix: string, n: nat)
    requires |prefix| == 7 && n < TWO_32 / 2
    ensures NodeNumber(prefix + Decimal(n)) == n
  {
    assert Zeros(0) + Decimal(n) == Decimal(n);
    NodeNumberRoundTrip(prefix, 0, n);
  }
}
