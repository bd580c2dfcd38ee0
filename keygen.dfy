/** The key generator: unbiased random integers by rejection sampling over
    bytes of the random device, batches of bounded integers from the
    periodically reseeded Mersenne Twister, and random keys over a
    configurable alphabet. */
module KeyGenerator {
  import opened Errors
  import opened Bits
  import opened Entropy
  import opened Prng

  const Base62Chars: string := "1234567890abcdefghijklmnopqrstuvwxyzABCDEFGHIJKLMNOPQRSTUVWXYZ"
  const Base64Chars: string := Base62Chars + "/+"

  /** The batch generator reseeds the PRNG every this many draws ... */
  const ReseedEvery: nat := 30
  /** ... with a seed made of this many bytes of the random device. */
  const SeedBytes: nat := 4
  /** getRandomNumber gives up once this many draws were rejected. */
  const MaxAttempts: nat := 128

  // ---------------------------------------------------------------------------
  // getRandomBytes

  /** What a read returned and what the device still holds. */
  datatype Reading = Reading(result: Result<seq<Byte>>, rest: seq<Byte>)

  /** getRandomBytes(length): a missing or unreadable device and one that does
      not open are errors; otherwise the read may come back short. */
  function RandomBytes(dev: Device, pool: seq<Byte>, length: int): (r: Reading)
    ensures r.result.Success? <==> dev.readable && dev.openable
    ensures r.result.Success? ==> r.result.value + r.rest == pool
    ensures r.result.Success? ==> |r.result.value| == Taken(pool, length)
    ensures r.result.Failure? ==> r.rest == pool
    ensures !dev.readable ==> r.result == Failure(EntropyNotReadable)
    ensures dev.readable && !dev.openable ==> r.result == Failure(EntropyOpenFailed)
  {
    if !dev.readable then Reading(Failure(EntropyNotReadable), pool)
    else if !dev.openable then Reading(Failure(EntropyOpenFailed), pool)
    else
      var k := Taken(pool, length);
      assert pool[..k] + pool[k..] == pool;
      Reading(Success(pool[..k]), pool[k..])
  }

  // ---------------------------------------------------------------------------
  // getRandomNumber

  /** Bytes drawn per candidate for a range: ceil(bitlength(range) / 8). */
  function ByteCount(range: nat): nat
  {
    (BitLength(range) + 7) / 8
  }

  /** The all-ones mask of bitlength(range) bits. */
  function Mask(range: nat): nat
  {
    Pow2(BitLength(range)) - 1
  }

  /** The mask is the least all-ones value covering the range, and the byte
      count is the least number of bytes holding its bits. */
  lemma MaskCoversRange(range: nat)
    requires range > 0
    ensures range <= Mask(range) < 2 * range
    ensures Mask(range) + 1 == Pow2(BitLength(range))
    ensures 8 * ByteCount(range) - 8 < BitLength(range) <= 8 * ByteCount(range)
  {
    BitLengthBounds(range);
    assert Pow2(BitLength(range)) == 2 * Pow2(BitLength(range) - 1);
  }

  /** One more bit needs one more byte exactly when the bits so far fill
      whole bytes. */
  lemma ByteCountStep(bits: nat)
    ensures (bits + 8) / 8 == (bits + 7) / 8 + (if bits % 8 == 0 then 1 else 0)
  {
    var q, m := bits / 8, bits % 8;
    assert bits == 8 * q + m;
    if m == 0 {
      DivModUnique(bits + 8, 8, q + 1, 0);
      DivModUnique(bits + 7, 8, q, 7);
    } else {
      DivModUnique(bits + 8, 8, q + 1, m);
      DivModUnique(bits + 7, 8, q + 1, m - 1);
    }
  }

  /** One pass of the sizing loop: shifting the range right drops one bit,
      and shifting a one into the mask makes it one bit wider. */
  lemma RangeStep(r: nat, bits: nat)
    requires r > 0
    ensures BitLength(r) == 1 + BitLength(r / 2)
    ensures (Pow2(bits) - 1) * 2 + 1 == Pow2(bits + 1) - 1
  {
  }

  /** One candidate: the little-endian value of `bytes` drawn bytes, masked,
      shifted by min. */
  function Candidate(bs: seq<Byte>, bytes: nat, mask: nat, min: int): int
  {
    BitAnd(Word(bs, 0, bytes), mask) + min
  }

  /** The outcome of a rejection-sampling run: its result, the bytes left on
      the device and every candidate drawn, in order. */
  datatype Sample = Sample(result: Result<int>, rest: seq<Byte>, candidates: seq<int>)

  /** The do-while loop of getRandomNumber from attempt number `attempts` on:
      give up past MaxAttempts, else draw, mask and shift a candidate and
      return it when at most max, or discard it and try again. */
  function Rejection(dev: Device, pool: seq<Byte>, min: int, max: int, bytes: nat, mask: nat, attempts: nat): (s: Sample)
    requires attempts <= MaxAttempts + 1
    ensures |s.candidates| <= MaxAttempts + 1 - attempts
    ensures s.result.Success? ==> min <= s.result.value <= max
    ensures s.result.Success? ==> |s.candidates| > 0 && s.candidates[|s.candidates| - 1] == s.result.value
    ensures s.result == Failure(RngBroken) ==> |s.candidates| == MaxAttempts + 1 - attempts
    ensures s.result.Failure? && s.result.error != RngBroken ==> s.candidates == [] && s.rest == pool
    decreases MaxAttempts + 1 - attempts
  {
    if attempts > MaxAttempts then Sample(Failure(RngBroken), pool, [])
    else
      var read := RandomBytes(dev, pool, bytes);
      if read.result.Failure? then Sample(Failure(read.result.error), read.rest, [])
      else
        var v := Candidate(read.result.value, bytes, mask, min);
        assert min <= v <= min + mask by {
          BitAndAtMost(Word(read.result.value, 0, bytes), mask);
        }
        if min <= v <= max then Sample(Success(v), read.rest, [v])
        else
          var next := Rejection(dev, read.rest, min, max, bytes, mask, attempts + 1);
          Sample(next.result, next.rest, [v] + next.candidates)
  }

  /** Every candidate of s lies in [lo, hi], and every one but an accepted
      last one exceeded max. */
  ghost predicate CandidatesWithin(s: Sample, lo: int, hi: int, max: int)
  {
    && (forall i :: 0 <= i < |s.candidates| ==> lo <= s.candidates[i] <= hi)
    && (forall i :: 0 <= i < |s.candidates| && !(s.result.Success? && i == |s.candidates| - 1) ==> s.candidates[i] > max)
  }

  /** Every candidate lies in [min, min + mask], and every one but an
      accepted last one exceeded max. */
  lemma {:induction false} RejectionCandidates(dev: Device, pool: seq<Byte>, min: int, max: int, bytes: nat, mask: nat, attempts: nat)
    requires attempts <= MaxAttempts + 1
    ensures CandidatesWithin(Rejection(dev, pool, min, max, bytes, mask, attempts), min, min + mask, max)
    decreases MaxAttempts + 1 - attempts
  {
    var s := Rejection(dev, pool, min, max, bytes, mask, attempts);
    if attempts > MaxAttempts {
      RejectionGivesUp(dev, pool, min, max, bytes, mask, attempts);
    } else if !(dev.readable && dev.openable) {
      RejectionDeviceFails(dev, pool, min, max, bytes, mask, attempts);
    } else {
      var k := Taken(pool, bytes);
      var read, rest := pool[..k], pool[k..];
      assert read + rest == pool;
      RejectionAttempt(dev, pool, min, max, bytes, mask, attempts, read, rest);
      var v := Candidate(read, bytes, mask, min);
      BitAndAtMost(Word(read, 0, bytes), mask);
      if !(min <= v <= max) {
        var next := Rejection(dev, rest, min, max, bytes, mask, attempts + 1);
        RejectionCandidates(dev, rest, min, max, bytes, mask, attempts + 1);
        CandidatesPrepend(s, v, next, min, min + mask, max);
      }
    }
  }

  lemma CandidatesPrepend(s: Sample, v: int, next: Sample, lo: int, hi: int, max: int)
    requires Continues(s, [v], next) && CandidatesWithin(next, lo, hi, max)
    requires lo <= v <= hi && v > max
    ensures CandidatesWithin(s, lo, hi, max)
  {
    forall i | 0 <= i < |s.candidates|
      ensures lo <= s.candidates[i] <= hi
      ensures !(s.result.Success? && i == |s.candidates| - 1) ==> s.candidates[i] > max
    {
      if i > 0 {
        assert s.candidates[i] == next.candidates[i - 1];
      }
    }
  }

  lemma {:induction false} BitAndAtMost(x: nat, y: nat)
    ensures BitAnd(x, y) <= y
  {
    if x != 0 && y != 0 {
      BitAndAtMost(x / 2, y / 2);
    }
  }

  /** A run that has drawn `drawn` so far and goes on as `rest` ends as `whole`. */
  ghost predicate Continues(whole: Sample, drawn: seq<int>, rest: Sample)
  {
    whole.result == rest.result && whole.rest == rest.rest && whole.candidates == drawn + rest.candidates
  }

  /** One attempt of the rejection loop on a working device. */
  lemma RejectionStep(dev: Device, pool: seq<Byte>, min: int, max: int, bytes: nat, mask: nat, attempts: nat)
    requires attempts <= MaxAttempts && dev.readable && dev.openable
    ensures var k := Taken(pool, bytes);
      var v := Candidate(pool[..k], bytes, mask, min);
      var s := Rejection(dev, pool, min, max, bytes, mask, attempts);
      if min <= v <= max then s == Sample(Success(v), pool[k..], [v])
      else Continues(s, [v], Rejection(dev, pool[k..], min, max, bytes, mask, attempts + 1))
  {
  }

  /** One attempt, in terms of what the read returned and left behind. */
  lemma RejectionAttempt(dev: Device, pool: seq<Byte>, min: int, max: int, bytes: nat, mask: nat, attempts: nat,
                         read: seq<Byte>, rest: seq<Byte>)
    requires attempts <= MaxAttempts && dev.readable && dev.openable
    requires read + rest == pool && |read| == Taken(pool, bytes)
    ensures var v := Candidate(read, bytes, mask, min);
      var s := Rejection(dev, pool, min, max, bytes, mask, attempts);
      if min <= v <= max then s == Sample(Success(v), rest, [v])
      else Continues(s, [v], Rejection(dev, rest, min, max, bytes, mask, attempts + 1))
  {
    var k := Taken(pool, bytes);
    assert read == pool[..k] && rest == pool[k..];
    RejectionStep(dev, pool, min, max, bytes, mask, attempts);
  }

  lemma ContinuesAccepted(whole: Sample, drawn: seq<int>, mid: Sample, v: int, rest: seq<Byte>)
    requires Continues(whole, drawn, mid) && mid == Sample(Success(v), rest, [v])
    ensures whole == Sample(Success(v), rest, drawn + [v])
  {
  }

  lemma ContinuesThrough(whole: Sample, drawn: seq<int>, mid: Sample, more: seq<int>, rest: Sample)
    requires Continues(whole, drawn, mid) && Continues(mid, more, rest)
    ensures Continues(whole, drawn + more, rest)
  {
    assert drawn + (more + rest.candidates) == (drawn + more) + rest.candidates;
  }

  lemma RejectionGivesUp(dev: Device, pool: seq<Byte>, min: int, max: int, bytes: nat, mask: nat, attempts: nat)
    requires attempts == MaxAttempts + 1
    ensures Rejection(dev, pool, min, max, bytes, mask, attempts) == Sample(Failure(RngBroken), pool, [])
  {
  }

  lemma RejectionDeviceFails(dev: Device, pool: seq<Byte>, min: int, max: int, bytes: nat, mask: nat, attempts: nat)
    requires attempts <= MaxAttempts && !(dev.readable && dev.openable)
    ensures Rejection(dev, pool, min, max, bytes, mask, attempts) == Sample(Failure(RandomBytes(dev, pool, bytes).result.error), pool, [])
  {
  }

  /** getRandomNumber(min, max) on the device's bytes. */
  function RandomNumber(dev: Device, pool: seq<Byte>, min: int, max: int): (s: Sample)
    ensures s.result == Failure(MinAboveMax) <==> min > max
    ensures s.result.Success? ==> min <= s.result.value <= max
    ensures min == max ==> s == Sample(Success(min), pool, [])
    ensures |s.candidates| <= MaxAttempts + 1
  {
    if min > max then Sample(Failure(MinAboveMax), pool, [])
    else if min == max then Sample(Success(min), pool, [])
    else Rejection(dev, pool, min, max, ByteCount(max - min), Mask(max - min), 0)
  }

  lemma RandomNumberStartsRejection(dev: Device, pool: seq<Byte>, min: int, max: int, bytes: nat, mask: nat)
    requires min < max && bytes == ByteCount(max - min) && mask == Mask(max - min)
    ensures RandomNumber(dev, pool, min, max) == Rejection(dev, pool, min, max, bytes, mask, 0)
  {
  }

  /** Every candidate lies in [min, min + mask] with mask < 2 (max - min): an
      out-of-range candidate is discarded, never reduced into the range; the
      run gives up exactly when MaxAttempts + 1 draws were all rejected. */
  lemma RandomNumberRejects(dev: Device, pool: seq<Byte>, min: int, max: int)
    requires min < max
    ensures var s := RandomNumber(dev, pool, min, max);
      && (forall i :: 0 <= i < |s.candidates| ==> min <= s.candidates[i] < min + 2 * (max - min))
      && (s.result == Failure(RngBroken)
          <==> |s.candidates| == MaxAttempts + 1 && forall i :: 0 <= i < |s.candidates| ==> s.candidates[i] > max)
  {
    var s := Rejection(dev, pool, min, max, ByteCount(max - min), Mask(max - min), 0);
    assert RandomNumber(dev, pool, min, max) == s;
    SampleRejects(dev, pool, min, max, s);
  }

  lemma SampleRejects(dev: Device, pool: seq<Byte>, min: int, max: int, s: Sample)
    requires min < max && s == Rejection(dev, pool, min, max, ByteCount(max - min), Mask(max - min), 0)
    ensures forall i :: 0 <= i < |s.candidates| ==> min <= s.candidates[i] < min + 2 * (max - min)
    ensures s.result == Failure(RngBroken)
      <==> |s.candidates| == MaxAttempts + 1 && forall i :: 0 <= i < |s.candidates| ==> s.candidates[i] > max
  {
    var mask := Mask(max - min);
    MaskCoversRange(max - min);
    RejectionCandidates(dev, pool, min, max, ByteCount(max - min), mask, 0);
    GivingUpMeansAllRejected(s, min, mask, max, 2 * (max - min));
  }

  /** For a run whose candidates lie in [min, min + mask] and whose shape is
      what Rejection promises: every candidate is below min + bound, and the
      run gave up exactly when all MaxAttempts + 1 candidates exceeded max. */
  lemma GivingUpMeansAllRejected(s: Sample, min: int, mask: nat, max: int, bound: int)
    requires CandidatesWithin(s, min, min + mask, max) && mask < bound
    requires s.result.Success? ==> |s.candidates| > 0 && s.candidates[|s.candidates| - 1] == s.result.value <= max
    requires s.result == Failure(RngBroken) ==> |s.candidates| == MaxAttempts + 1
    requires s.result.Failure? && s.result.error != RngBroken ==> s.candidates == []
    ensures forall i :: 0 <= i < |s.candidates| ==> min <= s.candidates[i] < min + bound
    ensures s.result == Failure(RngBroken)
      <==> |s.candidates| == MaxAttempts + 1 && forall i :: 0 <= i < |s.candidates| ==> s.candidates[i] > max
  {
  }

  /** Bytes that c reads of b bytes each take from a device holding len. */
  function Consumed(len: nat, c: nat, b: nat): nat
  {
    if c * b <= len then c * b else len
  }

  lemma ConsumedStep(len: nat, c: nat, b: nat)
    ensures var k := if b <= len then b else len;
      Consumed(len, c + 1, b) == k + Consumed(len - k, c, b)
  {
    assert (c + 1) * b == c * b + b;
  }

  lemma SliceTwice(pool: seq<Byte>, k: nat, j: nat)
    requires k + j <= |pool|
    ensures pool[k..][j..] == pool[k + j..]
  {
  }

  lemma ConsumptionPrepend(pool: seq<Byte>, bytes: nat, s: Sample, next: Sample)
    requires s.rest == next.rest && |s.candidates| == 1 + |next.candidates|
    requires var k := Taken(pool, bytes); next.rest == pool[k..][Consumed(|pool| - k, |next.candidates|, bytes)..]
    ensures s.rest == pool[Consumed(|pool|, |s.candidates|, bytes)..]
  {
    var k, c := Taken(pool, bytes), |next.candidates|;
    ConsumedStep(|pool|, c, bytes);
    SliceTwice(pool, k, Consumed(|pool| - k, c, bytes));
  }

  /** Each draw of a run takes `bytes` bytes from a working device (fewer when
      it runs dry): the run consumes min(|pool|, candidates * bytes) bytes. */
  lemma {:induction false} RejectionConsumption(dev: Device, pool: seq<Byte>, min: int, max: int, bytes: nat, mask: nat, attempts: nat)
    requires attempts <= MaxAttempts + 1
    requires dev.readable && dev.openable
    ensures var s := Rejection(dev, pool, min, max, bytes, mask, attempts);
      s.rest == pool[Consumed(|pool|, |s.candidates|, bytes)..]
    decreases MaxAttempts + 1 - attempts
  {
    var s := Rejection(dev, pool, min, max, bytes, mask, attempts);
    if attempts > MaxAttempts {
      RejectionGivesUp(dev, pool, min, max, bytes, mask, attempts);
      assert pool[0..] == pool;
    } else {
      var k := Taken(pool, bytes);
      var read, rest := pool[..k], pool[k..];
      assert read + rest == pool;
      RejectionAttempt(dev, pool, min, max, bytes, mask, attempts, read, rest);
      var v := Candidate(read, bytes, mask, min);
      if min <= v <= max {
        ConsumedStep(|pool|, 0, bytes);
      } else {
        var next := Rejection(dev, rest, min, max, bytes, mask, attempts + 1);
        RejectionConsumption(dev, rest, min, max, bytes, mask, attempts + 1);
        ConsumptionPrepend(pool, bytes, s, next);
      }
    }
  }

  // ---------------------------------------------------------------------------
  // getRandomNumbersBaseX

  /** ceil(a / d), as PHP's ceil() of the float quotient gives it. */
  function CeilDiv(a: int, d: nat): (c: int)
    requires d > 0
    ensures d * (c - 1) < a <= d * c
  {
    -((-a) / d)
  }

  /** The entropy budget of a batch: one seed per started group of
      ReseedEvery draws, and one more for the final reseed. */
  function BytesNeeded(amount: int): int
  {
    (CeilDiv(amount, ReseedEvery) + 1) * SeedBytes
  }

  /** The values a batch of `amount` produces (none for a negative amount). */
  function Draws(amount: int): nat
  {
    if amount < 0 then 0 else amount
  }

  /** Seed number j: the little-endian value of bytes 4j .. 4j+3 of the
      budget, missing ones read as 0. */
  function SeedAt(bs: seq<Byte>, j: nat): nat
  {
    Word(bs, SeedBytes * j, SeedBytes)
  }

  /** The result of an operation on both random sources: its value, the bytes
      left on the device and the PRNG state afterwards. */
  datatype Run<T> = Run(result: Result<T>, pool: seq<Byte>, prng: PrngState)

  /** getRandomNumbersBaseX(base, amount): read the whole budget, then draw
      value i as draw number i mod 30 after seed number i div 30, and finish
      by reseeding with the next seed. For base < 1 every mt_rand call
      returns PHP's false (None), and the reseeds still happen. */
  function NumbersBaseX(dev: Device, gen: Generator, pool: seq<Byte>, prng: PrngState, base: int, amount: int): (r: Run<seq<Option<int>>>)
    ensures r.result.Failure? <==> !(dev.readable && dev.openable)
    ensures r.result.Failure? ==> r.result.error == (if dev.readable then EntropyOpenFailed else EntropyNotReadable)
    ensures r.result.Success? ==> |r.result.value| == Draws(amount)
    ensures r.result.Success? && base >= 1 ==>
      forall i :: 0 <= i < |r.result.value| ==> r.result.value[i].Some? && 0 <= r.result.value[i].value < base
    ensures r.result.Success? && base < 1 ==> forall i :: 0 <= i < |r.result.value| ==> r.result.value[i].None?
    ensures r.result.Success? ==> r.prng.drawn == 0
    ensures dev.readable && dev.openable ==> r.pool == pool[Taken(pool, BytesNeeded(amount))..]
    ensures !(dev.readable && dev.openable) ==> r.pool == pool && r.prng == prng
  {
    var read := RandomBytes(dev, pool, BytesNeeded(amount));
    if read.result.Failure? then Run(Failure(read.result.error), read.rest, prng)
    else
      var b := Batch(gen, read.result.value, base, amount);
      Run(Success(b.values), read.rest, b.prng)
  }

  datatype Drawn = Drawn(values: seq<Option<int>>, prng: PrngState)

  /** The drawing loop of getRandomNumbersBaseX over the budget bs: the
      values, and the PRNG on the seed after the last one the draws used. */
  function Batch(gen: Generator, bs: seq<Byte>, base: int, amount: int): (d: Drawn)
    ensures |d.values| == Draws(amount)
    ensures base >= 1 ==> forall i :: 0 <= i < |d.values| ==> d.values[i].Some? && 0 <= d.values[i].value < base
    ensures base < 1 ==> forall i :: 0 <= i < |d.values| ==> d.values[i].None?
    ensures d.prng == PrngState(SeedAt(bs, ReseedsBefore(Draws(amount))), 0)
  {
    var n := Draws(amount);
    ValuesInRange(gen, bs, base, n);
    ReseedAccounting(n);
    Drawn(Values(gen, bs, base, n), PrngState(SeedAt(bs, CeilDiv(n, ReseedEvery)), 0))
  }

  /** Value i of a batch: draw number i mod 30 after seed number i div 30,
      or false when the range is empty. */
  function BaseXDraw(gen: Generator, bs: seq<Byte>, base: int, i: nat): Option<int>
  {
    if base < 1 then None else Some(gen(SeedAt(bs, i / ReseedEvery), i % ReseedEvery, 0, base - 1))
  }

  /** The first n values of a batch. */
  function Values(gen: Generator, bs: seq<Byte>, base: int, n: nat): (vs: seq<Option<int>>)
    ensures |vs| == n
  {
    if n == 0 then [] else Values(gen, bs, base, n - 1) + [BaseXDraw(gen, bs, base, n - 1)]
  }

  lemma {:induction false} ValuesInRange(gen: Generator, bs: seq<Byte>, base: int, n: nat)
    ensures forall i :: 0 <= i < n ==> Values(gen, bs, base, n)[i] == BaseXDraw(gen, bs, base, i)
    ensures base >= 1 ==> forall i :: 0 <= i < n ==>
      Values(gen, bs, base, n)[i].Some? && 0 <= Values(gen, bs, base, n)[i].value < base
    ensures base < 1 ==> forall i :: 0 <= i < n ==> Values(gen, bs, base, n)[i].None?
  {
    if n > 0 {
      ValuesInRange(gen, bs, base, n - 1);
      assert Values(gen, bs, base, n)[..n - 1] == Values(gen, bs, base, n - 1);
    }
  }

  /** The number of reseeds that precede the first n draws: one before
      every draw whose index is a multiple of ReseedEvery. */
  function ReseedsBefore(n: nat): nat
  {
    if n == 0 then 0 else ReseedsBefore(n - 1) + (if (n - 1) % ReseedEvery == 0 then 1 else 0)
  }

  /** The reseeds before the draws number ceil(n / 30); with the final
      reseed, four bytes per reseed use up the budget exactly. */
  lemma {:induction false} ReseedAccounting(n: nat)
    ensures ReseedsBefore(n) == CeilDiv(n, ReseedEvery)
    ensures BytesNeeded(n) == SeedBytes * (ReseedsBefore(n) + 1)
  {
    if n > 0 {
      ReseedAccounting(n - 1);
      CeilDivParts(n - 1);
    }
  }

  /** Value i of a batch is the first draw after a reseed exactly when i is
      a multiple of ReseedEvery: it uses a different seed from value i - 1
      and sits at position 0 after it. */
  lemma ReseedSchedule(dev: Device, gen: Generator, pool: seq<Byte>, prng: PrngState, base: int, amount: int, i: nat)
    requires 0 < i < amount
    ensures (i / ReseedEvery != (i - 1) / ReseedEvery) <==> i % ReseedEvery == 0
    ensures var r := NumbersBaseX(dev, gen, pool, prng, base, amount);
      r.result.Success? ==>
        var bs := pool[..Taken(pool, BytesNeeded(amount))];
        r.result.value[i] == BaseXDraw(gen, bs, base, i)
  {
    if dev.readable && dev.openable {
      ValuesInRange(gen, pool[..Taken(pool, BytesNeeded(amount))], base, amount);
    }
  }

  /** The bytes left after the n-th seed has been cut off the budget
      (substr($s, 4) returns false past the end, which becomes ''). */
  function Drop(bs: seq<Byte>, k: nat): seq<Byte>
  {
    if k <= |bs| then bs[k..] else []
  }

  /** What is left after j seeds starts with seed j, and cutting four bytes
      off it leaves what follows seed j. */
  lemma SeedFromRest(bs: seq<Byte>, j: nat)
    ensures Word(Drop(bs, SeedBytes * j), 0, SeedBytes) == SeedAt(bs, j)
    ensures Drop(Drop(bs, SeedBytes * j), SeedBytes) == Drop(bs, SeedBytes * (j + 1))
  {
    var rest := Drop(bs, SeedBytes * j);
    forall i | 0 <= i < SeedBytes
      ensures ByteAt(rest, i) == ByteAt(bs, SeedBytes * j + i)
    {
    }
    WordOfSameBytes(rest, bs, SeedBytes * j, SeedBytes);
  }

  /** substr($s, 0, 4) has the same four-byte value as $s. */
  lemma PrefixWord(bs: seq<Byte>)
    ensures Word(if SeedBytes <= |bs| then bs[..SeedBytes] else bs, 0, SeedBytes) == Word(bs, 0, SeedBytes)
  {
    var chunk := if SeedBytes <= |bs| then bs[..SeedBytes] else bs;
    forall i | 0 <= i < SeedBytes
      ensures ByteAt(chunk, i) == ByteAt(bs, 0 + i)
    {
    }
    WordOfSameBytes(chunk, bs, 0, SeedBytes);
  }

  /** The PRNG state after value i - 1 of a batch was drawn: a failed draw
      leaves the generator where the reseed put it. */
  function StateAfterDraw(bs: seq<Byte>, base: int, i: nat): PrngState
    requires i > 0
  {
    PrngState(SeedAt(bs, (i - 1) / ReseedEvery), if base < 1 then 0 else (i - 1) % ReseedEvery + 1)
  }

  /** How one more draw moves a batch on: the draw after a multiple of
      ReseedEvery starts a new seed, any other continues the current one. */
  lemma BatchStep(bs: seq<Byte>, base: int, k: nat)
    ensures k % ReseedEvery == 0 ==>
      CeilDiv(k + 1, ReseedEvery) == CeilDiv(k, ReseedEvery) + 1 && CeilDiv(k, ReseedEvery) == k / ReseedEvery
    ensures k % ReseedEvery != 0 ==>
      CeilDiv(k + 1, ReseedEvery) == CeilDiv(k, ReseedEvery)
      && StateAfterDraw(bs, base, k) == PrngState(SeedAt(bs, k / ReseedEvery), if base < 1 then 0 else k % ReseedEvery)
    ensures StateAfterDraw(bs, base, k + 1) == PrngState(SeedAt(bs, k / ReseedEvery), if base < 1 then 0 else k % ReseedEvery + 1)
  {
    CeilDivParts(k);
    if k % ReseedEvery != 0 {
      assert (k - 1) / ReseedEvery == k / ReseedEvery && (k - 1) % ReseedEvery + 1 == k % ReseedEvery;
    }
  }

  lemma BatchAppend(gen: Generator, bs: seq<Byte>, base: int, result: seq<Option<int>>, v: Option<int>)
    requires forall j :: 0 <= j < |result| ==> result[j] == BaseXDraw(gen, bs, base, j)
    requires v == BaseXDraw(gen, bs, base, |result|)
    ensures forall j :: 0 <= j < |result| + 1 ==> (result + [v])[j] == BaseXDraw(gen, bs, base, j)
  {
  }

  /** ceil(k / 30) is k div 30, plus one unless 30 divides k; and
      ceil((k + 1) / 30) is always k div 30 plus one. */
  lemma CeilDivParts(k: nat)
    ensures CeilDiv(k, ReseedEvery) == k / ReseedEvery + (if k % ReseedEvery == 0 then 0 else 1)
    ensures CeilDiv(k + 1, ReseedEvery) == k / ReseedEvery + 1
  {
    var q, m := k / ReseedEvery, k % ReseedEvery;
    if m == 0 {
      DivModUnique(-(k as int), ReseedEvery, -q, 0);
    } else {
      DivModUnique(-(k as int), ReseedEvery, -q - 1, ReseedEvery - m);
    }
    DivModUnique(-(k + 1), ReseedEvery, -q - 1, ReseedEvery - m - 1);
  }

  /** Draw number k of a batch, from the state the loop has reached: right
      after a reseed when k is a multiple of ReseedEvery, else right after
      draw k - 1. */
  lemma BatchDraw(gen: Generator, bs: seq<Byte>, base: int, k: nat, st: PrngState)
    requires k % ReseedEvery == 0 ==> st == PrngState(SeedAt(bs, CeilDiv(k, ReseedEvery)), 0)
    requires k % ReseedEvery != 0 ==> k > 0 && st == StateAfterDraw(bs, base, k)
    ensures Rand(gen, st, 0, base - 1) == Draw(BaseXDraw(gen, bs, base, k), StateAfterDraw(bs, base, k + 1))
  {
    BatchStep(bs, base, k);
  }

  /** What holds between two passes of the batch loop that has drawn
      `result` and not yet finished: the values are the batch's first ones,
      the seeds used so far are cut off the budget, and the PRNG stands
      right after the last draw. */
  ghost predicate Drawing(gen: Generator, bs: seq<Byte>, base: int, remaining: seq<Byte>, result: seq<Option<int>>, st: PrngState)
  {
    && (forall j :: 0 <= j < |result| ==> result[j] == BaseXDraw(gen, bs, base, j))
    && remaining == Drop(bs, SeedBytes * CeilDiv(|result|, ReseedEvery))
    && (|result| > 0 ==> st == StateAfterDraw(bs, base, |result|))
  }

  lemma DrawingStart(gen: Generator, bs: seq<Byte>, base: int, st: PrngState)
    ensures Drawing(gen, bs, base, bs, [], st)
  {
    assert CeilDiv(0, ReseedEvery) == 0;
    assert bs[0..] == bs;
  }

  /** A draw that is not due for a reseed continues the current seed. */
  lemma DrawingContinues(gen: Generator, bs: seq<Byte>, base: int, remaining: seq<Byte>, result: seq<Option<int>>, st: PrngState)
    requires Drawing(gen, bs, base, remaining, result, st) && |result| % ReseedEvery != 0
    ensures var d := Rand(gen, st, 0, base - 1);
      Drawing(gen, bs, base, remaining, result + [d.value], d.state)
  {
    var k := |result|;
    BatchStep(bs, base, k);
    BatchDraw(gen, bs, base, k, st);
    DrawingExtends(gen, bs, base, remaining, result, BaseXDraw(gen, bs, base, k), StateAfterDraw(bs, base, k + 1));
  }

  /** Appending draw k, with the PRNG right after it and the seeds of the
      first k + 1 draws cut off, keeps the loop's invariant. */
  lemma DrawingExtends(gen: Generator, bs: seq<Byte>, base: int, remaining: seq<Byte>, result: seq<Option<int>>, v: Option<int>, st: PrngState)
    requires forall j :: 0 <= j < |result| ==> result[j] == BaseXDraw(gen, bs, base, j)
    requires v == BaseXDraw(gen, bs, base, |result|)
    requires remaining == Drop(bs, SeedBytes * CeilDiv(|result| + 1, ReseedEvery))
    requires st == StateAfterDraw(bs, base, |result| + 1)
    ensures Drawing(gen, bs, base, remaining, result + [v], st)
  {
    BatchAppend(gen, bs, base, result, v);
  }

  /** A draw that is due for a reseed starts from the next seed of the budget. */
  lemma DrawingReseeded(gen: Generator, bs: seq<Byte>, base: int, remaining: seq<Byte>, result: seq<Option<int>>, st: PrngState)
    requires Drawing(gen, bs, base, remaining, result, st) && |result| % ReseedEvery == 0
    ensures var d := Rand(gen, PrngState(Word(remaining, 0, SeedBytes), 0), 0, base - 1);
      Drawing(gen, bs, base, Drop(remaining, SeedBytes), result + [d.value], d.state)
  {
    var k := |result|;
    SeedFromRest(bs, CeilDiv(k, ReseedEvery));
    BatchStep(bs, base, k);
    BatchDraw(gen, bs, base, k, PrngState(Word(remaining, 0, SeedBytes), 0));
    BatchAppend(gen, bs, base, result, BaseXDraw(gen, bs, base, k));
  }

  /** After the last draw, the final reseed leaves the PRNG on the next seed. */
  lemma DrawingFinishes(gen: Generator, bs: seq<Byte>, base: int, amount: int, remaining: seq<Byte>, result: seq<Option<int>>, st: PrngState)
    requires Drawing(gen, bs, base, remaining, result, st) && |result| == Draws(amount)
    ensures Batch(gen, bs, base, amount) == Drawn(result, PrngState(Word(remaining, 0, SeedBytes), 0))
  {
    var n := |result|;
    SeedFromRest(bs, CeilDiv(n, ReseedEvery));
    ValuesInRange(gen, bs, base, n);
    assert result == Values(gen, bs, base, n);
  }

  // ---------------------------------------------------------------------------
  // Keys

  /** $alphabet{$num}: the character at index num, where PHP reads false as
      index 0 and an index past the end of the string as "". */
  function CharAt(alphabet: string, v: Option<int>): (s: string)
    requires v.Some? ==> 0 <= v.value < |alphabet|
    ensures v.Some? ==> s == [alphabet[v.value]]
    ensures |alphabet| == 0 ==> s == ""
  {
    var i := if v.Some? then v.value else 0;
    if i < |alphabet| then [alphabet[i]] else ""
  }

  /** Whether every value of a batch that is a number indexes the alphabet. */
  predicate Indexes(alphabet: string, ns: seq<Option<int>>)
  {
    forall i :: 0 <= i < |ns| && ns[i].Some? ==> 0 <= ns[i].value < |alphabet|
  }

  /** The foreach of getRandomKeyStrong: the characters the values pick,
      concatenated. Numbers pick one character each; over an empty alphabet
      every value is false and picks nothing. */
  function Spell(alphabet: string, ns: seq<Option<int>>): (key: string)
    requires Indexes(alphabet, ns)
    ensures |alphabet| == 0 ==> key == ""
    ensures (forall i :: 0 <= i < |ns| ==> ns[i].Some?) ==>
      |key| == |ns| && forall i :: 0 <= i < |ns| ==> key[i] == alphabet[ns[i].value]
  {
    if |ns| == 0 then ""
    else Spell(alphabet, ns[..|ns| - 1]) + CharAt(alphabet, ns[|ns| - 1])
  }

  lemma SpellSnoc(alphabet: string, ns: seq<Option<int>>, i: nat)
    requires i < |ns| && Indexes(alphabet, ns)
    ensures Indexes(alphabet, ns[..i]) && Indexes(alphabet, ns[..i + 1])
    ensures Spell(alphabet, ns[..i + 1]) == Spell(alphabet, ns[..i]) + CharAt(alphabet, ns[i])
  {
    assert ns[..i + 1][..i] == ns[..i];
  }

  /** getRandomKeyStrong(length) over an alphabet. */
  function RandomKeyStrong(dev: Device, gen: Generator, pool: seq<Byte>, prng: PrngState, alphabet: string, length: int): (r: Run<string>)
    ensures r.result.Failure? <==> !(dev.readable && dev.openable)
    ensures r.result.Success? && |alphabet| > 0 ==> |r.result.value| == Draws(length)
    ensures r.result.Success? ==> forall i :: 0 <= i < |r.result.value| ==> r.result.value[i] in alphabet
    ensures r.result.Success? && |alphabet| == 0 ==> r.result.value == ""
  {
    var b := NumbersBaseX(dev, gen, pool, prng, |alphabet|, length);
    if b.result.Failure? then Run(Failure(b.result.error), b.pool, b.prng)
    else Run(Success(Spell(alphabet, b.result.value)), b.pool, b.prng)
  }

  /** A ten-character alphabet and length 5 give five of its characters,
      whatever the device and the PRNG produce. */
  lemma StrongKeyOverCustomAlphabet(dev: Device, gen: Generator, pool: seq<Byte>, prng: PrngState, alphabet: string)
    requires |alphabet| == 10 && dev.readable && dev.openable
    ensures var r := RandomKeyStrong(dev, gen, pool, prng, alphabet, 5);
      r.result.Success? && |r.result.value| == 5 && forall c :: c in r.result.value ==> c in alphabet
  {
  }

  /** With an empty alphabet every draw is false, so the key is "", yet the
      whole budget is read and the PRNG is left on the final reseed. */
  lemma EmptyAlphabetStrongKey(dev: Device, gen: Generator, pool: seq<Byte>, prng: PrngState, length: int)
    requires dev.readable && dev.openable
    ensures var r := RandomKeyStrong(dev, gen, pool, prng, "", length);
      r.result == Success("") && r.pool == pool[Taken(pool, BytesNeeded(length))..] && r.prng.drawn == 0
  {
  }

  datatype KeyDraw = KeyDraw(key: string, prng: PrngState)

  /** getRandomKey(length): character i is alphabet[mt_rand(0, n - 1)] from
      the PRNG as it stands, without reseeding; over an empty alphabet each
      call returns false, which picks nothing and leaves the PRNG alone. */
  function RandomKey(gen: Generator, prng: PrngState, alphabet: string, length: int): (r: KeyDraw)
    ensures |alphabet| > 0 ==> |r.key| == Draws(length) && r.prng == PrngState(prng.seed, prng.drawn + Draws(length))
    ensures forall i :: 0 <= i < |r.key| ==> r.key[i] in alphabet
    ensures |alphabet| == 0 ==> r.key == "" && r.prng == prng
  {
    if |alphabet| == 0 then KeyDraw("", prng)
    else
      var n := Draws(length);
      var key := seq(n, i requires 0 <= i < n => alphabet[gen(prng.seed, prng.drawn + i, 0, |alphabet| - 1)]);
      KeyDraw(key, PrngState(prng.seed, prng.drawn + n))
  }

  // ---------------------------------------------------------------------------

  class KeyGen {
    var keyCharacters: string
    var numKeyCharacters: int
    /** The random device and the process-wide PRNG the generator draws on. */
    const entropy: EntropyDevice
    const prng: MersenneTwister

    /** The cached alphabet size agrees with the alphabet. */
    ghost predicate Valid()
      reads this
    {
      numKeyCharacters == |keyCharacters|
    }

    constructor (entropy: EntropyDevice, prng: MersenneTwister)
      ensures Valid() && keyCharacters == Base62Chars
      ensures this.entropy == entropy && this.prng == prng
    {
      keyCharacters := Base62Chars;
      numKeyCharacters := 62;
      this.entropy, this.prng := entropy, prng;
    }

    method SetBase62Chars()
      modifies this
      ensures Valid() && keyCharacters == Base62Chars && numKeyCharacters == 62
    {
      keyCharacters := Base62Chars;
      numKeyCharacters := 62;
    }

    method SetBase64Chars()
      modifies this
      ensures Valid() && keyCharacters == Base64Chars && numKeyCharacters == 64
    {
      keyCharacters := Base64Chars;
      numKeyCharacters := 64;
    }

    method SetKeyCharacters(chars: string)
      modifies this
      ensures Valid() && keyCharacters == chars
    {
      keyCharacters := chars;
      numKeyCharacters := |chars|;
    }

    /** The current alphabet (the argument is ignored). */
    method GetKeyCharacters(chars: string) returns (r: string)
      ensures r == keyCharacters
    {
      r := keyCharacters;
    }

    method GetRandomBytes(length: int := 1) returns (r: Result<seq<Byte>>)
      modifies entropy
      ensures Reading(r, entropy.pool) == RandomBytes(entropy.Status(), old(entropy.pool), length)
    {
      if !entropy.readable {
        return Failure(EntropyNotReadable);
      }
      if !entropy.openable {
        return Failure(EntropyOpenFailed);
      }
      var bytes := entropy.Fread(length);
      r := Success(bytes);
    }

    /** The loop that sizes the draws: bits, bytes and mask of a range. */
    static method RangeParameters(range: nat) returns (bits: nat, bytes: nat, mask: nat)
      ensures bits == BitLength(range) && bytes == ByteCount(range) && mask == Mask(range)
    {
      bits, bytes, mask := 0, 0, 0;
      var r := range;
      while r > 0
        invariant bits + BitLength(r) == BitLength(range)
        invariant bytes == (bits + 7) / 8
        invariant mask == Pow2(bits) - 1
      {
        ByteCountStep(bits);
        RangeStep(r, bits);
        if bits % 8 == 0 {
          bytes := bytes + 1;
        }
        bits := bits + 1;
        r := r / 2;            // $range >>= 1
        mask := mask * 2 + 1;  // $mask << 1 | 1
      }
    }

    method GetRandomNumber(min: int, max: int) returns (r: Result<int>, ghost candidates: seq<int>)
      modifies entropy
      ensures Sample(r, entropy.pool, candidates) == RandomNumber(entropy.Status(), old(entropy.pool), min, max)
    {
      candidates := [];
      if min > max {
        return Failure(MinAboveMax), candidates;
      }
      if max == min {
        return Success(min), candidates;
      }
      var range := max - min;
      var bits, bytes, mask := RangeParameters(range);
      RandomNumberStartsRejection(entropy.Status(), entropy.pool, min, max, bytes, mask);
      r, candidates := DrawUntilInRange(min, max, bytes, mask);
    }

    /** The do-while loop of getRandomNumber: draw `bytes` bytes, assemble,
        mask and shift them, until the candidate is at most max or
        MaxAttempts + 1 draws were rejected. */
    method DrawUntilInRange(min: int, max: int, bytes: nat, mask: nat) returns (r: Result<int>, ghost candidates: seq<int>)
      modifies entropy
      ensures Sample(r, entropy.pool, candidates) == Rejection(entropy.Status(), old(entropy.pool), min, max, bytes, mask, 0)
    {
      candidates := [];
      var valueShift := min;
      var attempts := 0;
      ghost var dev := entropy.Status();
      ghost var whole := Rejection(dev, entropy.pool, min, max, bytes, mask, 0);
      while true
        invariant attempts <= MaxAttempts + 1
        invariant Continues(whole, candidates, Rejection(dev, entropy.pool, min, max, bytes, mask, attempts))
        decreases MaxAttempts + 1 - attempts
      {
        if attempts > MaxAttempts {
          RejectionGivesUp(dev, entropy.pool, min, max, bytes, mask, attempts);
          assert candidates + [] == candidates;
          return Failure(RngBroken), candidates;
        }
        ghost var before := entropy.pool;
        var shifted := DrawCandidate(bytes, mask, valueShift);
        ghost var read := RandomBytes(dev, before, bytes);
        if shifted.Failure? {
          RejectionDeviceFails(dev, before, min, max, bytes, mask, attempts);
          assert candidates + [] == candidates;
          return Failure(shifted.error), candidates;
        }
        RejectionAttempt(dev, before, min, max, bytes, mask, attempts, read.result.value, entropy.pool);
        ghost var step := Rejection(dev, before, min, max, bytes, mask, attempts);
        attempts := attempts + 1;
        ghost var earlier := candidates;
        candidates := candidates + [shifted.value];
        if min <= shifted.value <= max {
          ContinuesAccepted(whole, earlier, step, shifted.value, entropy.pool);
          return shifted, candidates;
        }
        ContinuesThrough(whole, earlier, step, [shifted.value], Rejection(dev, entropy.pool, min, max, bytes, mask, attempts));
      }
    }

    /** One pass of the do-while body: read `bytes` bytes, assemble them
        little-endian, mask the value and shift it by valueShift. */
    method DrawCandidate(bytes: nat, mask: nat, valueShift: int) returns (r: Result<int>)
      modifies entropy
      ensures var read := RandomBytes(entropy.Status(), old(entropy.pool), bytes);
        && entropy.pool == read.rest
        && (r.Success? <==> read.result.Success?)
        && (r.Failure? ==> r.error == read.result.error)
        && (r.Success? ==> r.value == Candidate(read.result.value, bytes, mask, valueShift))
    {
      var randomByteString := GetRandomBytes(bytes);
      if randomByteString.Failure? {
        return Failure(randomByteString.error);
      }
      var val := AssembleLittleEndian(randomByteString.value, bytes);
      val := BitAnd(val, mask);
      r := Success(val + valueShift);
    }

    /** One reseed of getRandomNumbersBaseX: the next four bytes, assembled
        little-endian, seed the PRNG; the rest is kept for the next reseed. */
    method Reseed(remaining: seq<Byte>) returns (rest: seq<Byte>)
      modifies prng
      ensures prng.State() == PrngState(Word(remaining, 0, SeedBytes), 0)
      ensures prng.State().seed == ByteAt(remaining, 0) as int + 256 * (ByteAt(remaining, 1) as int)
        + 65536 * (ByteAt(remaining, 2) as int) + 16777216 * (ByteAt(remaining, 3) as int)
      ensures rest == Drop(remaining, SeedBytes)
    {
      WordOfFour(remaining, 0);
      var binarySubstr := if SeedBytes <= |remaining| then remaining[..SeedBytes] else remaining;
      rest := Drop(remaining, SeedBytes);
      PrefixWord(remaining);
      var decimal := AssembleLittleEndian(binarySubstr, SeedBytes);
      prng.Srand(decimal);
    }

    method GetRandomNumbersBaseX(base: int, amount: int) returns (r: Result<seq<Option<int>>>)
      modifies entropy, prng
      ensures Run(r, entropy.pool, prng.State()) == NumbersBaseX(entropy.Status(), prng.gen, old(entropy.pool), old(prng.State()), base, amount)
    {
      var bytesNeeded := BytesNeeded(amount);
      var binaryString := GetRandomBytes(bytesNeeded);
      if binaryString.Failure? {
        return Failure(binaryString.error);
      }
      var numbers := DrawBatch(binaryString.value, base, amount);
      r := Success(numbers);
    }

    /** The loop of getRandomNumbersBaseX: reseed before every 30th draw and
        once more at the end, each time with the next four bytes. */
    method DrawBatch(bs: seq<Byte>, base: int, amount: int) returns (r: seq<Option<int>>)
      modifies prng
      ensures Drawn(r, prng.State()) == Batch(prng.gen, bs, base, amount)
    {
      ghost var n := Draws(amount);
      var remaining := bs;
      var result: seq<Option<int>> := [];
      var resultCount := 0;
      var last := false;
      DrawingStart(prng.gen, bs, base, prng.State());
      while !last
        invariant resultCount == |result| <= n
        invariant !last ==> Drawing(prng.gen, bs, base, remaining, result, prng.State())
        invariant last ==> Drawn(result, prng.State()) == Batch(prng.gen, bs, base, amount)
        decreases n - resultCount + (if last then 0 else 1)
      {
        if !(resultCount < amount) {
          last := true;
        }
        if resultCount % ReseedEvery == 0 || last {
          if last {
            DrawingFinishes(prng.gen, bs, base, amount, remaining, result, prng.State());
          } else {
            DrawingReseeded(prng.gen, bs, base, remaining, result, prng.State());
          }
          remaining := Reseed(remaining);
          if last {
            continue;
          }
        } else {
          DrawingContinues(prng.gen, bs, base, remaining, result, prng.State());
        }
        var randNum := prng.MtRand(0, base - 1);
        result := result + [randNum];
        resultCount := resultCount + 1;
      }
      r := result;
    }

    method GetRandomKeyStrong(length: int := 40) returns (r: Result<string>)
      requires Valid()
      modifies entropy, prng
      ensures Run(r, entropy.pool, prng.State())
           == RandomKeyStrong(entropy.Status(), prng.gen, old(entropy.pool), old(prng.State()), keyCharacters, length)
    {
      ghost var b := NumbersBaseX(entropy.Status(), prng.gen, entropy.pool, prng.State(), |keyCharacters|, length);
      var numbers := GetRandomNumbersBaseX(numKeyCharacters, length);
      assert Run(numbers, entropy.pool, prng.State()) == b;
      if numbers.Failure? {
        return Failure(numbers.error);
      }
      ghost var pool, state := entropy.pool, prng.State();
      assert Indexes(keyCharacters, numbers.value);
      var key := "";
      for i := 0 to |numbers.value|
        invariant Indexes(keyCharacters, numbers.value[..i])
        invariant key == Spell(keyCharacters, numbers.value[..i])
        invariant entropy.pool == pool && prng.State() == state
      {
        SpellSnoc(keyCharacters, numbers.value, i);
        key := key + CharAt(keyCharacters, numbers.value[i]);
      }
      assert numbers.value[..|numbers.value|] == numbers.value;
      r := Success(key);
    }

    method GetRandomKey(length: int := 40) returns (r: string)
      requires Valid()
      modifies prng
      ensures KeyDraw(r, prng.State()) == RandomKey(prng.gen, old(prng.State()), keyCharacters, length)
    {
      ghost var start := prng.State();
      var key := "";
      var i := 0;
      while i < length
        invariant 0 <= i <= Draws(length)
        invariant |keyCharacters| == 0 ==> prng.State() == start && key == ""
        invariant |keyCharacters| > 0 ==> prng.State() == PrngState(start.seed, start.drawn + i) && |key| == i
        invariant |keyCharacters| > 0 ==>
          forall j :: 0 <= j < i ==> key[j] == keyCharacters[prng.gen(start.seed, start.drawn + j, 0, |keyCharacters| - 1)]
      {
        var num := prng.MtRand(0, numKeyCharacters - 1);
        key := key + CharAt(keyCharacters, num);
        i := i + 1;
      }
      ghost var spec := RandomKey(prng.gen, start, keyCharacters, length);
      if |keyCharacters| > 0 {
        assert |spec.key| == |key|;
        assert forall j :: 0 <= j < |key| ==> key[j] == spec.key[j];
        assert key == spec.key;
      }
      r := key;
    }
  }
}
