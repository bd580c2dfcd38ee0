/** Unsigned integers and the bit operations the key generator performs on
    them: `&`, `|`, shifts, bit lengths and little-endian byte assembly. */
module Bits {

  type Byte = b: int | 0 <= b < 256

  function Pow2(n: nat): (r: nat)
    ensures r >= 1
  {
    if n == 0 then 1 else 2 * Pow2(n - 1)
  }

  /** Number of binary digits of n; 0 has none. */
  function BitLength(n: nat): nat
  {
    if n == 0 then 0 else 1 + BitLength(n / 2)
  }

  /** 2^(bitlength n - 1) <= n < 2^(bitlength n): the bit length is the
      least b with n < 2^b. */
  lemma {:induction false} BitLengthBounds(n: nat)
    ensures n < Pow2(BitLength(n))
    ensures n > 0 ==> Pow2(BitLength(n) - 1) <= n
  {
    if n > 0 {
      BitLengthBounds(n / 2);
    }
  }

  /** `x & y` on non-negative integers, bit by bit from the lowest. */
  function BitAnd(x: nat, y: nat): nat
    decreases x
  {
    if x == 0 || y == 0 then 0
    else 2 * BitAnd(x / 2, y / 2) + (if x % 2 == 1 && y % 2 == 1 then 1 else 0)
  }

  /** `x | y` on non-negative integers, bit by bit from the lowest. */
  function BitOr(x: nat, y: nat): nat
    decreases x + y
  {
    if x == 0 then y
    else if y == 0 then x
    else 2 * BitOr(x / 2, y / 2) + (if x % 2 == 1 || y % 2 == 1 then 1 else 0)
  }

  lemma ModOfDouble(x: nat, m: nat)
    requires m >= 1
    ensures x % (2 * m) == 2 * ((x / 2) % m) + x % 2
  {
    var q, s := (x / 2) / m, (x / 2) % m;
    assert x == (2 * m) * q + (2 * s + x % 2);
    DivModUnique(x, 2 * m, q, 2 * s + x % 2);
  }

  lemma DivModUnique(x: int, n: int, q: int, r: int)
    requires n > 0 && 0 <= r < n && x == n * q + r
    ensures x / n == q && x % n == r
  {
    var q', r' := x / n, x % n;
    assert n * (q - q') == r' - r by {
      assert n * (q - q') == n * q - n * q';
    }
    if q - q' >= 1 {
      MulAtLeast(n, q - q');
    } else if q' - q >= 1 {
      MulAtLeast(n, q' - q);
    }
  }

  lemma MulAtLeast(n: int, d: int)
    requires n > 0 && d >= 1
    ensures n * d >= n
  {
    if d > 1 {
      MulAtLeast(n, d - 1);
      assert n * d == n * (d - 1) + n;
    }
  }

  /** Masking with the all-ones value 2^b - 1 keeps exactly the b low bits. */
  lemma {:induction false} BitAndLowMask(x: nat, b: nat)
    ensures BitAnd(x, Pow2(b) - 1) == x % Pow2(b)
  {
    if b == 0 {
      assert Pow2(b) - 1 == 0;
    } else if x == 0 {
      assert BitAnd(x, Pow2(b) - 1) == 0;
    } else {
      var m := Pow2(b - 1);
      BitAndLowMask(x / 2, b - 1);
      LowMaskStep(x, m);
      assert Pow2(b) == 2 * m;
    }
  }

  /** One bit of BitAndLowMask: if masking x / 2 with m - 1 keeps it modulo
      m, masking x with 2m - 1 keeps it modulo 2m. */
  lemma LowMaskStep(x: nat, m: nat)
    requires x > 0 && m >= 1
    requires BitAnd(x / 2, m - 1) == (x / 2) % m
    ensures BitAnd(x, 2 * m - 1) == x % (2 * m)
  {
    HalveOddMask(m);
    BitAndStep(x, 2 * m - 1);
    ModOfDouble(x, m);
  }

  lemma HalveOddMask(m: nat)
    requires m >= 1
    ensures (2 * m - 1) / 2 == m - 1 && (2 * m - 1) % 2 == 1
  {
  }

  lemma BitAndStep(x: nat, y: nat)
    requires x > 0 && y > 0 && y % 2 == 1
    ensures BitAnd(x, y) == 2 * BitAnd(x / 2, y / 2) + x % 2
  {
  }

  /** OR-ing y shifted left by k onto a value below 2^k adds the two:
      the bits do not overlap. */
  lemma {:induction false} BitOrShifted(x: nat, y: nat, k: nat)
    requires x < Pow2(k)
    ensures BitOr(x, y * Pow2(k)) == x + y * Pow2(k)
  {
    if k > 0 && x > 0 && y > 0 {
      assert y * Pow2(k) == 2 * (y * Pow2(k - 1));
      BitOrShifted(x / 2, y, k - 1);
    }
  }

  /** `x & 2^k` is either 0 or 2^k, according to bit k of x. */
  lemma {:induction false} BitAndPowerOfTwo(k: nat, x: nat)
    ensures BitAnd(Pow2(k), x) == Pow2(k) * ((x / Pow2(k)) % 2)
  {
    if k > 0 && x > 0 {
      var p, h := Pow2(k), Pow2(k - 1);
      assert p == 2 * h && p / 2 == h && p % 2 == 0;
      assert BitAnd(p, x) == 2 * BitAnd(h, x / 2);
      assert BitAnd(h, x / 2) == h * (((x / 2) / h) % 2) by {
        BitAndPowerOfTwo(k - 1, x / 2);
      }
      assert x / p == (x / 2) / h by {
        DivDiv(x, 2, h);
      }
    } else if k == 0 {
      assert Pow2(k) == 1 && x / 1 == x;
      assert BitAnd(1, x) == x % 2;
    } else {
      assert 0 / Pow2(k) == 0;
    }
  }

  lemma DivDiv(x: nat, a: nat, b: nat)
    requires a > 0 && b > 0
    ensures x / (a * b) == (x / a) / b
  {
    var q, r := (x / a) / b, (x / a) % b;
    assert x == (a * b) * q + (a * r + x % a);
    assert a * r + x % a < a * b by {
      assert a * r <= a * (b - 1);
    }
    DivModUnique(x, a * b, q, a * r + x % a);
  }

  /** Byte i of bs, or 0 past its end: PHP's ord() of a missing string
      offset is ord(""), which is 0. */
  function ByteAt(bs: seq<Byte>, i: nat): Byte
  {
    if i < |bs| then bs[i] else 0
  }

  /** The unsigned little-endian value of the n bytes of bs from offset on,
      byte i weighing 256^i; missing bytes read as 0. */
  function Word(bs: seq<Byte>, offset: nat, n: nat): nat
    decreases n
  {
    if n == 0 then 0 else ByteAt(bs, offset) as int + 256 * Word(bs, offset + 1, n - 1)
  }

  lemma {:induction false} WordBound(bs: seq<Byte>, offset: nat, n: nat)
    ensures Word(bs, offset, n) < Pow2(8 * n)
    decreases n
  {
    if n > 0 {
      var p, w := Pow2(8 * (n - 1)), Word(bs, offset + 1, n - 1);
      WordBound(bs, offset + 1, n - 1);
      Pow2Of8Steps(n);
      assert 256 * w <= 256 * (p - 1);
    }
  }

  lemma Pow2Of8Steps(n: nat)
    requires n > 0
    ensures Pow2(8 * n) == 256 * Pow2(8 * (n - 1))
  {
    var m := 8 * (n - 1);
    assert 8 * n == m + 8;
    Pow2Eight(m);
  }

  /** Eight doublings multiply by 256. */
  lemma Pow2Eight(m: nat)
    ensures Pow2(m + 8) == 256 * Pow2(m)
  {
    assert Pow2(m + 8) == 2 * Pow2(m + 7);
    assert Pow2(m + 7) == 2 * Pow2(m + 6);
    assert Pow2(m + 6) == 2 * Pow2(m + 5);
    assert Pow2(m + 5) == 2 * Pow2(m + 4);
    assert Pow2(m + 4) == 2 * Pow2(m + 3);
    assert Pow2(m + 3) == 2 * Pow2(m + 2);
    assert Pow2(m + 2) == 2 * Pow2(m + 1);
  }

  /** Appending byte n adds it at weight 256^n. */
  lemma {:induction false} WordSnoc(bs: seq<Byte>, offset: nat, n: nat)
    ensures Word(bs, offset, n + 1) == Word(bs, offset, n) + (ByteAt(bs, offset + n) as int) * Pow2(8 * n)
    decreases n
  {
    if n > 0 {
      var p, top := Pow2(8 * (n - 1)), ByteAt(bs, offset + n) as int;
      WordSnoc(bs, offset + 1, n - 1);
      Pow2Of8Steps(n);
      ScaleProduct(top, p, 256);
    }
  }

  lemma ScaleProduct(a: int, b: int, c: int)
    ensures a * (c * b) == c * (a * b)
  {
  }

  /** The value depends only on the bytes it covers. */
  lemma {:induction false} WordOfSameBytes(bs: seq<Byte>, cs: seq<Byte>, start: nat, n: nat)
    requires forall i :: 0 <= i < n ==> ByteAt(bs, i) == ByteAt(cs, start + i)
    ensures Word(bs, 0, n) == Word(cs, start, n)
  {
    if n > 0 {
      WordOfSameBytes(bs, cs, start, n - 1);
      WordSnoc(bs, 0, n - 1);
      WordSnoc(cs, start, n - 1);
      assert ByteAt(bs, n - 1) == ByteAt(cs, start + (n - 1));
    }
  }

  /** Four bytes b0 b1 b2 b3 make b0 + 256 b1 + 65536 b2 + 16777216 b3. */
  lemma WordOfFour(bs: seq<Byte>, offset: nat)
    ensures Word(bs, offset, 4) == ByteAt(bs, offset) as int + 256 * (ByteAt(bs, offset + 1) as int)
      + 65536 * (ByteAt(bs, offset + 2) as int) + 16777216 * (ByteAt(bs, offset + 3) as int)
  {
    assert Word(bs, offset + 3, 1) == ByteAt(bs, offset + 3) as int;
    assert Word(bs, offset + 2, 2) == ByteAt(bs, offset + 2) as int + 256 * (ByteAt(bs, offset + 3) as int);
  }

  /** One step of the assembly loop: OR-ing byte i in at bit 8i extends the
      value of the first i bytes to the first i + 1. */
  lemma AssembleStep(bs: seq<Byte>, i: nat)
    ensures BitOr(Word(bs, 0, i), (ByteAt(bs, i) as int) * Pow2(8 * i)) == Word(bs, 0, i + 1)
  {
    WordBound(bs, 0, i);
    BitOrShifted(Word(bs, 0, i), ByteAt(bs, i), 8 * i);
    WordSnoc(bs, 0, i);
  }

  /** The byte-assembly loop `val |= ord(bs[i]) << (i*8)` for i < n; a
      missing byte contributes ord("") = 0. */
  method AssembleLittleEndian(bs: seq<Byte>, n: nat) returns (val: nat)
    ensures val == Word(bs, 0, n)
    ensures val < Pow2(8 * n)
  {
    val := 0;
    var i := 0;
    while i < n
      invariant 0 <= i <= n
      invariant val == Word(bs, 0, i)
    {
      AssembleStep(bs, i);
      val := BitOr(val, (ByteAt(bs, i) as int) * Pow2(8 * i));
      i := i + 1;
    }
    WordBound(bs, 0, n);
  }
}
