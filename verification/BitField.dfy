/** The MPEG-4 bit reader. */
module BitField {

  import opened Words

  function Pow2(n: nat): (p: nat)
    ensures p > 0
  {
    if n == 0 then 1 else 2 * Pow2(n - 1)
  }

  /** Bit `k` of the data, most significant bit of each byte first. */
  function Bit(d: seq<Byte>, k: nat): nat
    requires k < 8 * |d|
  {
    d[k / 8] / Pow2(7 - k % 8) % 2
  }

  /** Big-endian value of the `n` bits at `off`. */
  function Value(d: seq<Byte>, off: nat, n: nat): nat
    requires off + n <= 8 * |d|
  {
    if n == 0 then 0 else 2 * Value(d, off, n - 1) + Bit(d, off + n - 1)
  }

  /** Reading `a` bits and then `b` bits is reading `a + b` bits. */
  lemma {:induction false} ValueSplit(d: seq<Byte>, off: nat, a: nat, b: nat)
    requires off + a + b <= 8 * |d|
    ensures Value(d, off, a + b) == Value(d, off, a) * Pow2(b) + Value(d, off + a, b)
    decreases b
  {
    if b > 0 {
      ValueSplit(d, off, a, b - 1);
      var v, w, bit := Value(d, off, a), Value(d, off + a, b - 1), Bit(d, off + a + (b - 1));
      assert Value(d, off, a + b) == 2 * Value(d, off, a + (b - 1)) + bit;
      assert Value(d, off + a, b) == 2 * w + bit;
      OneMoreBit(v, Pow2(b - 1), w, bit);
    }
  }

  lemma OneMoreBit(v: nat, p: nat, w: nat, bit: nat)
    ensures 2 * (v * p + w) + bit == v * (2 * p) + (2 * w + bit)
  {
  }

  lemma {:induction false} ValueBound(d: seq<Byte>, off: nat, n: nat)
    requires off + n <= 8 * |d|
    ensures Value(d, off, n) < Pow2(n)
  {
    if n > 0 {
      ValueBound(d, off, n - 1);
    }
  }

  /** The value has exactly the bits read, the first one on top. */
  lemma {:induction false} ValueBits(d: seq<Byte>, off: nat, n: nat, j: nat)
    requires off + n <= 8 * |d| && j < n
    ensures Value(d, off, n) / Pow2(n - 1 - j) % 2 == Bit(d, off + j)
    decreases n
  {
    var v, b := Value(d, off, n - 1), Bit(d, off + n - 1);
    if j == n - 1 {
      LastBit(v, b);
    } else {
      ValueBits(d, off, n - 1, j);
      assert Pow2(n - 1 - j) == 2 * Pow2(n - 2 - j);
      DropLast(v, b, Pow2(n - 2 - j));
    }
  }

  lemma LastBit(v: nat, b: nat)
    requires b < 2
    ensures (2 * v + b) / Pow2(0) % 2 == b
  {
  }

  lemma DropLast(v: nat, b: nat, p: nat)
    requires b < 2 && p > 0
    ensures (2 * v + b) / (2 * p) == v / p
  {
    assert 2 * v / 2 == v;
    HalfFirst(2 * v + b, p);
  }

  lemma HalfFirst(x: nat, p: nat)
    requires p > 0
    ensures x / (2 * p) == x / 2 / p
  {
    var q, r := x / 2 / p, x / 2 % p;
    assert x / 2 == q * p + r;
    assert q * (2 * p) == 2 * (q * p);
    DivIs(x, 2 * p, q, 2 * r + x % 2);
  }

  lemma DivTwice(x: nat, p: nat)
    requires p > 0
    ensures x / (2 * p) == x / p / 2
  {
    var q, r := x / p, x % p;
    var h, b := q / 2, q % 2;
    assert x == q * p + r && q == 2 * h + b;
    assert q * p == h * (2 * p) + b * p by { Distribute(h, b, p); }
    assert b * p <= p;
    DivIs(x, 2 * p, h, b * p + r);
  }

  lemma Distribute(h: nat, b: nat, p: nat)
    ensures (2 * h + b) * p == h * (2 * p) + b * p
  {
  }

  lemma DivIs(n: nat, d: nat, q: nat, r: nat)
    requires d > 0 && n == q * d + r && r < d
    ensures n / d == q
  {
    var e, f := n / d, n % d;
    assert n == e * d + f;
    if e > q {
      Apart(q, e, d);
    } else if q > e {
      Apart(e, q, d);
    }
  }

  lemma Apart(a: nat, b: nat, d: nat)
    requires a < b && d > 0
    ensures b * d >= a * d + d
  {
    var k := b - a - 1;
    assert b * d == a * d + d + k * d;
  }

  /** The first bits of a byte are its quotient by a power of two. */
  lemma {:induction false} ValueInByte(d: seq<Byte>, i: nat, n: nat)
    requires i < |d| && n <= 8
    ensures Value(d, 8 * i, n) == d[i] / Pow2(8 - n)
  {
    if n == 0 {
      assert Pow2(8) == 256 by { Powers(); }
    } else {
      ValueInByte(d, i, n - 1);
      assert (8 * i + n - 1) / 8 == i && (8 * i + n - 1) % 8 == n - 1;
      assert Pow2(9 - n) == 2 * Pow2(8 - n);
      DivTwice(d[i], Pow2(8 - n));
    }
  }

  /** A whole byte is its eight bits. */
  lemma ValueOfByte(d: seq<Byte>, i: nat)
    requires i < |d|
    ensures Value(d, 8 * i, 8) == d[i]
  {
    ValueInByte(d, i, 8);
  }

  lemma Powers()
    ensures Pow2(0) == 1 && Pow2(4) == 16 && Pow2(8) == 256
  {
  }

  /** The C conversion of a 32-bit unsigned word to `int`. */
  function AsInt(v: nat): int
    requires v < WORD
  {
    if v < WORD / 2 then v else v - WORD
  }

  /** The `int` differs from the number by a multiple of 2^32. */
  lemma AsIntIs(n: nat)
    ensures var r := AsInt(n % WORD); -0x8000_0000 <= r < 0x8000_0000 && (r - n) % 0x1_0000_0000 == 0
  {
  }

  lemma ShiftByOne(a: nat, b: nat)
    requires b < 2
    ensures (a % WORD * 2) % WORD + b == (2 * a + b) % WORD
  {
  }

  lemma ShiftByEight(a: nat, x: nat)
    requires x < 256
    ensures (a % WORD * 256) % WORD + x == (256 * a + x) % WORD
  {
  }

  lemma NextBit(d: seq<Byte>, off: nat, i: nat)
    requires off + i + 1 <= 8 * |d|
    ensures (Value(d, off, i) % WORD * 2) % WORD + Bit(d, off + i) == Value(d, off, i + 1) % WORD
  {
    ShiftByOne(Value(d, off, i), Bit(d, off + i));
  }

  lemma NextByte(d: seq<Byte>, off: nat, i: nat)
    requires off + i + 8 <= 8 * |d| && (off + i) % 8 == 0
    ensures (Value(d, off, i) % WORD * 256) % WORD + d[(off + i) / 8] == Value(d, off, i + 8) % WORD
  {
    ValueOfByte(d, (off + i) / 8);
    ValueSplit(d, off, i, 8);
    Powers();
    ShiftByEight(Value(d, off, i), d[(off + i) / 8]);
  }

  /** `get_field`: whole bytes where the offset allows it, single bits elsewhere. */
  method GetField(d: seq<Byte>, bits: nat, offset: nat) returns (r: int, next: nat)
    requires offset + bits <= 8 * |d| && offset + bits < WORD
    ensures next == offset + bits && r == AsInt(Value(d, offset, bits) % WORD)
    ensures -0x8000_0000 <= r < 0x8000_0000 && (r - Value(d, offset, bits)) % 0x1_0000_0000 == 0
  {
    var v, i := 0, 0;
    next := offset;
    while i < bits
      invariant 0 <= i <= bits && next == offset + i
      invariant v == Value(d, offset, i) % WORD
    {
      if bits - i >= 8 && next % 8 == 0 {
        NextByte(d, offset, i);
        v := v * 256 % WORD + d[next / 8];
        i, next := i + 8, next + 8;
      } else {
        NextBit(d, offset, i);
        v := v * 2 % WORD + Bit(d, next);
        i, next := i + 1, next + 1;
      }
    }
    r := AsInt(v);
    AsIntIs(Value(d, offset, bits));
  }

  /** The result is the value of the field exactly if that fits a positive `int`. */
  lemma FieldExact(d: seq<Byte>, off: nat, n: nat)
    requires off + n <= 8 * |d|
    ensures AsInt(Value(d, off, n) % WORD) == Value(d, off, n) <==> Value(d, off, n) < WORD / 2
  {
  }

  /**
   Up to 32 bits the unsigned word is exact; it is negative as an `int` iff all 32 bits are read and
   the first is set.
   */
  lemma FieldWord(d: seq<Byte>, off: nat, n: nat)
    requires off + n <= 8 * |d| && n <= 32
    ensures Value(d, off, n) < WORD
    ensures AsInt(Value(d, off, n)) < 0 <==> n == 32 && Bit(d, off) == 1
  {
    ValueBound(d, off, n);
    Pow2Grows(n, 32);
    assert Pow2(31) == WORD / 2 && Pow2(32) == WORD by { BigPowers(); }
    if n == 32 {
      ValueBits(d, off, 32, 0);
    } else {
      Pow2Grows(n, 31);
    }
  }

  lemma BigPowers()
    ensures Pow2(31) == WORD / 2 && Pow2(32) == WORD
  {
    Powers();
    assert Pow2(12) == 4096;
    assert Pow2(16) == 0x1_0000;
    assert Pow2(20) == 0x10_0000;
    assert Pow2(24) == 0x100_0000;
    assert Pow2(28) == 0x1000_0000;
  }

  lemma {:induction false} Pow2Grows(a: nat, b: nat)
    requires a <= b
    ensures Pow2(a) <= Pow2(b)
    decreases b
  {
    if a < b {
      Pow2Grows(a, b - 1);
    }
  }
}
