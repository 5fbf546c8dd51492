/** Machine words as bounded integers: bitwise operations bit by bit, and little-endian bytes. */
module Words {

  const TWO32: nat := 0x1_0000_0000
  const TWO64: nat := 0x1_0000_0000_0000_0000

  type byte = b: int | 0 <= b < 0x100
  type u32 = x: int | 0 <= x < 0x1_0000_0000
  type u64 = x: int | 0 <= x < 0x1_0000_0000_0000_0000
  type i32 = x: int | -0x8000_0000 <= x < 0x8000_0000
  type i64 = x: int | -0x8000_0000_0000_0000 <= x < 0x8000_0000_0000_0000

  function Pow2(n: nat): (p: nat)
    ensures p > 0
  {
    if n == 0 then 1 else 2 * Pow2(n - 1)
  }

  // ---------------------------------------------------------------- bitwise operations on n-bit words

  function Xor(a: nat, b: nat, n: nat): (r: nat)
    ensures r < Pow2(n)
  {
    if n == 0 then 0 else (a % 2 + b % 2) % 2 + 2 * Xor(a / 2, b / 2, n - 1)
  }

  function And(a: nat, b: nat, n: nat): (r: nat)
    ensures r < Pow2(n)
  {
    if n == 0 then 0 else (a % 2) * (b % 2) + 2 * And(a / 2, b / 2, n - 1)
  }

  function Not(a: nat, n: nat): (r: nat)
    ensures r < Pow2(n)
  {
    if n == 0 then 0 else 1 - a % 2 + 2 * Not(a / 2, n - 1)
  }

  lemma {:induction false} XorCancels(a: nat, b: nat, n: nat)
    requires a < Pow2(n)
    ensures Xor(Xor(a, b, n), b, n) == a
  {
    if n > 0 {
      XorCancels(a / 2, b / 2, n - 1);
      CancelLowBit(a, b, n, Xor(a / 2, b / 2, n - 1));
    }
  }

  lemma CancelLowBit(a: nat, b: nat, n: nat, rest: nat)
    requires n > 0 && rest == Xor(a / 2, b / 2, n - 1) && Xor(rest, b / 2, n - 1) == a / 2
    ensures Xor(Xor(a, b, n), b, n) == a
  {
    XorStep((a % 2 + b % 2) % 2, rest, b, n);
    FlipTwice(a % 2, b % 2);
  }

  lemma XorStep(bit: nat, rest: nat, b: nat, n: nat)
    requires n > 0 && bit < 2
    ensures Xor(bit + 2 * rest, b, n) == (bit + b % 2) % 2 + 2 * Xor(rest, b / 2, n - 1)
  {
    LowBit(bit, rest);
  }

  lemma FlipTwice(p: nat, q: nat)
    requires p < 2 && q < 2
    ensures ((p + q) % 2 + q) % 2 == p
  {
  }

  lemma LowBit(bit: nat, rest: nat)
    requires bit < 2
    ensures (bit + 2 * rest) % 2 == bit && (bit + 2 * rest) / 2 == rest
  {
  }

  lemma {:induction false} XorCommutes(a: nat, b: nat, n: nat)
    ensures Xor(a, b, n) == Xor(b, a, n)
  {
    if n > 0 { XorCommutes(a / 2, b / 2, n - 1); }
  }

  /** XOR with a fixed word loses nothing, on either side. */
  lemma XorInjective(a: nat, a': nat, b: nat, b': nat, n: nat)
    requires a < Pow2(n) && a' < Pow2(n) && b < Pow2(n) && b' < Pow2(n)
    requires Xor(a, b, n) == Xor(a', b', n)
    requires a == a' || b == b'
    ensures a == a' && b == b'
  {
    if b == b' {
      XorCancels(a, b, n);
      XorCancels(a', b, n);
    } else {
      XorCommutes(a, b, n);
      XorCommutes(a, b', n);
      XorCancels(b, a, n);
      XorCancels(b', a, n);
    }
  }

  lemma {:induction false} XorWithZero(a: nat, n: nat)
    requires a < Pow2(n)
    ensures Xor(a, 0, n) == a
  {
    if n > 0 { XorWithZero(a / 2, n - 1); }
  }

  /** Bit `k` of a word. */
  function Bit(x: nat, k: nat): (b: nat)
    ensures b < 2
  {
    if k == 0 then x % 2 else Bit(x / 2, k - 1)
  }

  lemma {:induction false} XorIsBitwise(a: nat, b: nat, n: nat, k: nat)
    requires k < n
    ensures Bit(Xor(a, b, n), k) == (Bit(a, k) + Bit(b, k)) % 2
  {
    LowBit((a % 2 + b % 2) % 2, Xor(a / 2, b / 2, n - 1));
    if k > 0 { XorIsBitwise(a / 2, b / 2, n - 1, k - 1); }
  }

  lemma {:induction false} AndIsBitwise(a: nat, b: nat, n: nat, k: nat)
    requires k < n
    ensures Bit(And(a, b, n), k) == if Bit(a, k) == 1 && Bit(b, k) == 1 then 1 else 0
  {
    LowBit((a % 2) * (b % 2), And(a / 2, b / 2, n - 1));
    if k > 0 { AndIsBitwise(a / 2, b / 2, n - 1, k - 1); }
  }

  /** A short operand touches only the low bits. */
  lemma {:induction false} XorTouchesLowBits(a: nat, b: nat, n: nat, k: nat)
    requires k <= n && a < Pow2(n) && b < Pow2(k)
    ensures Xor(a, b, n) == a - a % Pow2(k) + Xor(a % Pow2(k), b, k)
  {
    if k == 0 {
      XorWithZero(a, n);
    } else {
      var m := (a / 2) % Pow2(k - 1);
      XorTouchesLowBits(a / 2, b / 2, n - 1, k - 1);
      LowBitsOf(a, k, m);
      TouchLowBit(a, b, n, k, m);
    }
  }

  lemma TouchLowBit(a: nat, b: nat, n: nat, k: nat, m: nat)
    requires 0 < k <= n && Xor(a / 2, b / 2, n - 1) == a / 2 - m + Xor(m, b / 2, k - 1)
    ensures Xor(a, b, n) == a - (a % 2 + 2 * m) + Xor(a % 2 + 2 * m, b, k)
  {
    XorStep(a % 2, m, b, k);
  }

  lemma LowBitsOf(a: nat, k: nat, m: nat)
    requires k > 0 && m == (a / 2) % Pow2(k - 1)
    ensures a % Pow2(k) == a % 2 + 2 * m
  {
    ModOfHalf(a, Pow2(k - 1));
  }

  /** The number with these bits, lowest first. */
  function FromBits(bits: seq<nat>): nat {
    if bits == [] then 0 else bits[0] + 2 * FromBits(bits[1..])
  }

  lemma {:induction false} XorOfBits(a: seq<nat>, b: seq<nat>, c: seq<nat>)
    requires |a| == |b| == |c| && forall i :: 0 <= i < |a| ==> a[i] < 2 && b[i] < 2 && c[i] == (a[i] + b[i]) % 2
    ensures Xor(FromBits(a), FromBits(b), |a|) == FromBits(c)
  {
    if a != [] {
      XorOfBits(a[1..], b[1..], c[1..]);
      LowBit(b[0], FromBits(b[1..]));
      XorStep(a[0], FromBits(a[1..]), FromBits(b), |a|);
    }
  }

  lemma EightBits(bits: seq<nat>)
    requires |bits| == 8
    ensures FromBits(bits) == bits[0] + 2 * bits[1] + 4 * bits[2] + 8 * bits[3] +
      16 * bits[4] + 32 * bits[5] + 64 * bits[6] + 128 * bits[7]
  {
    var high := bits[4..];
    FourBits(bits, FromBits(high));
    FourBits(high, 0);
  }

  lemma FourBits(bits: seq<nat>, high: nat)
    requires |bits| >= 4 && FromBits(bits[4..]) == high
    ensures FromBits(bits) == bits[0] + 2 * bits[1] + 4 * bits[2] + 8 * bits[3] + 16 * high
  {
    assert bits[3..][1..] == bits[4..];
    assert bits[2..][1..] == bits[3..];
    assert bits[1..][1..] == bits[2..];
    assert FromBits(bits[3..]) == bits[3] + 2 * high;
    assert FromBits(bits[2..]) == bits[2] + 2 * FromBits(bits[3..]);
    assert FromBits(bits[1..]) == bits[1] + 2 * FromBits(bits[2..]);
  }

  /** Masking with the complement of `2^k - 1` rounds down to a multiple of `2^k`. */
  lemma {:induction false} MaskRoundsDown(x: nat, k: nat, n: nat)
    requires x < Pow2(n) && k <= n
    ensures And(x, Not(Pow2(k) - 1, n), n) == x - x % Pow2(k)
  {
    if k == 0 {
      AndOnes(x, n);
    } else {
      var p := Pow2(k - 1);
      MaskRoundsDown(x / 2, k - 1, n - 1);
      NotOdd(p - 1, n);
      AndEven(x, Not(p - 1, n - 1), n);
      RoundDownOfHalf(x, p);
    }
  }

  lemma NotOdd(m: nat, n: nat)
    requires n > 0
    ensures Not(2 * m + 1, n) == 2 * Not(m, n - 1)
  {
    assert (2 * m + 1) / 2 == m;
  }

  lemma RoundDownOfHalf(x: nat, p: nat)
    requires p > 0
    ensures x - x % (2 * p) == 2 * (x / 2 - (x / 2) % p)
  {
    ModOfHalf(x, p);
  }

  lemma {:induction false} AndOnes(x: nat, n: nat)
    requires x < Pow2(n)
    ensures And(x, Not(0, n), n) == x
  {
    if n > 0 {
      AndOnes(x / 2, n - 1);
      AndOdd(x, Not(0, n - 1), n);
      assert Not(0, n) == 1 + 2 * Not(0, n - 1);
    }
  }

  lemma AndOdd(x: nat, y: nat, n: nat)
    requires n > 0
    ensures And(x, 1 + 2 * y, n) == x % 2 + 2 * And(x / 2, y, n - 1)
  {
    LowBit(1, y);
  }

  lemma AndEven(x: nat, y: nat, n: nat)
    requires n > 0
    ensures And(x, 2 * y, n) == 2 * And(x / 2, y, n - 1)
  {
    assert (2 * y) % 2 == 0 && (2 * y) / 2 == y;
  }

  lemma ModOfHalf(x: nat, p: nat)
    requires p > 0
    ensures x % (2 * p) == 2 * ((x / 2) % p) + x % 2
  {
    var h := x / 2;
    var q, r := h / p, h % p;
    assert h == p * q + r;
    assert x == (2 * p) * q + (2 * r + x % 2);
    ModUnique(x, 2 * p, q, 2 * r + x % 2);
  }

  lemma ModUnique(x: nat, d: nat, q: nat, r: nat)
    requires d > 0 && r < d && x == d * q + r
    ensures x % d == r
  {
    var q', r' := x / d, x % d;
    assert d * (q - q') == r' - r;
    if q > q' {
      assert d * (q - q') >= d * 1 by { MulMonotone(d, 1, q - q'); }
    } else if q < q' {
      assert d * (q' - q) >= d * 1 by { MulMonotone(d, 1, q' - q); }
    }
  }

  lemma MulMonotone(d: nat, a: nat, b: nat)
    requires a <= b
    ensures d * a <= d * b
  {
  }

  // ---------------------------------------------------------------- little-endian bytes

  /** The low `n` bytes of a word, least significant first. */
  function LittleEndian(x: nat, n: nat): (bs: seq<byte>)
    ensures |bs| == n
  {
    if n == 0 then [] else [x % 0x100] + LittleEndian(x / 0x100, n - 1)
  }

  /** The number that bytes stand for, least significant byte first. */
  function ValueOf(bs: seq<byte>): nat {
    if bs == [] then 0 else bs[0] + 0x100 * ValueOf(bs[1..])
  }

  /** Reading back what was written; the reader fixes the byte order. */
  lemma {:induction false} LittleEndianReads(x: nat, n: nat)
    requires x < Pow256(n)
    ensures ValueOf(LittleEndian(x, n)) == x
  {
    if n > 0 {
      LittleEndianReads(x / 0x100, n - 1);
      assert LittleEndian(x, n)[1..] == LittleEndian(x / 0x100, n - 1);
    }
  }

  lemma {:induction false} ValueBelow(bs: seq<byte>)
    ensures ValueOf(bs) < Pow256(|bs|)
  {
    if bs != [] { ValueBelow(bs[1..]); }
  }

  function Word4(bs: seq<byte>): u32
    requires |bs| == 4
  {
    WordSizes();
    ValueBelow(bs);
    ValueOf(bs)
  }

  function Word8(bs: seq<byte>): u64
    requires |bs| == 8
  {
    WordSizes();
    ValueBelow(bs);
    ValueOf(bs)
  }

  lemma Word4Reads(x: u32)
    ensures Word4(Bytes4(x)) == x
  {
    WordSizes();
    LittleEndianReads(x, 4);
  }

  lemma Word8Reads(x: u64)
    ensures Word8(Bytes8(x)) == x
  {
    WordSizes();
    LittleEndianReads(x, 8);
  }

  lemma Cut<T>(a: seq<T>, b: seq<T>)
    ensures (a + b)[..|a|] == a && (a + b)[|a|..] == b
  {
  }

  function Pow256(n: nat): nat {
    if n == 0 then 1 else 0x100 * Pow256(n - 1)
  }

  lemma {:induction false} LittleEndianInjective(x: nat, y: nat, n: nat)
    requires x < Pow256(n) && y < Pow256(n)
    requires LittleEndian(x, n) == LittleEndian(y, n)
    ensures x == y
  {
    if n > 0 {
      assert LittleEndian(x, n)[0] == x % 0x100 && LittleEndian(y, n)[0] == y % 0x100;
      assert LittleEndian(x, n)[1..] == LittleEndian(x / 0x100, n - 1);
      assert LittleEndian(y, n)[1..] == LittleEndian(y / 0x100, n - 1);
      LittleEndianInjective(x / 0x100, y / 0x100, n - 1);
    }
  }

  lemma WordSizes()
    ensures Pow256(4) == TWO32 && Pow256(8) == TWO64 && Pow2(64) == TWO64 && Pow2(32) == TWO32
  {
    assert Pow256(4) == TWO32;
    assert Pow256(8) == TWO64;
    assert Pow2(8) == 0x100;
    assert Pow2(16) == 0x1_0000;
    assert Pow2(24) == 0x100_0000;
    assert Pow2(32) == TWO32;
    assert Pow2(40) == 0x100_0000_0000;
    assert Pow2(48) == 0x1_0000_0000_0000;
    assert Pow2(56) == 0x100_0000_0000_0000;
    assert Pow2(64) == TWO64;
  }

  function Bytes4(x: u32): seq<byte> { LittleEndian(x, 4) }
  function Bytes8(x: u64): seq<byte> { LittleEndian(x, 8) }

  lemma Bytes4Injective(x: u32, y: u32)
    requires Bytes4(x) == Bytes4(y)
    ensures x == y
  {
    WordSizes();
    LittleEndianInjective(x, y, 4);
  }

  lemma Bytes8Injective(x: u64, y: u64)
    requires Bytes8(x) == Bytes8(y)
    ensures x == y
  {
    WordSizes();
    LittleEndianInjective(x, y, 8);
  }

  /** Equal concatenations of equally long heads have equal heads and equal tails. */
  lemma SplitEqual<T>(a: seq<T>, b: seq<T>, x: seq<T>, y: seq<T>)
    requires |a| == |b| && a + x == b + y
    ensures a == b && x == y
  {
    assert (a + x)[..|a|] == a && (b + y)[..|b|] == b;
    assert (a + x)[|a|..] == x && (b + y)[|b|..] == y;
  }

  lemma AppendAssoc<T>(a: seq<T>, b: seq<T>, c: seq<T>)
    ensures (a + b) + c == a + (b + c)
  {
  }

  lemma Regroup4<T>(s: seq<T>, a: seq<T>, b: seq<T>, c: seq<T>, d: seq<T>)
    ensures s + a + b + c + d == s + (a + (b + (c + d)))
  {
    AppendAssoc(s + a + b, c, d);
    AppendAssoc(s + a, b, c + d);
    AppendAssoc(s, a, b + (c + d));
  }

  lemma Regroup7<T>(s: seq<T>, a: seq<T>, b: seq<T>, c: seq<T>, d: seq<T>, e: seq<T>, f: seq<T>, g: seq<T>)
    ensures s + a + b + c + d + e + f + g == s + (a + (b + (c + (d + (e + (f + g))))))
  {
    Regroup4(s + a + b + c, d, e, f, g);
    Regroup4(s, a, b, c, d + (e + (f + g)));
  }
}
