/** The 64-bit FNV-1a fold and its expansion to 32 bytes. */
module Fnv {
  import opened Words

  const OFFSET: u64 := 0xcbf2_9ce4_8422_2325
  const PRIME: u64 := 0x100_0000_01b3

  type Digest = d: seq<byte> | |d| == 32 witness LittleEndian(0, 32)

  /** 32 zero bytes. */
  const ZERO: Digest := LittleEndian(0, 32)

  function Scale(h: u64): u64 {
    (h * PRIME) % 0x1_0000_0000_0000_0000
  }

  /** Absorb one byte: XOR it into the word, then multiply by the FNV prime, wrapping. */
  function Absorb(h: u64, b: byte): u64 {
    WordSizes();
    Scale(Xor(h, b, 64))
  }

  function Fold(h: u64, bs: seq<byte>): u64 {
    if bs == [] then h else Absorb(Fold(h, bs[..|bs| - 1]), bs[|bs| - 1])
  }

  /** Four words, each the previous one times the prime, in little-endian bytes. */
  function Expand(h: u64): Digest {
    Bytes8(h) + Bytes8(Scale(h)) + Bytes8(Scale(Scale(h))) + Bytes8(Scale(Scale(Scale(h))))
  }

  /** The multiplier is odd, hence invertible modulo 2^64. */
  lemma ScaleInjective(x: u64, y: u64)
    requires Scale(x) == Scale(y)
    ensures x == y
  {
    var inverse, wraps := 0xce965057aff6957b, 0xce9650590f;
    assert PRIME * inverse == 1 + TWO64 * wraps;
    var j := x * PRIME / TWO64 - y * PRIME / TWO64;
    assert (x - y) * PRIME == TWO64 * j;
    assert (x - y) * (1 + TWO64 * wraps) == TWO64 * (j * inverse);
    assert x - y == TWO64 * (j * inverse - (x - y) * wraps);
  }

  // ---------------------------------------------------------------- which hash this is

  /** From the zero word one step is the byte times the prime, with no wrap. */
  lemma AbsorbFromZero(b: byte)
    ensures Absorb(0, b) == b * 0x100_0000_01b3
  {
    WordSizes();
    XorCommutes(0, b, 64);
    XorWithZero(b, 64);
    SmallScale(b);
  }

  lemma SmallScale(b: byte)
    ensures Scale(b) == b * 0x100_0000_01b3
  {
  }

  /** The byte goes in before the multiplication. */
  lemma AbsorbXorsFirst(h: u64, b: byte)
    ensures Xor(h, b, 64) < TWO64 && Absorb(h, b) == Absorb(Xor(h, b, 64), 0)
  {
    WordSizes();
    XorWithZero(Xor(h, b, 64), 64);
  }

  /** One step, with the XOR done on the low byte alone. */
  lemma AbsorbLowByte(h: u64, b: byte, low: byte)
    requires Xor(h % 0x100, b, 8) == low
    ensures 0 <= h - h % 0x100 + low < TWO64 && Absorb(h, b) == Scale(h - h % 0x100 + low)
  {
    XorLowByte(h, b);
  }

  lemma XorLowByte(h: u64, b: byte)
    ensures 0 <= Xor(h, b, 64) < TWO64 && Xor(h, b, 64) == h - h % 0x100 + Xor(h % 0x100, b, 8)
  {
    WordSizes();
    assert Pow2(8) == 0x100;
    XorTouchesLowBits(h, b, 64, 8);
  }

  /** The published test vectors of 64-bit FNV-1a for the empty text and for "a". */
  lemma PublishedVectors(text: seq<byte>)
    ensures text == [] ==> Fold(OFFSET, text) == 0xcbf29ce484222325
    ensures text == [0x61] ==> Fold(OFFSET, text) == 0xaf63dc4c8601ec8c
  {
    if text == [0x61] { VectorOfA(text, OFFSET); }
  }

  lemma VectorOfA(text: seq<byte>, h: u64)
    requires |text| == 1 && text[0] == 0x61 && h == 0xcbf29ce484222325
    ensures Fold(h, text) == 0xaf63dc4c8601ec8c
  {
    assert text == [] + [text[0]];
    OneByte(h, [], text[0]);
    XorOfA(h % 0x100, text[0], [1, 0, 1, 0, 0, 1, 0, 0], [1, 0, 0, 0, 0, 1, 1, 0], [0, 0, 1, 0, 0, 0, 1, 0]);
    AbsorbLowByte(h, text[0], 0x44);
    ScaleOfA(h - h % 0x100 + 0x44);
  }

  lemma ScaleOfA(w: u64)
    requires w == 0xcbf29ce484222344
    ensures Scale(w) == 0xaf63dc4c8601ec8c
  {
  }

  lemma XorOfA(x: byte, y: byte, a: seq<nat>, b: seq<nat>, c: seq<nat>)
    requires x == 0x25 && y == 0x61
    requires a == [1, 0, 1, 0, 0, 1, 0, 0] && b == [1, 0, 0, 0, 0, 1, 1, 0] && c == [0, 0, 1, 0, 0, 0, 1, 0]
    ensures Xor(x, y, 8) == 0x44
  {
    BitsOfA(a, b, c);
    XorByBits(x, y, a, b, c);
  }

  lemma BitsOfA(a: seq<nat>, b: seq<nat>, c: seq<nat>)
    requires a == [1, 0, 1, 0, 0, 1, 0, 0] && b == [1, 0, 0, 0, 0, 1, 1, 0] && c == [0, 0, 1, 0, 0, 0, 1, 0]
    ensures FromBits(a) == 0x25 && FromBits(b) == 0x61 && FromBits(c) == 0x44
  {
    EightBits(a);
    EightBits(b);
    EightBits(c);
  }

  lemma XorByBits(x: nat, y: nat, a: seq<nat>, b: seq<nat>, c: seq<nat>)
    requires |a| == |b| == |c| == 8 && x == FromBits(a) && y == FromBits(b)
    requires forall i :: 0 <= i < 8 ==> a[i] < 2 && b[i] < 2 && c[i] == (a[i] + b[i]) % 2
    ensures Xor(x, y, 8) == FromBits(c)
  {
    XorOfBits(a, b, c);
  }

  function Scaled(h: u64, k: nat): u64 {
    if k == 0 then h else Scale(Scaled(h, k - 1))
  }

  /** Where each word of a digest lies. */
  lemma DigestWords(h: u64, k: nat)
    requires k < 4
    ensures Expand(h)[8 * k..8 * k + 8] == LittleEndian(Scaled(h, k), 8)
  {
    ScaledWords(h);
    FourParts(Bytes8(h), Bytes8(Scale(h)), Bytes8(Scale(Scale(h))), Bytes8(Scale(Scale(Scale(h)))));
    var d := Expand(h);
    assert d[0..8] == LittleEndian(Scaled(h, 0), 8);
    assert d[8..16] == LittleEndian(Scaled(h, 1), 8);
    assert d[16..24] == LittleEndian(Scaled(h, 2), 8);
    assert d[24..32] == LittleEndian(Scaled(h, 3), 8);
    if k == 0 { } else if k == 1 { } else if k == 2 { } else { assert k == 3; }
  }

  lemma ScaledWords(h: u64)
    ensures Scaled(h, 0) == h && Scaled(h, 1) == Scale(h) && Scaled(h, 2) == Scale(Scale(h))
    ensures Scaled(h, 3) == Scale(Scale(Scale(h)))
  {
    assert Scaled(h, 1) == Scale(Scaled(h, 0));
    assert Scaled(h, 2) == Scale(Scaled(h, 1));
    assert Scaled(h, 3) == Scale(Scaled(h, 2));
  }

  lemma FourParts(a: seq<byte>, b: seq<byte>, c: seq<byte>, d: seq<byte>)
    requires |a| == |b| == |c| == |d| == 8
    ensures var s := a + b + c + d; s[0..8] == a && s[8..16] == b && s[16..24] == c && s[24..32] == d
  {
  }

  // ---------------------------------------------------------------- injectivity

  lemma AbsorbInjective(h: u64, h': u64, b: byte, b': byte)
    requires Absorb(h, b) == Absorb(h', b')
    requires h == h' || b == b'
    ensures h == h' && b == b'
  {
    WordSizes();
    ScaleInjective(Xor(h, b, 64), Xor(h', b', 64));
    XorInjective(h, h', b, b', 64);
  }

  lemma {:induction false} FoldAppend(h: u64, a: seq<byte>, b: seq<byte>)
    ensures Fold(h, a + b) == Fold(Fold(h, a), b)
  {
    if b == [] {
      assert a + b == a;
    } else {
      FoldAppend(h, a, b[..|b| - 1]);
      assert (a + b)[..|a + b| - 1] == a + b[..|b| - 1];
    }
  }

  /** With the same bytes to absorb, different words stay different. */
  lemma {:induction false} FoldInjective(h: u64, h': u64, bs: seq<byte>)
    requires h != h'
    ensures Fold(h, bs) != Fold(h', bs)
  {
    if bs != [] {
      FoldInjective(h, h', bs[..|bs| - 1]);
      var last := bs[|bs| - 1];
      if Absorb(Fold(h, bs[..|bs| - 1]), last) == Absorb(Fold(h', bs[..|bs| - 1]), last) {
        AbsorbInjective(Fold(h, bs[..|bs| - 1]), Fold(h', bs[..|bs| - 1]), last, last);
      }
    }
  }

  lemma ExpandInjective(h: u64, h': u64)
    requires Expand(h) == Expand(h')
    ensures h == h'
  {
    assert Expand(h)[..8] == Bytes8(h) && Expand(h')[..8] == Bytes8(h');
    Bytes8Injective(h, h');
  }

  /** Two inputs that differ in exactly one byte, wherever it is and whatever follows, never collide. */
  lemma OneByteChangesDigest(h: u64, a: seq<byte>, b: seq<byte>, k: nat)
    requires |a| == |b| && k < |a| && a[k] != b[k]
    requires forall i :: 0 <= i < |a| && i != k ==> a[i] == b[i]
    ensures Expand(Fold(h, a)) != Expand(Fold(h, b))
  {
    var prefix, suffix := a[..k], a[k + 1..];
    assert b[..k] == prefix && b[k + 1..] == suffix;
    assert a == prefix + [a[k]] + suffix && b == prefix + [b[k]] + suffix;
    var h0 := Fold(h, prefix);
    OneByte(h, prefix, a[k]);
    OneByte(h, prefix, b[k]);
    FoldAppend(h, prefix + [a[k]], suffix);
    FoldAppend(h, prefix + [b[k]], suffix);
    if Absorb(h0, a[k]) == Absorb(h0, b[k]) { AbsorbInjective(h0, h0, a[k], b[k]); }
    FoldInjective(Absorb(h0, a[k]), Absorb(h0, b[k]), suffix);
    if Expand(Fold(h, a)) == Expand(Fold(h, b)) { ExpandInjective(Fold(h, a), Fold(h, b)); }
  }

  lemma OneByteBetween(h: u64, before: seq<byte>, x: byte, y: byte, after: seq<byte>)
    requires x != y
    ensures Expand(Fold(h, before + [x] + after)) != Expand(Fold(h, before + [y] + after))
  {
    var a, b := before + [x] + after, before + [y] + after;
    assert a[|before|] == x && b[|before|] == y;
    OneByteChangesDigest(h, a, b, |before|);
  }

  lemma OneByte(h: u64, prefix: seq<byte>, x: byte)
    ensures Fold(h, prefix + [x]) == Absorb(Fold(h, prefix), x)
  {
    assert (prefix + [x])[..|prefix|] == prefix;
  }

  // ---------------------------------------------------------------- zero bytes

  ghost predicate AllZero(bs: seq<byte>) { forall i :: 0 <= i < |bs| ==> bs[i] == 0 }

  lemma {:induction false} LittleEndianOfZero(n: nat)
    ensures AllZero(LittleEndian(0, n))
  {
    if n > 0 { LittleEndianOfZero(n - 1); }
  }

  /** Zero bytes multiply a word by the prime, so they never take a non-zero word to zero. */
  lemma {:induction false} ZeroBytesKeepNonZero(h: u64, bs: seq<byte>)
    requires h != 0 && AllZero(bs)
    ensures Fold(h, bs) != 0
  {
    if bs != [] {
      ZeroBytesKeepNonZero(h, bs[..|bs| - 1]);
      AbsorbZero(Fold(h, bs[..|bs| - 1]));
    }
  }

  lemma AbsorbZero(w: u64)
    requires w != 0
    ensures Absorb(w, 0) != 0
  {
    WordSizes();
    XorWithZero(w, 64);
    ScaleNonZero(w);
  }

  lemma ScaleNonZero(w: u64)
    requires w != 0
    ensures Scale(w) != 0
  {
    assert Scale(0) == 0;
    if Scale(w) == 0 { ScaleInjective(w, 0); }
  }

  lemma AllZeroAppend(a: seq<byte>, b: seq<byte>)
    requires AllZero(a) && AllZero(b)
    ensures AllZero(a + b)
  {
  }

  lemma NonZeroDigest(h: u64)
    requires h != 0
    ensures Expand(h) != ZERO
  {
    if Expand(h) == ZERO {
      assert Expand(h)[..8] == Bytes8(h);
      FirstBytes(0, 8, 32);
      Bytes8Injective(h, 0);
      assert false;
    }
  }

  lemma {:induction false} FirstBytes(x: nat, n: nat, m: nat)
    requires n <= m
    ensures LittleEndian(x, m)[..n] == LittleEndian(x, n)
  {
    if n > 0 {
      FirstBytes(x / 0x100, n - 1, m - 1);
      assert LittleEndian(x, m)[..n] == [x % 0x100] + LittleEndian(x / 0x100, m - 1)[..n - 1];
    }
  }

  // ---------------------------------------------------------------- the loops

  method AbsorbAll(h: u64, bs: seq<byte>) returns (r: u64)
    ensures r == Fold(h, bs)
  {
    r := h;
    for i := 0 to |bs|
      invariant r == Fold(h, bs[..i])
    {
      assert bs[..i + 1][..i] == bs[..i];
      r := Absorb(r, bs[i]);
    }
    assert bs[..|bs|] == bs;
  }

  /** The bytes after `n` chunks and the word the next chunk is made from. */
  ghost predicate Filled(hash: u64, n: nat, h: u64, bytes: seq<byte>) {
    var h1, h2, h3 := Scale(hash), Scale(Scale(hash)), Scale(Scale(Scale(hash)));
    match n
    case 0 => h == hash && bytes == []
    case 1 => h == h1 && bytes == Bytes8(hash)
    case 2 => h == h2 && bytes == Bytes8(hash) + Bytes8(h1)
    case 3 => h == h3 && bytes == Bytes8(hash) + Bytes8(h1) + Bytes8(h2)
    case _ => bytes == Expand(hash)
  }

  lemma FillChunk(hash: u64, n: nat, h: u64, bytes: seq<byte>)
    requires n < 4 && Filled(hash, n, h, bytes)
    ensures Filled(hash, n + 1, Scale(h), bytes + Bytes8(h))
  {
  }

  /** Filling the 32-byte result one 8-byte chunk at a time. */
  method Finalize(hash: u64) returns (result: Digest)
    ensures result == Expand(hash)
  {
    var bytes: seq<byte> := [];
    var h := hash;
    for chunk := 0 to 4
      invariant Filled(hash, chunk, h, bytes)
    {
      FillChunk(hash, chunk, h, bytes);
      bytes := bytes + Bytes8(h);
      h := Scale(h);
    }
    result := bytes;
  }
}
