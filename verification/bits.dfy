/**
  `utils.readBit(i, buffer)`: the buffer is turned into a BigInt, printed
  in base 2, left-padded with '0' to eight digits per byte, and the i-th
  character of that text is returned. Indices therefore count bits from
  the most significant bit of the first byte.
 */
module Bits {
  import opened Errors
  import opened Bytes

  function Pow2(k: nat): (r: nat)
    ensures r > 0
  {
    if k == 0 then 1 else 2 * Pow2(k - 1)
  }

  /** The binary digit character for 0 or 1. */
  function Digit(d: int): char
  {
    if d == 1 then '1' else '0'
  }

  /** Bit j of n, counting from the least significant: `(n >> j) & 1`. */
  function BitOf(n: nat, j: nat): (r: nat)
    ensures r < 2
  {
    if j == 0 then n % 2 else BitOf(n / 2, j - 1)
  }

  /** `n.toString(2)`: the shortest binary numeral, "0" for zero. */
  function ToBinary(n: nat): (r: string)
    ensures |r| >= 1
  {
    if n < 2 then [Digit(n)] else ToBinary(n / 2) + [Digit(n % 2)]
  }

  /** The k lowest bits of n as a k-character numeral, most significant first. */
  function Bin(n: nat, k: nat): (r: string)
    ensures |r| == k
  {
    if k == 0 then [] else Bin(n / 2, k - 1) + [Digit(n % 2)]
  }

  /** The eight-digit numerals of the bytes, one after another. */
  function ByteBits(b: bytes): (r: string)
    ensures |r| == 8 * |b|
  {
    if |b| == 0 then [] else ByteBits(b[..|b| - 1]) + Bin(b[|b| - 1], 8)
  }

  /** JavaScript `String.prototype.substring(a, b)`: both ends clamped, swapped when crossed. */
  function Substring(s: string, a: int, b: int): (r: string)
    ensures |r| <= |s|
  {
    var x := if a < 0 then 0 else if a > |s| then |s| else a;
    var y := if b < 0 then 0 else if b > |s| then |s| else b;
    if x <= y then s[x..y] else s[y..x]
  }

  /** `readBit(bitIndex, buffer)`, literally: binary text of the buffer's value, padded, then one character. */
  function ReadBit(bitIndex: int, buffer: bytes): Result<string>
  {
    if |buffer| == 0 then Err(SyntaxError)
    else
      var paddedBin := PadStart(ToBinary(BigEndian(buffer)), |buffer| * 8, '0');
      Ok(Substring(paddedBin, bitIndex, bitIndex + 1))
  }

  lemma {:induction false} Pow256IsPow2(k: nat)
    ensures Pow256(k) == Pow2(8 * k)
  {
    if k > 0 {
      Pow256IsPow2(k - 1);
      var m := 8 * (k - 1);
      assert Pow2(m + 8) == 2 * Pow2(m + 7) == 4 * Pow2(m + 6) == 8 * Pow2(m + 5) == 16 * Pow2(m + 4);
      assert Pow2(m + 4) == 2 * Pow2(m + 3) == 4 * Pow2(m + 2) == 8 * Pow2(m + 1) == 16 * Pow2(m);
    }
  }

  lemma {:induction false} BinZero(k: nat)
    ensures Bin(0, k) == seq(k, _ => '0')
  {
    if k > 0 {
      BinZero(k - 1);
    }
  }

  lemma {:induction false} ToBinaryLength(n: nat, k: nat)
    requires 1 <= k
    requires n < Pow2(k)
    ensures |ToBinary(n)| <= k
  {
    if n >= 2 {
      assert k >= 2;
      ToBinaryLength(n / 2, k - 1);
    }
  }

  /** Padding the shortest numeral to k digits gives the k-digit numeral. */
  lemma {:induction false} PaddedBinary(n: nat, k: nat)
    requires 1 <= k
    requires n < Pow2(k)
    ensures PadStart(ToBinary(n), k, '0') == Bin(n, k)
  {
    if n < 2 {
      BinZero(k - 1);
      assert Bin(n / 2, k - 1) == seq(k - 1, _ => '0');
    } else {
      var t := ToBinary(n / 2);
      assert k >= 2;
      ToBinaryLength(n / 2, k - 1);
      PaddedBinary(n / 2, k - 1);
      assert PadStart(t + [Digit(n % 2)], k, '0') == PadStart(t, k - 1, '0') + [Digit(n % 2)];
    }
  }

  /** Halving a * 2p + c: the quotient is a * p + c / 2 and the remainder is c's low bit. */
  lemma HalveSplit(a: nat, p: nat, c: nat)
    requires c < 2 * p
    ensures (a * (2 * p) + c) / 2 == a * p + c / 2
    ensures (a * (2 * p) + c) % 2 == c % 2
    ensures c / 2 < p
  {
    assert a * (2 * p) + c == 2 * (a * p + c / 2) + c % 2;
  }

  /** The numeral of a * 2^m + c splits into the numerals of a and of c. */
  lemma {:induction false} BinSplit(a: nat, c: nat, k: nat, m: nat)
    requires c < Pow2(m)
    ensures Bin(a * Pow2(m) + c, k + m) == Bin(a, k) + Bin(c, m)
  {
    if m > 0 {
      var p := Pow2(m - 1);
      var x := a * Pow2(m) + c;
      assert Pow2(m) == 2 * p;
      HalveSplit(a, p, c);
      BinSplit(a, c / 2, k, m - 1);
      assert Bin(x, k + m) == Bin(a * p + c / 2, k + (m - 1)) + [Digit(c % 2)];
      assert Bin(c, m) == Bin(c / 2, m - 1) + [Digit(c % 2)];
    }
  }

  lemma {:induction false} BinOfBigEndian(b: bytes)
    ensures Bin(BigEndian(b), 8 * |b|) == ByteBits(b)
  {
    if |b| > 0 {
      var init := b[..|b| - 1];
      BinOfBigEndian(init);
      assert Pow2(8) == 256;
      BinSplit(BigEndian(init), b[|b| - 1], 8 * |init|, 8);
    }
  }

  lemma {:induction false} ByteBitsIndex(b: bytes, i: nat)
    requires i < 8 * |b|
    ensures ByteBits(b)[i] == Bin(b[i / 8], 8)[i % 8]
  {
    var init := b[..|b| - 1];
    if i < 8 * |init| {
      ByteBitsIndex(init, i);
    } else {
      assert i / 8 == |init|;
    }
  }

  /** Character k-1-j of the k-digit numeral is bit j. */
  lemma {:induction false} BinIndex(n: nat, k: nat, j: nat)
    requires j < k
    ensures Bin(n, k)[k - 1 - j] == Digit(BitOf(n, j))
  {
    if j > 0 {
      BinIndex(n / 2, k - 1, j - 1);
    }
  }

  /** The padded binary text of a non-empty buffer is its bytes' numerals in order. */
  lemma PaddedBinaryOfBuffer(buffer: bytes)
    requires |buffer| > 0
    ensures PadStart(ToBinary(BigEndian(buffer)), |buffer| * 8, '0') == ByteBits(buffer)
  {
    BigEndianBound(buffer);
    Pow256IsPow2(|buffer|);
    PaddedBinary(BigEndian(buffer), 8 * |buffer|);
    BinOfBigEndian(buffer);
  }

  lemma SubstringOne(s: string, i: int)
    requires 0 <= i < |s|
    ensures Substring(s, i, i + 1) == [s[i]]
  {
  }

  lemma SubstringOutside(s: string, i: int)
    requires i < 0 || |s| <= i
    ensures Substring(s, i, i + 1) == ""
  {
  }

  /** readBit inside the buffer's bits: the character of bit 7 - i mod 8 of byte i / 8. */
  lemma ReadBitInside(bitIndex: int, buffer: bytes)
    requires 0 <= bitIndex < 8 * |buffer|
    ensures ReadBit(bitIndex, buffer) == Ok([Digit(BitOf(buffer[bitIndex / 8], 7 - bitIndex % 8))])
  {
    PaddedBinaryOfBuffer(buffer);
    var s := ByteBits(buffer);
    assert ReadBit(bitIndex, buffer) == Ok(Substring(s, bitIndex, bitIndex + 1));
    SubstringOne(s, bitIndex);
    ByteBitsIndex(buffer, bitIndex);
    BinIndex(buffer[bitIndex / 8], 8, 7 - bitIndex % 8);
  }

  /** readBit outside the buffer's bits: the empty string. */
  lemma ReadBitOutside(bitIndex: int, buffer: bytes)
    requires |buffer| > 0 && (bitIndex < 0 || 8 * |buffer| <= bitIndex)
    ensures ReadBit(bitIndex, buffer) == Ok("")
  {
    PaddedBinaryOfBuffer(buffer);
    var s := ByteBits(buffer);
    assert ReadBit(bitIndex, buffer) == Ok(Substring(s, bitIndex, bitIndex + 1));
    SubstringOutside(s, bitIndex);
  }

  /**
    On a non-empty buffer, readBit(i) is bit 7 - i mod 8 of byte i / 8, as
    "1" or "0", for every index inside the buffer, and "" for every index
    outside it; on an empty buffer it throws.
   */
  lemma ReadBitIsMsbFirst(bitIndex: int, buffer: bytes)
    ensures |buffer| == 0 ==> ReadBit(bitIndex, buffer) == Err(SyntaxError)
    ensures |buffer| > 0 && 0 <= bitIndex < 8 * |buffer| ==>
      ReadBit(bitIndex, buffer) == Ok([Digit(BitOf(buffer[bitIndex / 8], 7 - bitIndex % 8))])
    ensures |buffer| > 0 && (bitIndex < 0 || 8 * |buffer| <= bitIndex) ==>
      ReadBit(bitIndex, buffer) == Ok("")
  {
    if |buffer| > 0 {
      if 0 <= bitIndex < 8 * |buffer| {
        ReadBitInside(bitIndex, buffer);
      } else {
        ReadBitOutside(bitIndex, buffer);
      }
    }
  }
}
