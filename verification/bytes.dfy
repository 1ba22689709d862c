/**
  Byte strings as Node's `Buffer` sees them: fixed-width big- and
  little-endian integers, `subarray` with typed-array index rules, the
  non-truncating `padStart`/`padEnd` of JavaScript strings, a zero-filled
  `Buffer.alloc(n).write(s)`, buffer search and hexadecimal text.
  Text is assumed to be ASCII, one byte per character.
 */
module Bytes {

  type byte = x: int | 0 <= x < 256
  type bytes = seq<byte>

  const UINT32_LIMIT: nat := 0x1_0000_0000
  type uint32 = x: int | 0 <= x < UINT32_LIMIT

  function Pow256(k: nat): (r: nat)
    ensures r > 0
  {
    if k == 0 then 1 else 256 * Pow256(k - 1)
  }

  /** Unsigned value of a byte string read most significant byte first. */
  function BigEndian(b: bytes): nat
  {
    if |b| == 0 then 0 else BigEndian(b[..|b| - 1]) * 256 + b[|b| - 1]
  }

  /** Unsigned value of a byte string read least significant byte first. */
  function LittleEndian(b: bytes): nat
  {
    if |b| == 0 then 0 else b[0] + 256 * LittleEndian(b[1..])
  }

  lemma {:induction false} BigEndianBound(b: bytes)
    ensures BigEndian(b) < Pow256(|b|)
  {
    if |b| > 0 {
      BigEndianBound(b[..|b| - 1]);
      assert BigEndian(b[..|b| - 1]) + 1 <= Pow256(|b| - 1);
    }
  }

  /** The k-byte big-endian encoding of v, as `writeUIntBE` produces it. */
  function EncodeBE(v: nat, k: nat): (r: bytes)
    ensures |r| == k
  {
    if k == 0 then [] else EncodeBE(v / 256, k - 1) + [v % 256]
  }

  lemma {:induction false} BigEndianOfEncodeBE(v: nat, k: nat)
    requires v < Pow256(k)
    ensures BigEndian(EncodeBE(v, k)) == v
  {
    if k > 0 {
      ShiftBound(v, Pow256(k - 1));
      BigEndianOfEncodeBE(v / 256, k - 1);
      BigEndianSnoc(EncodeBE(v / 256, k - 1), v % 256);
    }
  }

  /** One more byte at the end shifts the value up by eight bits. */
  lemma BigEndianSnoc(init: bytes, x: byte)
    ensures BigEndian(init + [x]) == BigEndian(init) * 256 + x
  {
    assert (init + [x])[..|init|] == init;
  }

  /** Dropping the low byte of a value below 256 * p leaves a value below p. */
  lemma ShiftBound(v: nat, p: nat)
    requires v < 256 * p
    ensures v / 256 < p
  {
  }

  lemma {:induction false} EncodeBEOfBigEndian(b: bytes)
    ensures EncodeBE(BigEndian(b), |b|) == b
  {
    if |b| > 0 {
      var init := b[..|b| - 1];
      EncodeBEOfBigEndian(init);
      assert BigEndian(b) / 256 == BigEndian(init);
      assert b == init + [b[|b| - 1]];
    }
  }

  /** `buf.writeUInt32BE(v)` into a 4-byte buffer. */
  function Encode32(v: uint32): (r: bytes)
    ensures |r| == 4
    ensures BigEndian(r) == v
  {
    BigEndianOfEncodeBE(v, 4);
    EncodeBE(v, 4)
  }

  /** Four bytes are exactly the big-endian encoding of their value. */
  lemma Encode32OfBigEndian(b: bytes)
    requires |b| == 4
    ensures BigEndian(b) < UINT32_LIMIT
    ensures Encode32(BigEndian(b)) == b
  {
    BigEndianBound(b);
    EncodeBEOfBigEndian(b);
  }

  /** The big-endian value of two and of four bytes, written out. */
  lemma BigEndian2(b: bytes)
    requires |b| == 2
    ensures BigEndian(b) == (b[0] as int) * 256 + b[1]
  {
    var b1 := b[..1];
    assert b1[..0] == [];
    assert BigEndian(b1) == b[0];
  }

  lemma BigEndian3(b: bytes)
    requires |b| == 3
    ensures BigEndian(b) == (b[0] as int) * 0x1_0000 + (b[1] as int) * 256 + b[2]
  {
    BigEndian2(b[..2]);
  }

  lemma BigEndian4(b: bytes)
    requires |b| == 4
    ensures BigEndian(b) == (b[0] as int) * 0x100_0000 + (b[1] as int) * 0x1_0000 + (b[2] as int) * 256 + b[3]
  {
    var b3 := b[..3];
    var b2 := b3[..2];
    BigEndian2(b2);
    assert BigEndian(b3) == BigEndian(b2) * 256 + b[2];
    assert BigEndian(b) == BigEndian(b3) * 256 + b[3];
  }

  lemma LittleEndian2(b: bytes)
    requires |b| == 2
    ensures LittleEndian(b) == (b[1] as int) * 256 + b[0]
  {
    var b1 := b[1..];
    assert b1[1..] == [];
    assert LittleEndian(b1) == b[1];
  }

  lemma LittleEndian4(b: bytes)
    requires |b| == 4
    ensures LittleEndian(b) == (b[3] as int) * 0x100_0000 + (b[2] as int) * 0x1_0000 + (b[1] as int) * 256 + b[0]
  {
    var b3 := b[1..];
    var b2 := b3[1..];
    LittleEndian2(b2);
    assert LittleEndian(b3) == b[1] + 256 * LittleEndian(b2);
    assert LittleEndian(b) == b[0] + 256 * LittleEndian(b3);
  }

  /** The typed-array reading of an index: negative counts from the end, clamped to [0, len]. */
  function RelativeIndex(x: int, len: nat): (r: nat)
    ensures r <= len
    ensures 0 <= x ==> r == if x < len then x else len
    ensures x < 0 ==> r == if len + x < 0 then 0 else len + x
  {
    if x < 0 then (if len + x < 0 then 0 else len + x)
    else if x < len then x else len
  }

  /** `buf.subarray(start, end)`: the bytes between the two relative indices, empty when they cross. */
  function Subarray(b: bytes, start: int, end: int): (r: bytes)
    ensures |r| <= |b|
    ensures 0 <= start <= end ==>
      r == b[(if start < |b| then start else |b|)..(if end < |b| then end else |b|)]
  {
    var s := RelativeIndex(start, |b|);
    var e := RelativeIndex(end, |b|);
    if e <= s then [] else b[s..e]
  }

  /** JavaScript `String.prototype.padEnd(n, c)`: never truncates. */
  function PadEnd<T>(s: seq<T>, n: int, c: T): (r: seq<T>)
    ensures |r| == if |s| < n then n else |s|
    ensures r[..|s|] == s
    ensures forall i :: |s| <= i < |r| ==> r[i] == c
  {
    if n <= |s| then s else s + seq(n - |s|, _ => c)
  }

  /** JavaScript `String.prototype.padStart(n, c)`: never truncates. */
  function PadStart<T>(s: seq<T>, n: int, c: T): (r: seq<T>)
    ensures |r| == if |s| < n then n else |s|
    ensures r[|r| - |s|..] == s
    ensures forall i :: 0 <= i < |r| - |s| ==> r[i] == c
  {
    if n <= |s| then s else seq(n - |s|, _ => c) + s
  }

  /** `Buffer.alloc(n)` followed by `write(s)`: at most n bytes of s, then NUL bytes. */
  function AllocWrite(n: nat, s: bytes): (r: bytes)
    ensures |r| == n
    ensures |s| <= n ==> r[..|s|] == s
    ensures n <= |s| ==> r == s[..n]
    ensures forall i :: |s| <= i < n ==> r[i] == 0
  {
    if n <= |s| then s[..n] else s + seq(n - |s|, _ => 0)
  }

  /** `Buffer.from(s)` for ASCII text: one byte per character. */
  function AsciiBytes(s: string): (r: bytes)
    ensures |r| == |s|
  {
    seq(|s|, i requires 0 <= i < |s| => (s[i] as int) % 256)
  }

  /** `buf.toString("ascii")` on ASCII bytes: one character per byte. */
  function AsciiString(b: bytes): (r: string)
    ensures |r| == |b|
  {
    seq(|b|, i requires 0 <= i < |b| => b[i] as char)
  }

  predicate IsAscii(s: string)
  {
    forall i :: 0 <= i < |s| ==> s[i] as int < 128
  }

  lemma AsciiRoundTrip(s: string)
    requires IsAscii(s)
    ensures AsciiString(AsciiBytes(s)) == s
  {
  }

  lemma AsciiBytesPrefix(s: string, n: nat)
    requires n <= |s|
    ensures AsciiBytes(s[..n]) == AsciiBytes(s)[..n]
  {
  }

  /** The needle's bytes start at position i of the haystack. */
  predicate OccursAt(hay: bytes, needle: bytes, i: int)
  {
    0 <= i && i + |needle| <= |hay| && hay[i..i + |needle|] == needle
  }

  predicate Contains(hay: bytes, needle: bytes)
  {
    exists i :: 0 <= i <= |hay| && OccursAt(hay, needle, i)
  }

  /** `hay.indexOf(needle, from)`: the first occurrence at or after `from`, or -1. */
  function IndexOf(hay: bytes, needle: bytes, from: nat): (r: int)
    ensures r == -1 || (from <= r && OccursAt(hay, needle, r))
    ensures forall i :: from <= i && (r == -1 || i < r) ==> !OccursAt(hay, needle, i)
    decreases |hay| - from
  {
    if from + |needle| > |hay| then -1
    else if hay[from..from + |needle|] == needle then from
    else IndexOf(hay, needle, from + 1)
  }

  lemma IndexOfFindsOccurrence(hay: bytes, needle: bytes)
    ensures IndexOf(hay, needle, 0) > -1 <==> Contains(hay, needle)
  {
    var r := IndexOf(hay, needle, 0);
    if r == -1 {
      forall i ensures !OccursAt(hay, needle, i) {
        if 0 <= i {
          assert !OccursAt(hay, needle, i);
        }
      }
    } else {
      assert OccursAt(hay, needle, r);
    }
  }

  /** The lowercase hexadecimal digit for 0 <= n < 16, as `toString("hex")` writes it. */
  function HexDigit(n: int): (c: char)
    requires 0 <= n < 16
  {
    if n < 10 then ('0' as int + n) as char else ('a' as int + n - 10) as char
  }

  /** Value of a lowercase hexadecimal digit, or -1. */
  function HexValueOf(c: char): (r: int)
    ensures -1 <= r < 16
    ensures 0 <= r ==> HexDigit(r) == c
  {
    if '0' <= c <= '9' then c as int - '0' as int
    else if 'a' <= c <= 'f' then c as int - 'a' as int + 10
    else -1
  }

  /** `buf.toString("hex")`: two lowercase digits per byte, high nibble first. */
  function Hex(b: bytes): (r: string)
    ensures |r| == 2 * |b|
  {
    if |b| == 0 then "" else Hex(b[..|b| - 1]) + [HexDigit(b[|b| - 1] / 16)] + [HexDigit(b[|b| - 1] % 16)]
  }

  /** Value of a lowercase hexadecimal numeral; digits outside [0-9a-f] read as 0. */
  function ParseHex(s: string): nat
  {
    if |s| == 0 then 0
    else
      var d := HexValueOf(s[|s| - 1]);
      ParseHex(s[..|s| - 1]) * 16 + (if d < 0 then 0 else d)
  }

  predicate IsLowerHex(s: string)
  {
    forall i :: 0 <= i < |s| ==> HexValueOf(s[i]) >= 0
  }

  lemma HexValueOfDigit(n: int)
    requires 0 <= n < 16
    ensures HexValueOf(HexDigit(n)) == n
  {
  }

  lemma {:induction false} HexIsLowerHex(b: bytes)
    ensures IsLowerHex(Hex(b))
  {
    if |b| > 0 {
      var last := b[|b| - 1];
      HexIsLowerHex(b[..|b| - 1]);
      HexValueOfDigit(last / 16);
      HexValueOfDigit(last % 16);
    }
  }

  /** Appending one digit multiplies the value by 16 and adds the digit. */
  lemma ParseHexSnoc(s: string, n: int)
    requires 0 <= n < 16
    ensures ParseHex(s + [HexDigit(n)]) == ParseHex(s) * 16 + n
  {
    assert (s + [HexDigit(n)])[..|s|] == s;
    HexValueOfDigit(n);
  }

  /** Two digits of a byte, high nibble first, extend a numeral's value by that byte. */
  lemma ParseHexByte(s: string, last: byte)
    ensures ParseHex(s + [HexDigit(last / 16)] + [HexDigit(last % 16)]) == ParseHex(s) * 256 + last
  {
    var p := ParseHex(s);
    ParseHexSnoc(s, last / 16);
    ParseHexSnoc(s + [HexDigit(last / 16)], last % 16);
    assert (p * 16 + last / 16) * 16 + last % 16 == p * 256 + last;
  }

  lemma {:induction false} ParseHexOfHex(b: bytes)
    ensures ParseHex(Hex(b)) == BigEndian(b)
  {
    if |b| > 0 {
      var init := b[..|b| - 1];
      ParseHexOfHex(init);
      ParseHexByte(Hex(init), b[|b| - 1]);
    }
  }
}
