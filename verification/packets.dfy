/**
  The control packets the repeater sends: an ASCII signature, the radio id
  as four big-endian bytes, and a packet-specific body.
 */
module Packets {
  import opened Errors
  import opened Bytes
  import opened Config

  const SOFTWARE_ID := "node-dmr-gateway"
  const SOFTWARE_ID_BYTES := 40
  const VERSION_BYTES := 40

  /** The common frame of every outbound control packet. */
  function Packet(signature: string, id: uint32, body: bytes): (r: bytes)
    ensures |r| == |signature| + 4 + |body|
    ensures r[..|signature|] == AsciiBytes(signature)
    ensures BigEndian(r[|signature|..|signature| + 4]) == id
    ensures r[|signature| + 4..] == body
  {
    var r := AsciiBytes(signature) + Encode32(id) + body;
    assert r[|signature|..|signature| + 4] == Encode32(id);
    r
  }

  /** RPTL, the login request. */
  function EncodeRPTL(id: uint32): (r: bytes)
    ensures |r| == 8
    ensures r[..4] == [0x52, 0x50, 0x54, 0x4C]
    ensures BigEndian(r[4..]) == id
  {
    var r := Packet("RPTL", id, []);
    assert r[4..] == r[4..4 + 4];
    r
  }

  /** RPTPING, the keepalive ping. */
  function EncodeRPTPING(id: uint32): (r: bytes)
    ensures |r| == 11
    ensures r[..7] == [0x52, 0x50, 0x54, 0x50, 0x49, 0x4E, 0x47]
    ensures BigEndian(r[7..]) == id
  {
    var r := Packet("RPTPING", id, []);
    assert r[7..] == r[7..7 + 4];
    r
  }

  /** RPTCL, the logout notice. */
  function EncodeRPTCL(id: uint32): (r: bytes)
    ensures |r| == 9
    ensures r[..5] == [0x52, 0x50, 0x54, 0x43, 0x4C]
    ensures BigEndian(r[5..]) == id
  {
    var r := Packet("RPTCL", id, []);
    assert r[5..] == r[5..5 + 4];
    r
  }

  /** RPTO, the options announcement: the options text follows the id unchanged and unpadded. */
  function EncodeRPTO(id: uint32, options: string): (r: bytes)
    ensures |r| == 8 + |options|
    ensures r[..4] == [0x52, 0x50, 0x54, 0x4F]
    ensures BigEndian(r[4..8]) == id
    ensures r[8..] == AsciiBytes(options)
  {
    Packet("RPTO", id, AsciiBytes(options))
  }

  /** `lastPacket.subarray(-4)`: the last four bytes of the stored ack, or all of it when shorter. */
  function Salt(lastPacket: bytes): (r: bytes)
    ensures |r| == if |lastPacket| < 4 then |lastPacket| else 4
    ensures r == lastPacket[|lastPacket| - |r|..]
  {
    Subarray(lastPacket, -4, |lastPacket|)
  }

  /**
    RPTK, the answer to the login challenge: the digest of the salt followed
    by the password. The hash function is a parameter; SHA-256 gives 32 bytes.
   */
  function EncodeRPTK(id: uint32, lastPacket: bytes, password: string, sha256: bytes -> bytes): (r: bytes)
    ensures |r| == 8 + |sha256(Salt(lastPacket) + AsciiBytes(password))|
    ensures r[..4] == [0x52, 0x50, 0x54, 0x4B]
    ensures BigEndian(r[4..8]) == id
    ensures r[8..] == sha256(Salt(lastPacket) + AsciiBytes(password))
    ensures |sha256(Salt(lastPacket) + AsciiBytes(password))| == 32 ==> |r| == 40
  {
    Packet("RPTK", id, sha256(Salt(lastPacket) + AsciiBytes(password)))
  }

  /** `s.padEnd(n, c)` then `Buffer.from`. */
  function PadEndBytes(s: string, n: nat, c: char): (r: bytes)
    ensures |r| == if |s| < n then n else |s|
  {
    AsciiBytes(PadEnd(s, n, c))
  }

  /** `s.padStart(n, c)` then `Buffer.from`. */
  function PadStartBytes(s: string, n: nat, c: char): (r: bytes)
    ensures |r| == if |s| < n then n else |s|
  {
    AsciiBytes(PadStart(s, n, c))
  }

  /** Width a padded field takes: its declared width, or more when the text is longer. */
  function Width(s: string, n: nat): nat
  {
    if |s| < n then n else |s|
  }

  /**
    RPTC, the configuration announcement, built field by field as the source
    concatenates them. Reading `callsign` or `url` through null throws.
   */
  function EncodeRPTC(c: Configuration, version: string): (res: Result<bytes>)
    ensures res.Ok? <==> c.callsign.Some? && c.url.Some?
    ensures res.Ok? ==> res.value == RptcBytes(c, version)
    ensures res.Ok? ==> (|res.value| ==
      4 + 4 + 8 + Width(c.freqRx, 9) + Width(c.freqTx, 9) + Width(c.txPower, 2)
      + Width(c.colourCode, 2) + Width(c.latitude, 8) + Width(c.longitude, 9)
      + Width(c.height, 3) + Width(c.location, 20) + Width(c.description, 20)
      + Width(c.url.value, 124) + 40 + 40)
  {
    if c.callsign.None? || c.url.None? then Err(TypeError)
    else
      RptcLength(c, version);
      Ok(RptcBytes(c, version))
  }

  /** `Buffer.concat(parts)`. */
  function Concat(parts: seq<bytes>): (r: bytes)
  {
    if |parts| == 0 then [] else Concat(parts[..|parts| - 1]) + parts[|parts| - 1]
  }

  /** The fifteen RPTC fields, in wire order. */
  function RptcParts(c: Configuration, version: string): (p: seq<bytes>)
    requires c.callsign.Some? && c.url.Some?
    ensures |p| == 15
  {
    [ AsciiBytes("RPTC"),
      Encode32(WireId(c)),
      AllocWrite(8, AsciiBytes(c.callsign.value)),
      PadEndBytes(c.freqRx, 9, '0'),
      PadEndBytes(c.freqTx, 9, '0'),
      PadStartBytes(c.txPower, 2, '0'),
      PadStartBytes(c.colourCode, 2, '0'),
      PadEndBytes(c.latitude, 8, '0'),
      PadEndBytes(c.longitude, 9, '0'),
      PadEndBytes(c.height, 3, '0'),
      PadEndBytes(c.location, 20, ' '),
      PadEndBytes(c.description, 20, ' '),
      PadEndBytes(c.url.value, 124, ' '),
      AllocWrite(SOFTWARE_ID_BYTES, AsciiBytes(SOFTWARE_ID)),
      AllocWrite(VERSION_BYTES, AsciiBytes(version)) ]
  }

  function RptcBytes(c: Configuration, version: string): bytes
    requires c.callsign.Some? && c.url.Some?
  {
    Concat(RptcParts(c, version))
  }

  /** Declared byte widths of the RPTC fields, and where each field starts. */
  const RPTC_WIDTHS: seq<nat> := [4, 4, 8, 9, 9, 2, 2, 8, 9, 3, 20, 20, 124, 40, 40]
  const RPTC_OFFSETS: seq<nat> := [0, 4, 8, 16, 25, 34, 36, 38, 46, 55, 58, 78, 98, 222, 262, 302]

  lemma {:induction false} ConcatLength(parts: seq<bytes>, widths: seq<nat>, offsets: seq<nat>, k: nat)
    requires |widths| == |parts| && |offsets| == |parts| + 1 && k <= |parts|
    requires offsets[0] == 0
    requires forall j {:trigger widths[j]} :: 0 <= j < |parts| ==> |parts[j]| == widths[j] && offsets[j + 1] == offsets[j] + widths[j]
    ensures |Concat(parts[..k])| == offsets[k]
  {
    if k > 0 {
      assert |parts[k - 1]| == widths[k - 1] && offsets[k] == offsets[k - 1] + widths[k - 1];
      ConcatLength(parts, widths, offsets, k - 1);
      assert parts[..k][..k - 1] == parts[..k - 1];
    }
  }

  /** The total length of the first k parts. */
  function PrefixLength(parts: seq<bytes>, k: nat): nat
    requires k <= |parts|
  {
    if k == 0 then 0 else PrefixLength(parts, k - 1) + |parts[k - 1]|
  }

  lemma {:induction false} ConcatPrefixLength(parts: seq<bytes>, k: nat)
    requires k <= |parts|
    ensures |Concat(parts[..k])| == PrefixLength(parts, k)
  {
    if k > 0 {
      ConcatPrefixLength(parts, k - 1);
      assert parts[..k][..k - 1] == parts[..k - 1];
    }
  }

  /** Fifteen parts' total length, term by term. */
  lemma PrefixLength15(parts: seq<bytes>)
    requires |parts| == 15
    ensures PrefixLength(parts, 15) ==
      |parts[0]| + |parts[1]| + |parts[2]| + |parts[3]| + |parts[4]| + |parts[5]| + |parts[6]| + |parts[7]|
      + |parts[8]| + |parts[9]| + |parts[10]| + |parts[11]| + |parts[12]| + |parts[13]| + |parts[14]|
  {
    assert PrefixLength(parts, 1) == |parts[0]|;
    assert PrefixLength(parts, 2) == PrefixLength(parts, 1) + |parts[1]|;
    assert PrefixLength(parts, 4) == PrefixLength(parts, 2) + |parts[2]| + |parts[3]|;
    assert PrefixLength(parts, 6) == PrefixLength(parts, 4) + |parts[4]| + |parts[5]|;
    assert PrefixLength(parts, 8) == PrefixLength(parts, 6) + |parts[6]| + |parts[7]|;
    assert PrefixLength(parts, 10) == PrefixLength(parts, 8) + |parts[8]| + |parts[9]|;
    assert PrefixLength(parts, 12) == PrefixLength(parts, 10) + |parts[10]| + |parts[11]|;
    assert PrefixLength(parts, 14) == PrefixLength(parts, 12) + |parts[12]| + |parts[13]|;
  }

  lemma {:induction false} ConcatPrefix(parts: seq<bytes>, k: nat)
    requires k <= |parts|
    ensures |Concat(parts[..k])| <= |Concat(parts)|
    ensures Concat(parts)[..|Concat(parts[..k])|] == Concat(parts[..k])
    decreases |parts| - k
  {
    if k < |parts| {
      var n := |parts|;
      assert parts[..n] == parts;
      ConcatPrefix(parts[..n - 1], k);
      assert parts[..n - 1][..k] == parts[..k];
    } else {
      assert parts[..k] == parts;
    }
  }

  /** Part k of a concatenation sits right after the parts before it. */
  lemma ConcatPart(parts: seq<bytes>, k: nat)
    requires k < |parts|
    ensures |Concat(parts[..k])| + |parts[k]| <= |Concat(parts)|
    ensures Concat(parts)[|Concat(parts[..k])|..|Concat(parts[..k])| + |parts[k]|] == parts[k]
  {
    ConcatPrefix(parts, k + 1);
    assert parts[..k + 1][..k] == parts[..k];
  }

  /** Every field is within its declared width, so none lengthens the packet. */
  predicate FieldsFit(c: Configuration)
  {
    && |c.freqRx| <= 9 && |c.freqTx| <= 9
    && |c.txPower| <= 2 && |c.colourCode| <= 2
    && |c.latitude| <= 8 && |c.longitude| <= 9 && |c.height| <= 3
    && |c.location| <= 20 && |c.description| <= 20
    && (c.url.Some? ==> |c.url.value| <= 124)
  }

  /** The field holds the text and is filled with `fill` after it. */
  predicate PaddedRight(field: bytes, s: string, fill: byte)
  {
    |s| <= |field| && field[..|s|] == AsciiBytes(s) && forall i :: |s| <= i < |field| ==> field[i] == fill
  }

  /** The field is filled with `fill` before the text, which ends it. */
  predicate PaddedLeft(field: bytes, s: string, fill: byte)
  {
    |s| <= |field| && field[|field| - |s|..] == AsciiBytes(s) && forall i :: 0 <= i < |field| - |s| ==> field[i] == fill
  }

  /** With every field within its width, the fields have exactly their declared widths. */
  lemma RptcPartsWidths(c: Configuration, version: string)
    requires c.callsign.Some? && c.url.Some? && FieldsFit(c)
    ensures forall j {:trigger RPTC_WIDTHS[j]} :: 0 <= j < 15 ==> |RptcParts(c, version)[j]| == RPTC_WIDTHS[j]
  {
  }

  /** The packet is as long as its fields, each at least its declared width. */
  lemma RptcLength(c: Configuration, version: string)
    requires c.callsign.Some? && c.url.Some?
    ensures |RptcBytes(c, version)| ==
      4 + 4 + 8 + Width(c.freqRx, 9) + Width(c.freqTx, 9) + Width(c.txPower, 2)
      + Width(c.colourCode, 2) + Width(c.latitude, 8) + Width(c.longitude, 9)
      + Width(c.height, 3) + Width(c.location, 20) + Width(c.description, 20)
      + Width(c.url.value, 124) + 40 + 40
  {
    var parts := RptcParts(c, version);
    ConcatPrefixLength(parts, 15);
    PrefixLength15(parts);
    assert parts[..15] == parts;
  }

  /** Part k of the RPTC fields occupies bytes RPTC_OFFSETS[k] up to RPTC_OFFSETS[k + 1] of r. */
  predicate FieldAt(r: bytes, parts: seq<bytes>, k: int)
  {
    && 0 <= k < |parts| && k + 1 < |RPTC_OFFSETS|
    && RPTC_OFFSETS[k] <= RPTC_OFFSETS[k + 1] <= |r|
    && r[RPTC_OFFSETS[k]..RPTC_OFFSETS[k + 1]] == parts[k]
  }

  /** Fifteen parts of the declared widths concatenate to 302 bytes, part k at RPTC_OFFSETS[k]. */
  lemma ConcatFields(parts: seq<bytes>)
    requires |parts| == 15
    requires forall j {:trigger RPTC_WIDTHS[j]} :: 0 <= j < 15 ==> |parts[j]| == RPTC_WIDTHS[j]
    ensures |Concat(parts)| == 302
    ensures forall k :: 0 <= k < 15 ==> FieldAt(Concat(parts), parts, k)
  {
    assert forall j {:trigger RPTC_WIDTHS[j]} :: 0 <= j < 15 ==> RPTC_OFFSETS[j + 1] == RPTC_OFFSETS[j] + RPTC_WIDTHS[j];
    ConcatLength(parts, RPTC_WIDTHS, RPTC_OFFSETS, 15);
    assert parts[..15] == parts;
    forall k | 0 <= k < 15
      ensures FieldAt(Concat(parts), parts, k)
    {
      assert |parts[k]| == RPTC_WIDTHS[k];
      ConcatLength(parts, RPTC_WIDTHS, RPTC_OFFSETS, k);
      ConcatPart(parts, k);
    }
  }

  /** With every field within its width, RPTC is exactly 302 bytes and field k occupies bytes RPTC_OFFSETS[k] up to RPTC_OFFSETS[k + 1]. */
  lemma RptcLayout(c: Configuration, version: string)
    requires c.callsign.Some? && c.url.Some? && FieldsFit(c)
    ensures |RptcBytes(c, version)| == 302
    ensures forall k :: 0 <= k < 15 ==>
      FieldAt(RptcBytes(c, version), RptcParts(c, version), k)
  {
    var parts := RptcParts(c, version);
    assert RptcBytes(c, version) == Concat(parts);
    RptcPartsWidths(c, version);
    ConcatFields(parts);
  }

  /**
    What the fixed-size RPTC fields hold: the signature, the big-endian id,
    and the callsign, software id and version each followed by NUL bytes.
   */
  lemma RptcFixedFields(c: Configuration, version: string)
    requires c.callsign.Some? && c.url.Some?
    requires |c.callsign.value| <= 8 && |version| <= 40
    ensures var p := RptcParts(c, version);
      && p[0] == [0x52, 0x50, 0x54, 0x43]
      && BigEndian(p[1]) == WireId(c)
      && PaddedRight(p[2], c.callsign.value, 0)
      && PaddedRight(p[13], SOFTWARE_ID, 0)
      && PaddedRight(p[14], version, 0)
  {
    var p := RptcParts(c, version);
    RptcSignature();
    assert p[0] == AsciiBytes("RPTC");
    assert p[1] == Encode32(WireId(c));
    AllocWriteField(8, c.callsign.value);
    assert |SOFTWARE_ID| == 16;
    AllocWriteField(SOFTWARE_ID_BYTES, SOFTWARE_ID);
    AllocWriteField(VERSION_BYTES, version);
  }

  /**
    What the padded RPTC text fields hold: each text followed by '0' for the
    frequencies and coordinates, preceded by '0' for power and colour code,
    and followed by spaces for location, description and url.
   */
  /** RPTC's frequency and position fields are the configured texts followed by '0's. */
  lemma RptcZeroPaddedFields(c: Configuration, version: string)
    requires c.callsign.Some? && c.url.Some?
    ensures var p := RptcParts(c, version);
      && PaddedRight(p[3], c.freqRx, '0' as int)
      && PaddedRight(p[4], c.freqTx, '0' as int)
      && PaddedRight(p[7], c.latitude, '0' as int)
      && PaddedRight(p[8], c.longitude, '0' as int)
      && PaddedRight(p[9], c.height, '0' as int)
  {
    PadEndField(c.freqRx, 9, '0');
    PadEndField(c.freqTx, 9, '0');
    PadEndField(c.latitude, 8, '0');
    PadEndField(c.longitude, 9, '0');
    PadEndField(c.height, 3, '0');
  }

  /** RPTC's power and colour code fields are the configured texts after '0's. */
  lemma RptcLeftPaddedFields(c: Configuration, version: string)
    requires c.callsign.Some? && c.url.Some?
    ensures var p := RptcParts(c, version);
      && PaddedLeft(p[5], c.txPower, '0' as int)
      && PaddedLeft(p[6], c.colourCode, '0' as int)
  {
    PadStartField(c.txPower, 2, '0');
    PadStartField(c.colourCode, 2, '0');
  }

  /** RPTC's location, description and URL fields are the configured texts followed by spaces. */
  lemma RptcTextFields(c: Configuration, version: string)
    requires c.callsign.Some? && c.url.Some?
    ensures var p := RptcParts(c, version);
      && PaddedRight(p[10], c.location, ' ' as int)
      && PaddedRight(p[11], c.description, ' ' as int)
      && PaddedRight(p[12], c.url.value, ' ' as int)
  {
    PadEndField(c.location, 20, ' ');
    PadEndField(c.description, 20, ' ');
    PadEndField(c.url.value, 124, ' ');
  }

  lemma RptcPaddedFields(c: Configuration, version: string)
    requires c.callsign.Some? && c.url.Some?
    ensures var p := RptcParts(c, version);
      && PaddedRight(p[3], c.freqRx, '0' as int)
      && PaddedRight(p[4], c.freqTx, '0' as int)
      && PaddedLeft(p[5], c.txPower, '0' as int)
      && PaddedLeft(p[6], c.colourCode, '0' as int)
      && PaddedRight(p[7], c.latitude, '0' as int)
      && PaddedRight(p[8], c.longitude, '0' as int)
      && PaddedRight(p[9], c.height, '0' as int)
      && PaddedRight(p[10], c.location, ' ' as int)
      && PaddedRight(p[11], c.description, ' ' as int)
      && PaddedRight(p[12], c.url.value, ' ' as int)
  {
    RptcZeroPaddedFields(c, version);
    RptcLeftPaddedFields(c, version);
    RptcTextFields(c, version);
  }

  /**
    `setFreq` feeds RPTC's two frequency fields: each new frequency is sent
    followed by '0's, and every other field is as before.
   */
  lemma SetFreqFeedsRptc(c: Configuration, receive: string, transmit: string, version: string)
    requires c.callsign.Some? && c.url.Some?
    ensures var p := RptcParts(SetFreq(c, receive, transmit), version);
      && PaddedRight(p[3], receive, '0' as int)
      && PaddedRight(p[4], transmit, '0' as int)
      && p[..3] == RptcParts(c, version)[..3]
      && p[5..] == RptcParts(c, version)[5..]
  {
    PadEndField(receive, 9, '0');
    PadEndField(transmit, 9, '0');
  }

  /** `setPower` feeds RPTC's power field: the power is sent after '0's, and every other field is as before. */
  lemma SetPowerFeedsRptc(c: Configuration, txPower: string, version: string)
    requires c.callsign.Some? && c.url.Some?
    ensures var p := RptcParts(SetPower(c, txPower), version);
      && PaddedLeft(p[5], txPower, '0' as int)
      && p[..5] == RptcParts(c, version)[..5]
      && p[6..] == RptcParts(c, version)[6..]
  {
    PadStartField(txPower, 2, '0');
  }

  /** `setColourCode` feeds RPTC's colour code field: the code is sent after '0's, and every other field is as before. */
  lemma SetColourCodeFeedsRptc(c: Configuration, colourCode: string, version: string)
    requires c.callsign.Some? && c.url.Some?
    ensures var p := RptcParts(SetColourCode(c, colourCode), version);
      && PaddedLeft(p[6], colourCode, '0' as int)
      && p[..6] == RptcParts(c, version)[..6]
      && p[7..] == RptcParts(c, version)[7..]
  {
    PadStartField(colourCode, 2, '0');
  }

  lemma RptcSignature()
    ensures AsciiBytes("RPTC") == [0x52, 0x50, 0x54, 0x43]
  {
  }

  lemma AllocWriteField(n: nat, s: string)
    requires |s| <= n
    ensures PaddedRight(AllocWrite(n, AsciiBytes(s)), s, 0)
  {
  }

  lemma PadEndField(s: string, n: nat, c: char)
    requires c as int < 256
    ensures PaddedRight(PadEndBytes(s, n, c), s, c as int)
  {
    var p := PadEnd(s, n, c);
    AsciiBytesPrefix(p, |s|);
  }

  lemma PadStartField(s: string, n: nat, c: char)
    requires c as int < 256
    ensures PaddedLeft(PadStartBytes(s, n, c), s, c as int)
  {
    var p := PadStart(s, n, c);
    assert AsciiBytes(p)[|p| - |s|..] == AsciiBytes(p[|p| - |s|..]);
  }
}
