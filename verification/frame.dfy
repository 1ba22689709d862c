/**
  `DMRDataFrame`: an inbound DMRD datagram read field by field through a
  `BufferReader`, and the details byte unpacked with `readBit`.
 */
module Frame {
  import opened Errors
  import opened Bytes
  import opened Bits
  import opened Reader

  datatype CallType = Group | Private

  datatype FrameType = Voice | VoiceSync | DataSync

  /** The unpacked details byte; an unknown frame type is `None` (null in the source). */
  datatype Details = Details(timeslot: int, callType: CallType, frameType: Option<FrameType>)

  datatype DataFrame = DataFrame(
    signature: string,
    sequence: int,
    sourceId: int,
    destId: int,
    radioId: int,
    details: Details,
    streamId: bytes,
    data: bytes)

  /**
    The meaning of a details byte b, by arithmetic: bit value 1 selects
    timeslot 2, bit value 2 a private call, and the bits of value 8 and 4,
    read in that order, the frame type 00 voice, 01 voice sync, 10 data sync,
    11 unknown.
   */
  function DetailsOf(b: byte): Details
  {
    var high := (b / 8) % 2;
    var low := (b / 4) % 2;
    Details(
      if b % 2 == 1 then 2 else 1,
      if (b / 2) % 2 == 1 then Private else Group,
      if high == 0 && low == 0 then Some(Voice)
      else if high == 0 then Some(VoiceSync)
      else if low == 0 then Some(DataSync)
      else None)
  }

  /** The frame-type text "00", "01", "10" or anything else. */
  function FrameTypeOf(code: string): Option<FrameType>
  {
    if code == "00" then Some(Voice)
    else if code == "01" then Some(VoiceSync)
    else if code == "10" then Some(DataSync)
    else None
  }

  lemma LowBits(b: byte)
    ensures BitOf(b, 0) == b % 2
    ensures BitOf(b, 1) == (b / 2) % 2
    ensures BitOf(b, 2) == (b / 4) % 2
    ensures BitOf(b, 3) == (b / 8) % 2
  {
    assert b / 2 / 2 == b / 4;
    assert b / 2 / 2 / 2 == b / 8;
  }

  /** The two frame-type characters select the type the bits' values name. */
  lemma FrameTypeCode(high: int, low: int)
    requires 0 <= high < 2 && 0 <= low < 2
    ensures FrameTypeOf([Digit(high)] + [Digit(low)])
         == if high == 0 && low == 0 then Some(Voice)
            else if high == 0 then Some(VoiceSync)
            else if low == 0 then Some(DataSync)
            else None
  {
    var code := [Digit(high)] + [Digit(low)];
    assert code[0] == Digit(high) && code[1] == Digit(low);
    assert "00"[0] == '0' && "01"[1] == '1' && "10"[0] == '1';
  }

  /** The four bits the details reader looks at, as characters. */
  lemma DetailBits(buffer: bytes)
    requires |buffer| > 0
    ensures ReadBit(7, buffer) == Ok([Digit(buffer[0] % 2)])
    ensures ReadBit(6, buffer) == Ok([Digit((buffer[0] / 2) % 2)])
    ensures ReadBit(5, buffer) == Ok([Digit((buffer[0] / 4) % 2)])
    ensures ReadBit(4, buffer) == Ok([Digit((buffer[0] / 8) % 2)])
  {
    ReadBitIsMsbFirst(7, buffer);
    ReadBitIsMsbFirst(6, buffer);
    ReadBitIsMsbFirst(5, buffer);
    ReadBitIsMsbFirst(4, buffer);
    LowBits(buffer[0]);
  }

  /**
    `_readDMRDDetails(buffer)`: readBit(7), readBit(6), readBit(4) and
    readBit(5) of the buffer, compared the way the source compares them
    (`"1" == 1`, and `"" == 0` as well as `"0" == 0`). On a non-empty buffer
    this is the meaning of its first byte; an empty one throws.
   */
  function ReadDetails(buffer: bytes): (res: Result<Details>)
    ensures |buffer| == 0 ==> res == Err(SyntaxError)
    ensures |buffer| > 0 ==> res == Ok(DetailsOf(buffer[0]))
  {
    if |buffer| == 0 then
      ReadBitIsMsbFirst(7, buffer);
      Err(SyntaxError)
    else
      DetailBits(buffer);
      FrameTypeCode((buffer[0] / 8) % 2, (buffer[0] / 4) % 2);
      assert [Digit(1)] == "1" && [Digit(0)] == "0";
      var ts := ReadBit(7, buffer).value;
      var ctype := ReadBit(6, buffer).value;
      var f4 := ReadBit(4, buffer).value;
      var f5 := ReadBit(5, buffer).value;
      Ok(Details(
        if ts == "1" then 2 else 1,
        if ctype == "0" || ctype == "" then Group else Private,
        FrameTypeOf(f4 + f5)))
  }

  /** The 24-bit big-endian id in three bytes, as `parseInt("0x" + hex)` reads it. */
  function HexId(b: bytes): (id: nat)
    requires |b| == 3
    ensures id == BigEndian(b)
    ensures id == (b[0] as int) * 0x1_0000 + (b[1] as int) * 256 + b[2]
  {
    ParseHexOfHex(b);
    BigEndian3(b);
    ParseHex(Bytes.Hex(b))
  }

  /**
    The fields of a DMRD datagram by their fixed offsets: signature 0..4,
    sequence 4, source 5..8, destination 8..11, radio id 11..15, details 15,
    stream id 16..20 and payload 20..53, the last two cut short by the end of
    the datagram. The ids are big-endian.
   */
  function FrameAt(b: bytes): DataFrame
    requires |b| >= 16
  {
    DataFrame(AsciiString(b[..4]), b[4], BigEndian(b[5..8]), BigEndian(b[8..11]), BigEndian(b[11..15]),
              DetailsOf(b[15]), b[16..if |b| < 20 then |b| else 20],
              if |b| <= 20 then [] else b[20..if |b| < 53 then |b| else 53])
  }

  /**
    `new DMRDataFrame(buffer)`: the fields read in order through one cursor.
    The four signature bytes are decoded but not checked. A datagram shorter
    than 15 bytes makes an integer read throw; one of exactly 15 bytes hands
    an empty details slice to `readBit`, which throws; every longer one
    decodes, with the stream id and the payload cut short by the end of the
    datagram (the payload is at most 33 bytes).
   */
  function DecodeFrame(buffer: bytes): (res: Result<DataFrame>)
    ensures |buffer| < 15 ==> res == Err(RangeError)
    ensures |buffer| == 15 ==> res == Err(SyntaxError)
    ensures |buffer| >= 16 ==> res == Ok(FrameAt(buffer))
  {
    var signature := ToString(Open(buffer), Utf8, Some(4));
    assert signature.reader == BufferReader(buffer, 4);
    var sequence :- ReadUInt8(signature.reader, None);
    assert sequence.reader == BufferReader(buffer, 5);
    var source := Slice(sequence.reader, Some(3));
    assert source.reader == BufferReader(buffer, 8);
    var dest := Slice(source.reader, Some(3));
    assert dest.reader == BufferReader(buffer, 11);
    var radioId :- ReadUInt32BE(dest.reader, None);
    assert radioId.reader == BufferReader(buffer, 15);
    assert source.data == buffer[5..8] && dest.data == buffer[8..11];
    BigEndian4(buffer[11..15]);
    var details := Slice(radioId.reader, Some(1));
    assert details.reader == BufferReader(buffer, 16);
    assert details.data == if |buffer| == 15 then [] else buffer[15..16];
    var unpacked :- ReadDetails(details.data);
    var stream := Slice(details.reader, Some(4));
    assert stream.reader == BufferReader(buffer, 20);
    var payload := Slice(stream.reader, Some(33));
    Ok(DataFrame(signature.text, sequence.value, HexId(source.data), HexId(dest.data),
                 radioId.value, unpacked, stream.data, payload.data))
  }

  /**
    The DMRD layout the decoder expects: signature, sequence, 24-bit source
    and destination ids, radio id, details byte, four stream-id bytes, and a
    payload of at most 33 bytes.
   */
  function EncodeFrame(signature: bytes, sequence: byte, sourceId: nat, destId: nat, radioId: uint32,
                       details: byte, streamId: bytes, data: bytes): (r: bytes)
    requires |signature| == 4 && |streamId| == 4
    ensures |r| == 20 + |data|
  {
    signature + [sequence] + EncodeBE(sourceId, 3) + EncodeBE(destId, 3) + Encode32(radioId)
    + [details] + streamId + data
  }

  /** Where each field lands in the laid-out datagram. */
  lemma FrameLayout(signature: bytes, sequence: byte, sourceId: nat, destId: nat, radioId: uint32,
                    details: byte, streamId: bytes, data: bytes)
    requires |signature| == 4 && |streamId| == 4
    ensures var b := EncodeFrame(signature, sequence, sourceId, destId, radioId, details, streamId, data);
      && b[..4] == signature && b[4] == sequence
      && b[5..8] == EncodeBE(sourceId, 3) && b[8..11] == EncodeBE(destId, 3)
      && b[11..15] == Encode32(radioId) && b[15] == details
      && b[16..20] == streamId && b[20..] == data
  {
    var b := EncodeFrame(signature, sequence, sourceId, destId, radioId, details, streamId, data);
    assert b[4] == sequence && b[15] == details;
  }

  /** Reading a laid-out datagram at the fixed offsets gives back every field. */
  lemma FrameAtEncodeFrame(signature: bytes, sequence: byte, sourceId: nat, destId: nat, radioId: uint32,
                           details: byte, streamId: bytes, data: bytes)
    requires |signature| == 4 && |streamId| == 4 && |data| <= 33
    requires sourceId < 0x100_0000 && destId < 0x100_0000
    ensures FrameAt(EncodeFrame(signature, sequence, sourceId, destId, radioId, details, streamId, data))
         == DataFrame(AsciiString(signature), sequence, sourceId, destId, radioId,
                      DetailsOf(details), streamId, data)
  {
    var b := EncodeFrame(signature, sequence, sourceId, destId, radioId, details, streamId, data);
    FrameLayout(signature, sequence, sourceId, destId, radioId, details, streamId, data);
    assert Pow256(3) == 0x100_0000;
    BigEndianOfEncodeBE(sourceId, 3);
    BigEndianOfEncodeBE(destId, 3);
    var f := FrameAt(b);
    assert f.sourceId == sourceId && f.destId == destId && f.radioId == radioId;
    assert f.streamId == streamId && f.data == data;
  }

  /** Decoding a laid-out datagram gives back every field; the details byte comes back unpacked. */
  lemma DecodeEncodeFrame(signature: bytes, sequence: byte, sourceId: nat, destId: nat, radioId: uint32,
                          details: byte, streamId: bytes, data: bytes)
    requires |signature| == 4 && |streamId| == 4 && |data| <= 33
    requires sourceId < 0x100_0000 && destId < 0x100_0000
    ensures DecodeFrame(EncodeFrame(signature, sequence, sourceId, destId, radioId, details, streamId, data))
         == Ok(DataFrame(AsciiString(signature), sequence, sourceId, destId, radioId,
                         DetailsOf(details), streamId, data))
  {
    FrameAtEncodeFrame(signature, sequence, sourceId, destId, radioId, details, streamId, data);
  }

  /**
    `getStreamId`: the stored stream id as lower-case hex, two digits per
    byte, which parses back to its big-endian value. The other getters
    return their stored field as it is.
   */
  function StreamIdText(frame: DataFrame): (r: string)
    ensures |r| == 2 * |frame.streamId|
    ensures IsLowerHex(r)
    ensures ParseHex(r) == BigEndian(frame.streamId)
  {
    HexIsLowerHex(frame.streamId);
    ParseHexOfHex(frame.streamId);
    Bytes.Hex(frame.streamId)
  }
}
