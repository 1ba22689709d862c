/**
  `utils.BufferReader`: a byte buffer with a cursor. Every read either starts
  at an explicit offset or at the cursor, and leaves the cursor just past
  what it read. The reader is a value here; each operation returns the
  reader it leaves behind. The cursor is any integer, as in the source,
  where `seek` accepts whatever it is given.
 */
module Reader {
  import opened Errors
  import opened Bytes

  datatype BufferReader = BufferReader(buffer: bytes, cursor: int)

  /** `new BufferReader(buffer)`: the cursor starts at 0. */
  function Open(buffer: bytes): BufferReader
  {
    BufferReader(buffer, 0)
  }

  function Tell(r: BufferReader): int
  {
    r.cursor
  }

  function Seek(r: BufferReader, offset: int): (r': BufferReader)
    ensures Tell(r') == offset
    ensures r'.buffer == r.buffer
  {
    r.(cursor := offset)
  }

  lemma SeekThenTell(r: BufferReader, offset: int)
    ensures Tell(Seek(r, offset)) == offset
    ensures Seek(Seek(r, offset), Tell(r)) == r
  {
  }

  /** What a cursor-advancing extraction returns: the bytes taken and the reader left behind. */
  datatype Taken = Taken(data: bytes, reader: BufferReader)

  /** Where a `slice` or `toString` ends: `length` past the cursor, or the buffer's end when absent. */
  function SliceEnd(r: BufferReader, length: Option<int>): int
  {
    match length
    case Some(n) => r.cursor + n
    case None => |r.buffer|
  }

  /**
    `slice(length)`: the bytes from the cursor up to `cursor + length`, clipped
    to the buffer; the cursor moves to `cursor + length` even past the end.
    Without a length it takes the rest of the buffer.
   */
  function Slice(r: BufferReader, length: Option<int>): (t: Taken)
    ensures t.reader.buffer == r.buffer
    ensures length.Some? ==> Tell(t.reader) == Tell(r) + length.value
    ensures length.None? ==> Tell(t.reader) == |r.buffer|
    ensures 0 <= r.cursor <= |r.buffer| && length.Some? && 0 <= length.value ==>
      t.data == r.buffer[r.cursor..if r.cursor + length.value <= |r.buffer| then r.cursor + length.value else |r.buffer|]
    ensures 0 <= r.cursor <= |r.buffer| && length.None? ==> t.data == r.buffer[r.cursor..]
    ensures |r.buffer| <= r.cursor ==> t.data == []
  {
    var end := SliceEnd(r, length);
    Taken(Subarray(r.buffer, r.cursor, end), Seek(r, end))
  }

  datatype Encoding = Utf8 | Ascii | Hex

  /**
    Text of the bytes in the given encoding. Utf8 and Ascii are both taken
    as one character per byte, which is what Node produces for bytes below
    0x80; multi-byte UTF-8 sequences and invalid bytes are not decoded.
   */
  function Decode(b: bytes, encoding: Encoding): string
  {
    match encoding
    case Hex => Bytes.Hex(b)
    case _ => AsciiString(b)
  }

  /** What `toString` returns: the text and the reader left behind. */
  datatype Text = Text(text: string, reader: BufferReader)

  /** `toString(encoding, length)`: the bytes `slice(length)` would take, decoded; the cursor moves the same way. */
  function ToString(r: BufferReader, encoding: Encoding, length: Option<int>): (t: Text)
    ensures t.reader == Slice(r, length).reader
    ensures encoding == Hex ==> t.text == Bytes.Hex(Slice(r, length).data)
    ensures encoding != Hex ==> |t.text| == |Slice(r, length).data|
  {
    var end := SliceEnd(r, length);
    Text(Decode(Subarray(r.buffer, r.cursor, end), encoding), Seek(r, end))
  }

  /** What an integer read returns: the value and the reader left behind. */
  datatype Read = Read(value: int, reader: BufferReader)

  /** An explicit offset wins over the cursor. */
  function Start(r: BufferReader, offset: Option<int>): int
  {
    offset.GetOr(r.cursor)
  }

  predicate InBounds(r: BufferReader, start: int, width: nat)
  {
    0 <= start && start + width <= |r.buffer|
  }

  /** Two's complement of an unsigned `width`-byte value. */
  function Signed(u: nat, width: nat): int
  {
    if 2 * u >= Pow256(width) then u - Pow256(width) else u
  }

  /**
    The shared shape of every integer read: Node's Buffer throws a RangeError
    when the `width` bytes do not lie inside the buffer; otherwise the value
    is read in the given byte order and signedness and the cursor is set to
    just past it.
   */
  function ReadInteger(r: BufferReader, offset: Option<int>, width: nat, littleEndian: bool, signed: bool): (res: Result<Read>)
    ensures res.Ok? <==> InBounds(r, Start(r, offset), width)
    ensures res.Ok? ==> res.value.reader == Seek(r, Start(r, offset) + width)
  {
    var start := Start(r, offset);
    if !InBounds(r, start, width) then Err(RangeError)
    else
      var raw := r.buffer[start..start + width];
      var u := if littleEndian then LittleEndian(raw) else BigEndian(raw);
      Ok(Read(if signed then Signed(u, width) else u, Seek(r, start + width)))
  }

  function ReadUInt8(r: BufferReader, offset: Option<int>): (res: Result<Read>)
    ensures res.Ok? <==> InBounds(r, Start(r, offset), 1)
    ensures res.Ok? ==> Tell(res.value.reader) == Start(r, offset) + 1
    ensures res.Ok? ==> res.value.reader.buffer == r.buffer
    ensures res.Ok? ==> res.value.value == r.buffer[Start(r, offset)]
  {
    var res := ReadInteger(r, offset, 1, false, false);
    if res.Ok? then
      var s := Start(r, offset);
      var raw := r.buffer[s..s + 1];
      assert raw[..0] == [];
      assert BigEndian(raw) == raw[0];
      assert Pow256(1) == 256;
      res
    else res
  }

  function ReadInt8(r: BufferReader, offset: Option<int>): (res: Result<Read>)
    ensures res.Ok? <==> InBounds(r, Start(r, offset), 1)
    ensures res.Ok? ==> Tell(res.value.reader) == Start(r, offset) + 1
    ensures res.Ok? ==> res.value.reader.buffer == r.buffer
    ensures res.Ok? ==> var u := r.buffer[Start(r, offset)] as int;
      res.value.value == if u >= 0x80 then u - 0x100 else u
    ensures res.Ok? ==> -0x80 <= res.value.value < 0x80
  {
    var res := ReadInteger(r, offset, 1, false, true);
    if res.Ok? then
      var s := Start(r, offset);
      var raw := r.buffer[s..s + 1];
      assert raw[..0] == [];
      assert BigEndian(raw) == raw[0];
      assert Pow256(1) == 256;
      res
    else res
  }

  function ReadUInt16BE(r: BufferReader, offset: Option<int>): (res: Result<Read>)
    ensures res.Ok? <==> InBounds(r, Start(r, offset), 2)
    ensures res.Ok? ==> Tell(res.value.reader) == Start(r, offset) + 2
    ensures res.Ok? ==> res.value.reader.buffer == r.buffer
    ensures res.Ok? ==> var s := Start(r, offset);
      res.value.value == (r.buffer[s] as int) * 0x100 + r.buffer[s + 1]
    ensures res.Ok? ==> 0 <= res.value.value < 0x1_0000
  {
    var res := ReadInteger(r, offset, 2, false, false);
    if res.Ok? then
      var s := Start(r, offset);
      BigEndian2(r.buffer[s..s + 2]);
      res
    else res
  }

  function ReadUInt16LE(r: BufferReader, offset: Option<int>): (res: Result<Read>)
    ensures res.Ok? <==> InBounds(r, Start(r, offset), 2)
    ensures res.Ok? ==> Tell(res.value.reader) == Start(r, offset) + 2
    ensures res.Ok? ==> res.value.reader.buffer == r.buffer
    ensures res.Ok? ==> var s := Start(r, offset);
      res.value.value == (r.buffer[s + 1] as int) * 0x100 + r.buffer[s]
    ensures res.Ok? ==> 0 <= res.value.value < 0x1_0000
  {
    var res := ReadInteger(r, offset, 2, true, false);
    if res.Ok? then
      var s := Start(r, offset);
      LittleEndian2(r.buffer[s..s + 2]);
      res
    else res
  }

  function ReadInt16BE(r: BufferReader, offset: Option<int>): (res: Result<Read>)
    ensures res.Ok? <==> InBounds(r, Start(r, offset), 2)
    ensures res.Ok? ==> Tell(res.value.reader) == Start(r, offset) + 2
    ensures res.Ok? ==> res.value.reader.buffer == r.buffer
    ensures res.Ok? ==> var s := Start(r, offset);
      var u := (r.buffer[s] as int) * 0x100 + r.buffer[s + 1];
      res.value.value == if u >= 0x8000 then u - 0x1_0000 else u
    ensures res.Ok? ==> -0x8000 <= res.value.value < 0x8000
  {
    var res := ReadInteger(r, offset, 2, false, true);
    if res.Ok? then
      var s := Start(r, offset);
      BigEndian2(r.buffer[s..s + 2]);
      res
    else res
  }

  function ReadInt16LE(r: BufferReader, offset: Option<int>): (res: Result<Read>)
    ensures res.Ok? <==> InBounds(r, Start(r, offset), 2)
    ensures res.Ok? ==> Tell(res.value.reader) == Start(r, offset) + 2
    ensures res.Ok? ==> res.value.reader.buffer == r.buffer
    ensures res.Ok? ==> var s := Start(r, offset);
      var u := (r.buffer[s + 1] as int) * 0x100 + r.buffer[s];
      res.value.value == if u >= 0x8000 then u - 0x1_0000 else u
    ensures res.Ok? ==> -0x8000 <= res.value.value < 0x8000
  {
    var res := ReadInteger(r, offset, 2, true, true);
    if res.Ok? then
      var s := Start(r, offset);
      LittleEndian2(r.buffer[s..s + 2]);
      res
    else res
  }

  function ReadUInt32BE(r: BufferReader, offset: Option<int>): (res: Result<Read>)
    ensures res.Ok? <==> InBounds(r, Start(r, offset), 4)
    ensures res.Ok? ==> Tell(res.value.reader) == Start(r, offset) + 4
    ensures res.Ok? ==> res.value.reader.buffer == r.buffer
    ensures res.Ok? ==> var s := Start(r, offset);
      res.value.value == (r.buffer[s] as int) * 0x100_0000 + (r.buffer[s + 1] as int) * 0x1_0000
                         + (r.buffer[s + 2] as int) * 0x100 + r.buffer[s + 3]
    ensures res.Ok? ==> 0 <= res.value.value < UINT32_LIMIT
  {
    var res := ReadInteger(r, offset, 4, false, false);
    if res.Ok? then
      var s := Start(r, offset);
      BigEndian4(r.buffer[s..s + 4]);
      res
    else res
  }

  function ReadUInt32LE(r: BufferReader, offset: Option<int>): (res: Result<Read>)
    ensures res.Ok? <==> InBounds(r, Start(r, offset), 4)
    ensures res.Ok? ==> Tell(res.value.reader) == Start(r, offset) + 4
    ensures res.Ok? ==> res.value.reader.buffer == r.buffer
    ensures res.Ok? ==> var s := Start(r, offset);
      res.value.value == (r.buffer[s + 3] as int) * 0x100_0000 + (r.buffer[s + 2] as int) * 0x1_0000
                         + (r.buffer[s + 1] as int) * 0x100 + r.buffer[s]
    ensures res.Ok? ==> 0 <= res.value.value < UINT32_LIMIT
  {
    var res := ReadInteger(r, offset, 4, true, false);
    if res.Ok? then
      var s := Start(r, offset);
      LittleEndian4(r.buffer[s..s + 4]);
      res
    else res
  }

  function ReadInt32BE(r: BufferReader, offset: Option<int>): (res: Result<Read>)
    ensures res.Ok? <==> InBounds(r, Start(r, offset), 4)
    ensures res.Ok? ==> Tell(res.value.reader) == Start(r, offset) + 4
    ensures res.Ok? ==> res.value.reader.buffer == r.buffer
    ensures res.Ok? ==> var s := Start(r, offset);
      var u := (r.buffer[s] as int) * 0x100_0000 + (r.buffer[s + 1] as int) * 0x1_0000
               + (r.buffer[s + 2] as int) * 0x100 + r.buffer[s + 3];
      res.value.value == if u >= 0x8000_0000 then u - UINT32_LIMIT else u
    ensures res.Ok? ==> -0x8000_0000 <= res.value.value < 0x8000_0000
  {
    var res := ReadInteger(r, offset, 4, false, true);
    if res.Ok? then
      var s := Start(r, offset);
      BigEndian4(r.buffer[s..s + 4]);
      res
    else res
  }

  function ReadInt32LE(r: BufferReader, offset: Option<int>): (res: Result<Read>)
    ensures res.Ok? <==> InBounds(r, Start(r, offset), 4)
    ensures res.Ok? ==> Tell(res.value.reader) == Start(r, offset) + 4
    ensures res.Ok? ==> res.value.reader.buffer == r.buffer
    ensures res.Ok? ==> var s := Start(r, offset);
      var u := (r.buffer[s + 3] as int) * 0x100_0000 + (r.buffer[s + 2] as int) * 0x1_0000
               + (r.buffer[s + 1] as int) * 0x100 + r.buffer[s];
      res.value.value == if u >= 0x8000_0000 then u - UINT32_LIMIT else u
    ensures res.Ok? ==> -0x8000_0000 <= res.value.value < 0x8000_0000
  {
    var res := ReadInteger(r, offset, 4, true, true);
    if res.Ok? then
      var s := Start(r, offset);
      LittleEndian4(r.buffer[s..s + 4]);
      res
    else res
  }

  /** `utils.hexUInt32BE(value)`: writeUInt32BE throws outside [0, 2^32); otherwise the hex of the four bytes. */
  function HexUInt32BE(value: int): (res: Result<string>)
    ensures res.Ok? <==> 0 <= value < UINT32_LIMIT
    ensures res.Ok? ==> |res.value| == 8 && IsLowerHex(res.value)
    ensures res.Ok? ==> ParseHex(res.value) == value
  {
    if 0 <= value < UINT32_LIMIT then
      var b := Encode32(value);
      HexIsLowerHex(b);
      ParseHexOfHex(b);
      Ok(Bytes.Hex(b))
    else Err(RangeError)
  }
}
