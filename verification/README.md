# node-dmr-gateway protocol engine in Dafny

This project models the protocol engine of node-dmr-gateway. That is a
client for the DMRplus "IPSC Protocol for HB repeater" (Homebrew
repeater protocol): it logs a repeater into a DMR master server over
UDP, keeps the session alive with pings, and decodes inbound `DMRD`
voice/data frames. The model follows `src/DMRGateway.js` and
`src/utils.js`:

- **Bytes** (`bytes.dfy`): big/little-endian integers, Node's
  `Buffer.subarray` index rules, JavaScript `padEnd`/`padStart` (which never
  truncate), `Buffer.alloc(n).write(s)`, ASCII conversion, `Buffer.indexOf`,
  and the `toString("hex")`/`parseInt("0x" + …)` pair.
- **Bits** (`bits.dfy`): `readBit`, modelled literally. A BigInt is rendered
  in binary, padded with zeros to the buffer's bit width, and one character
  is taken. Bits count from the most significant bit. An empty buffer throws
  a `SyntaxError` (`BigInt("0x")`).
- **Reader** (`reader.dfy`): `BufferReader` with its cursor.
  - `tell` returns the cursor and `seek` sets it. `slice` and `toString` move
    the cursor to start + length, even past the end of the buffer.
  - The ten integer reads read at an explicit offset or at the cursor. Out of
    bounds they throw a `RangeError`; signed reads use two's complement.
  - `hexUInt32BE` is also here.
- **Config** (`config.dfy`): the `Configuration` record, its defaults and its
  setters. The setters do the truncation, the url default and the
  truthiness-guarded overrides.
- **Packets** (`packets.dfy`): the control packets RPTL, RPTK, RPTC, RPTO,
  RPTPING and RPTCL, byte for byte. This includes the 302-byte RPTC layout
  and how oversized fields lengthen it.
- **Frame** (`frame.dfy`): `DMRDataFrame` and `_readDMRDDetails`. They decode
  at fixed offsets through the reader, with the same thrown errors on short
  buffers. An offset-based reference decoder `FrameAt` and an encoder
  `EncodeFrame` are the partners of the decoder.
- **Gateway** (`gateway.dfy`): the `Socket` as a state machine.
  - Each entry point is a transition `Gateway -> Output`. These are
    `connect`, a datagram arriving, one poll of a handshake acknowledgement
    wait, one keepalive tick, `close`, and one poll of `close`'s wait.
  - An `Output` carries the next state, the packets sent, the events emitted
    and the faults raised: promise rejections and thrown errors.
  - `Run` strings transitions together over an input list.

The UDP socket, timers and the clock are abstracted away:

- A send appends a packet to the output.
- The socket's existence is the flag `transportOpen`.
- Every `await utils.sleep(100)` loop is a sequence of poll inputs.
- `setInterval`'s callback is a `TimerTick(now)` input, with `now` in whole
  seconds.
- SHA-256 is a function parameter of the environment `Env`. So are the
  password and the package version.

## Model

| member | source | states |
|---|---|---|
| Bytes.Encode32OfBigEndian | src/DMRGateway.js:27-32 | writing a 32-bit value big-endian and reading it back is the identity; any 4 bytes read big-endian are below 2^32 |
| Bytes.BigEndianOfEncodeBE | src/utils.js:117-171 | big-endian encoding of a value that fits in k bytes reads back as that value |
| Bytes.EncodeBEOfBigEndian | src/utils.js:117-171 | reading k bytes big-endian and encoding the value in k bytes gives the same bytes back |
| Bytes.Subarray | src/utils.js:26 | `subarray(start, end)` with non-negative indices is the slice between them, each clamped to the buffer length; never longer than the buffer |
| Bytes.RelativeIndex | src/utils.js:26 | a negative index counts from the end and is clamped at 0; a non-negative one is clamped at the length |
| Bytes.PadEnd | src/DMRGateway.js:328-337 | the string is kept as a prefix, the fill character follows it up to length n, and a string already n or longer comes back unchanged |
| Bytes.PadStart | src/DMRGateway.js:330-331 | the string is kept as a suffix, preceded by the fill character up to length n, and is never truncated |
| Bytes.AllocWrite | src/DMRGateway.js:325-326 | `Buffer.alloc(n).write(s)` is exactly n bytes: s, then zero bytes; a longer s is cut to its first n bytes |
| Bytes.AsciiRoundTrip | src/DMRGateway.js:35 | ASCII text turned into bytes and decoded as ASCII is the same text |
| Bytes.IndexOf | src/DMRGateway.js:143 | `indexOf` returns the first position at or after `from` where the needle occurs, or -1 when it occurs at none |
| Bytes.IndexOfFindsOccurrence | src/DMRGateway.js:143-145 | `indexOf(...) > -1` holds exactly when the needle occurs somewhere in the buffer |
| Bytes.ParseHexOfHex | src/DMRGateway.js:449-450 | parsing the hex rendering of any byte string gives its big-endian value |
| Bytes.HexIsLowerHex | src/utils.js:266 | `toString("hex")` only produces lower-case hex digits |
| Bits.ReadBitIsMsbFirst | src/utils.js:258-261 | `readBit(i, buf)` is the character of bit 7 - i mod 8 of byte i / 8 when i is within the buffer's bits, the empty string outside them, and a SyntaxError on an empty buffer |
| Bits.PaddedBinaryOfBuffer | src/utils.js:259 | the zero-padded binary rendering of the buffer's BigInt is the concatenation of each byte's eight bits |
| Bits.BinOfBigEndian | src/utils.js:259 | the k-byte binary rendering of a big-endian value is the per-byte binary renderings concatenated |
| Reader.Seek | src/utils.js:12-15 | after `seek(o)` the cursor is o and the buffer is unchanged |
| Reader.SeekThenTell | src/utils.js:8-15 | `seek(o)` then `tell()` yields o; seeking back to the old position restores the reader |
| Reader.Slice | src/utils.js:17-29 | `slice(n)` returns the bytes from the cursor up to cursor + n, clamped to the buffer, and moves the cursor to cursor + n even past the end; `slice()` returns the rest and moves to the end |
| Reader.ToString | src/utils.js:31-47 | `toString` moves the cursor exactly as `slice` does; the hex encoding is the hex of the sliced bytes; "utf8" and "ascii" give one character per byte, which matches Node only for bytes below 0x80 |
| Reader.ReadInteger | src/utils.js:61-199 | a read succeeds exactly when all its bytes are in bounds, and then leaves the cursor at start + width |
| Reader.ReadUInt8 | src/utils.js:61-73 | the byte at the offset, or at the cursor when no offset is given; RangeError out of bounds; cursor at start + 1 |
| Reader.ReadInt8 | src/utils.js:75-87 | the byte as two's complement, u - 256 when u >= 128; RangeError out of bounds |
| Reader.ReadInt16BE | src/utils.js:89-101 | the two bytes big-endian as two's complement, in [-2^15, 2^15); cursor at start + 2 |
| Reader.ReadInt16LE | src/utils.js:103-115 | the two bytes little-endian as two's complement, in [-2^15, 2^15) |
| Reader.ReadUInt16BE | src/utils.js:117-129 | b[s] * 256 + b[s + 1], below 2^16; RangeError out of bounds |
| Reader.ReadUInt16LE | src/utils.js:131-143 | b[s + 1] * 256 + b[s], below 2^16 |
| Reader.ReadUInt32LE | src/utils.js:145-157 | the four bytes little-endian, below 2^32 |
| Reader.ReadUInt32BE | src/utils.js:159-171 | the four bytes big-endian, below 2^32; cursor at start + 4 |
| Reader.ReadInt32LE | src/utils.js:173-185 | the four bytes little-endian as two's complement, in [-2^31, 2^31) |
| Reader.ReadInt32BE | src/utils.js:187-199 | the four bytes big-endian as two's complement, in [-2^31, 2^31) |
| Reader.HexUInt32BE | src/utils.js:263-267 | for 0 <= v < 2^32 the result is exactly 8 lower-case hex digits that parse back to v; any other v throws |
| Config.SetId | src/DMRGateway.js:27-32 | a whole id in [0, 2^32) is stored unchanged after the write/read round trip; any other whole id throws a RangeError; an argument that is not a number (NaN after `writeUInt32BE`'s unary plus) is stored as 0 without throwing |
| Config.SetCallsign | src/DMRGateway.js:34-40 | the callsign keeps its first 8 bytes; the url becomes "www.qrz.com/db/" + the stored callsign only while it is null, otherwise it stays; nothing else changes |
| Config.AsciiPrefixKept | src/DMRGateway.js:35 | cutting the bytes of ASCII text to n and decoding them is the first n characters of the text |
| Config.SetLocation | src/DMRGateway.js:59-72 | the town is cut to its first 20 characters; latitude, longitude and height change only for a non-empty argument; nothing else changes |
| Config.SetDescription | src/DMRGateway.js:74-76 | the description is cut to its first 20 characters |
| Config.SetUrl | src/DMRGateway.js:78-80 | the url is cut to its first 124 characters |
| Config.SettersKeepValid | src/DMRGateway.js:10-81 | the defaults satisfy the width invariant (callsign <= 8, location and description <= 20, url <= 124, a callsign implies a url) and every setter keeps it |
| Packets.Packet | src/DMRGateway.js:256-261 | a control packet is the ASCII signature, then the 4-byte big-endian radio id, then the body |
| Packets.EncodeRPTL | src/DMRGateway.js:253-261 | RPTL is 8 bytes: "RPTL" then the big-endian id |
| Packets.EncodeRPTPING | src/DMRGateway.js:420-425 | RPTPING is 11 bytes: "RPTPING" then the big-endian id |
| Packets.EncodeRPTCL | src/DMRGateway.js:207-212 | RPTCL is 9 bytes: "RPTCL" then the big-endian id |
| Packets.EncodeRPTO | src/DMRGateway.js:386-393 | RPTO is "RPTO", the big-endian id and the options bytes, and nothing else |
| Packets.Salt | src/DMRGateway.js:291 | `subarray(-4)` of the stored acknowledgement is its last four bytes, or all of it when it is shorter |
| Packets.EncodeRPTK | src/DMRGateway.js:286-295 | RPTK is "RPTK", the big-endian id and the hash of salt + password; 40 bytes when the hash is 32 bytes |
| Packets.EncodeRPTC | src/DMRGateway.js:318-361 | building RPTC throws a TypeError exactly when callsign or url is null; otherwise it is the fifteen fields concatenated, each as long as its width or its text when that is longer |
| Packets.RptcLength | src/DMRGateway.js:328-361 | RPTC's length is the sum of max(width, text length) over the padded fields plus the fixed 4+4+8+40+40 |
| Packets.RptcLayout | src/DMRGateway.js:345-361 | when every field fits its width, RPTC is exactly 302 bytes and each field sits at its fixed offset |
| Packets.RptcFixedFields | src/DMRGateway.js:320-326 | RPTC starts with "RPTC" and the big-endian id; callsign, software id and version are NUL-padded to 8, 40 and 40 |
| Packets.RptcPaddedFields | src/DMRGateway.js:328-337 | frequencies, coordinates and height are right-padded with '0'; power and colour code are left-padded with '0'; location, description and url are right-padded with spaces |
| Packets.SetFreqFeedsRptc | src/DMRGateway.js:328-329 | after `setFreq(rx, tx)`, RPTC's receive field is rx followed by '0's and its transmit field is tx followed by '0's, never truncated; every other RPTC field is as before |
| Packets.SetPowerFeedsRptc | src/DMRGateway.js:330 | after `setPower(p)`, RPTC's power field is p preceded by '0's, never truncated; every other RPTC field is as before |
| Packets.SetColourCodeFeedsRptc | src/DMRGateway.js:331 | after `setColourCode(c)`, RPTC's colour code field is c preceded by '0's, never truncated; every other RPTC field is as before |
| Frame.DetailBits | src/DMRGateway.js:460-462 | `readBit` 7, 6, 5 and 4 of the details byte are its bits of value 1, 2, 4 and 8 |
| Frame.FrameTypeCode | src/DMRGateway.js:479-487 | the two-character code "00", "01", "10" and "11" maps to voice, voice sync, data sync and null |
| Frame.ReadDetails | src/DMRGateway.js:458-490 | for a non-empty buffer the details equal the arithmetic table: slot 2 iff the low bit is set, private iff bit 1 is set, frame type from bits 3 and 2; an empty buffer throws a SyntaxError |
| Frame.HexId | src/DMRGateway.js:449-450 | a 3-byte id through hex and parseInt is its 24-bit big-endian value |
| Frame.DecodeFrame | src/DMRGateway.js:442-456 | shorter than 15 bytes throws a RangeError; exactly 15 throws a SyntaxError; from 16 bytes on, the fields sit at fixed offsets and the payload is at most 33 bytes from offset 20; the signature is never checked |
| Frame.EncodeFrame | src/DMRGateway.js:442-456 | a frame laid out at the decoder's offsets is 20 bytes plus the payload |
| Frame.FrameAtEncodeFrame | src/DMRGateway.js:442-456 | reading the fixed offsets of an encoded frame gives back every field, with the details byte through the table |
| Frame.StreamIdText | src/DMRGateway.js:521-523 | `getStreamId` is two lower-case hex digits per stream id byte, which parse back to the id's big-endian value |
| Frame.DecodeEncodeFrame | src/DMRGateway.js:442-456 | decoding an encoded frame with ids below 2^24 and a payload of at most 33 bytes succeeds and returns every field |
| Gateway.ClassifyPriority | src/DMRGateway.js:138-149 | a datagram is RPTACK iff it contains "RPTACK", MSTPONG iff it contains "MSTPONG" but not "RPTACK", DMRD iff it contains only "DMRD" of the three, and unhandled iff it contains none |
| Gateway.Receive | src/DMRGateway.js:112-149 | every datagram is first emitted raw; RPTACK raises the flag and stores the datagram; MSTPONG records the time; DMRD emits the decoded frame or throws the decoding error; nothing is sent |
| Gateway.Connect | src/DMRGateway.js:157-173 | a null or zero radio id rejects with "Missing radio ID!" and a null or empty callsign with "Missing callsign!", changing nothing; otherwise the socket exists and RPTL goes out |
| Gateway.Advance | src/DMRGateway.js:172-199 | with no acknowledgement a poll changes nothing; with one it consumes the flag and sends at most one packet |
| Gateway.AdvanceFollowsPlan | src/DMRGateway.js:172-199 | an acknowledged poll sends the next step's packet (RPTK after RPTL iff a password, RPTC, RPTO iff options) or, at the end, warns when there are no options, starts the keepalive and emits `connect` |
| Gateway.HandshakeFollowsPlan | src/DMRGateway.js:157-201 | `connect` with every packet acknowledged sends exactly the plan, raises no fault, emits the raw acknowledgements and then `connect`, and leaves the keepalive running with the ack flag consumed |
| Gateway.PlanOrder | src/DMRGateway.js:173-185 | the plan is RPTL, RPTK when the password is truthy, RPTC, RPTO when the options are truthy |
| Gateway.SetOptionsDecidesRpto | src/DMRGateway.js:181-185 | the options set by `setOptions` are not part of RPTC; when they are truthy the handshake sends RPTO with them after RPTC, and otherwise it sends nothing more and warns that no options are set before emitting `connect` |
| Gateway.NaNIdRejected | src/DMRGateway.js:159-161 | an id that is not a number is accepted by `setId` as 0, and `connect` then rejects with "Missing radio ID!" before sending anything |
| Gateway.ClosedIgnoresDatagrams | src/DMRGateway.js:237-244 | once `close` has removed the listener and dropped the socket, a datagram changes nothing and emits nothing |
| Gateway.OpenHandlesDatagrams | src/DMRGateway.js:167-171 | while the socket exists its listener is registered, so a datagram goes to the message handler |
| Gateway.RoundsFrom | src/DMRGateway.js:172-199 | from any step on the plan, acknowledging every packet sends the rest of the plan and completes the handshake |
| Gateway.Close | src/DMRGateway.js:205-223 | once an interval has ever been assigned, it is cleared and the last pong is forgotten, even when that interval was already cleared; RPTCL goes out and the wait starts when the socket exists, else a TypeError; the ping count is kept |
| Gateway.Tick | src/DMRGateway.js:187-197 | a pong more than 60 s old warns and closes; otherwise no pong and 5 or more pings warns and closes; otherwise RPTPING is sent after the count goes up by one; the count never goes down |
| Gateway.CloseStep | src/DMRGateway.js:229-246 | a close poll sleeps while there is no acknowledgement and the count is at most 10; then the flag is cleared, the socket dropped and `close` emitted |
| Gateway.RunAppend | src/DMRGateway.js:138-251 | running two input lists in sequence is running their concatenation |
| Gateway.InitialInv | src/DMRGateway.js:103-108 | a new socket satisfies the invariant and starts with no pings |
| Gateway.StepKeepsInv | src/DMRGateway.js:112-119 | every transition keeps the invariant (a raised flag has a stored RPTACK datagram, a running interval was assigned, close's count stays <= 11) and never changes the configuration |
| Gateway.RunKeepsInv | src/DMRGateway.js:112-251 | every run from an invariant state keeps the invariant and the configuration |
| Gateway.AuthHasSalt | src/DMRGateway.js:291 | in a reachable state RPTK never meets a null stored acknowledgement |
| Gateway.StepPingCount | src/DMRGateway.js:418 | only a keepalive tick changes the ping count, and then by exactly one upward |
| Gateway.RunPingCount | src/DMRGateway.js:218-221 | over any run the ping count never decreases, and without ticks it does not change: neither `close` nor `connect` resets it |
| Gateway.SilentTicksClose | src/DMRGateway.js:187-197 | with no pong ever received, ticks send 5 - count pings and the next tick warns and sends RPTCL |
| Gateway.StalePingCount | src/DMRGateway.js:191-193 | once five pings are unanswered, any run without a pong (close, reconnect, a new handshake) leaves a socket whose first tick closes again without pinging |
| Gateway.CloseFinishes | src/DMRGateway.js:229-246 | from wait count c, 12 - c polls finish `close`, acknowledged or not, with the flag cleared, the socket dropped and one `close` event |
| Gateway.PollsAfterClose | src/DMRGateway.js:229-246 | polling a close that has already finished changes nothing |
| Gateway.CloseThenPolls | src/DMRGateway.js:205-246 | `close` on an open socket sends exactly RPTCL, emits exactly `close` within twelve polls, drops the socket and keeps the ping count |

## Left out

- Floating-point reads (`readFloatBE/LE`, `readDoubleBE/LE`) are left out because they need IEEE 754.
- `readUTF32LE` is left out: it is unused and builds JavaScript code-point strings.
- UDP plumbing is not modelled: socket creation, listener registration and send callbacks. A send is an entry in `sent`. A send on a null socket is the `TypeError` a property access on null throws. A send whose callback reports an error is not modelled.
- Timers are polls. `setInterval`'s 5-second period is left out: a tick is an input. `getEpoch` is the `now` of each input. `sleep(100)` is one poll.
- Promises are collapsed into the transitions. So a `connect` or `close` started while another is still waiting is not modelled faithfully: in the model the later call replaces the pending wait.
- Each `setInterval` returns a fresh handle, and a second `connect` without `close` leaks the first interval. The model's `ticking` flag is one interval, so that leak is not modelled.
- Debug logging and the colours module are left out; they print and change no state.
- SHA-256 is not modelled. It is the `sha256` parameter of `Env`, and the RPTK length is stated for a 32-byte digest.
- The version from package.json is the `version` parameter.
- Non-ASCII text is left out. The model assumes one byte per character; `Buffer.from` expands non-ASCII characters to UTF-8.
- Reader.ToString: "utf8" and "ascii" decoding is one character per byte, exact only for bytes below 0x80. Node's UTF-8 decoder merges multi-byte sequences and turns invalid bytes into U+FFFD, and its "ascii" decoder's handling of bytes from 0x80 depends on the Node version; neither is modelled.
- Frame.DecodeFrame: the signature is the first four bytes decoded as UTF-8, which the model takes one character per byte. It is exact only when those bytes are below 0x80; other bytes would give fewer characters or U+FFFD in Node.
- Config.SetId: an id with a fractional part is not modelled. `writeUInt32BE` would truncate it toward zero. An id that is not a number is modelled: it is stored as 0.
- Gateway.Receive: a `DMRDataFrame` that throws inside the message listener, and a rejected `connect` promise nobody catches, end the Node process. The model records a `Thrown` or `Rejected` fault and keeps stepping, so it also describes runs that Node would not continue.
- Gateway.Step: listener registration is the `transportOpen` flag. The constructor and `connect` register the listener with a new socket, and `close` removes it and drops the socket. Between the end of `close` and the next `connect` datagrams are ignored, as `Gateway.ClosedIgnoresDatagrams` states.
- `_readDMRDData` and the getters other than `getStreamId` are left out: they return a stored field unchanged. `getStreamId` is `Frame.StreamIdText`.
- `parseInt("0x")` returning NaN for an empty id slice is left out. It only happens when the buffer is too short, and then the later `readUInt32BE` throws first.
- `index.js`, the test script and the example script are left out: they are entry points and a live-network demo.
- Bytes.Subarray: the contract states the non-negative-index case. The negative indices used for the salt are stated through `Bytes.RelativeIndex` and `Packets.Salt`.
- Packets.RptcFixedFields: requires a callsign of at most 8 bytes and a version of at most 40. `Config.SetCallsign` guarantees the callsign bound, and the version is a parameter. `Bytes.AllocWrite` states the truncating case.

## Behaviour worth knowing

- A DMRD datagram shorter than 15 bytes makes the decoder throw a `RangeError`. One of exactly 15 bytes makes it throw a `SyntaxError`. From 16 bytes on it decodes, with a short or empty stream id and payload.
- The payload is `slice(33)` from offset 20: at most 33 bytes, however long the datagram is.
- `readBit(7)` is the lowest bit of the details byte, because `readBit` counts from the most significant bit.
- The keepalive tests the 60-second pong timeout before the five-unanswered-pings rule.
- Each handshake wait polls until an acknowledgement arrives; nothing bounds it.
- `close` is not idempotent. A second `close` throws a `TypeError` at the send on the null socket; the model records this as a fault.
