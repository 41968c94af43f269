/** The WebSocket client of the RP2040 device
    (`rp-client/src/websocket_handler.rs`): the opening handshake's request
    and status check, the binary frames it sends, and the parsing of the
    frames it receives, after section 5.2 (base framing) and section 5.3
    (client-to-server masking) of RFC 6455. The socket is a byte stream:
    sending yields the bytes written, and receiving consumes bytes from the
    front of what the server sent. The random mask key and handshake key,
    and the SHA-1/Base64 accept value, are parameters. */
module WebSocket {
  import opened Wrappers
  import opened Strings
  import opened Bytes

  datatype WsError = HandshakeFailed | InvalidResponse | FrameTooLarge

  /** XOR of each byte with the key byte at its position modulo 4. */
  function Mask(payload: seq<Byte>, key: seq<Byte>): (r: seq<Byte>)
    requires |key| == 4
    ensures |r| == |payload|
  {
    seq(|payload|, i requires 0 <= i < |payload| => Xor(payload[i], key[i % 4]))
  }

  /** Masking twice with the same key gives back the payload, so the
      receiver's unmasking undoes the sender's masking. */
  lemma MaskInvolution(payload: seq<Byte>, key: seq<Byte>)
    requires |key| == 4
    ensures Mask(Mask(payload, key), key) == payload
  {
    forall i | 0 <= i < |payload|
      ensures Mask(Mask(payload, key), key)[i] == payload[i]
    {
      XorTwice(payload[i], key[i % 4]);
    }
  }

  /** Masking commutes with splitting the payload at a multiple of four. */
  lemma MaskConcat(a: seq<Byte>, b: seq<Byte>, key: seq<Byte>)
    requires |key| == 4 && |a| % 4 == 0
    ensures Mask(a + b, key) == Mask(a, key) + Mask(b, key)
  {
    forall i | 0 <= i < |a + b|
      ensures Mask(a + b, key)[i] == (Mask(a, key) + Mask(b, key))[i]
    {
      if i >= |a| {
        var j := i - |a|;
        assert (a + b)[i] == b[j];
        ShiftByFours(j, |a| / 4);
      }
    }
  }

  lemma ShiftByFours(j: nat, q: nat)
    ensures (j + 4 * q) % 4 == j % 4
  {
  }

  /** Largest payload a frame with a 7-bit length field can carry. */
  const MAX_SHORT_PAYLOAD: nat := 125

  /** `send_bytes`: the bytes written for one payload. A payload that does
      not fit the 7-bit length field is refused before anything is written.
      Otherwise the frame is FIN with the binary opcode, then the mask bit
      with the length, then the four key bytes, then the masked payload. */
  function SendFrame(payload: seq<Byte>, key: seq<Byte>): (r: Result<seq<Byte>, WsError>)
    requires |key| == 4
    ensures r.Err? <==> |payload| > MAX_SHORT_PAYLOAD
    ensures r.Err? ==> r.error == FrameTooLarge
    ensures r.Ok? ==>
      && |r.value| == 6 + |payload|
      && r.value[0] == 0x82
      && HighBit(r.value[1]) && Low7(r.value[1]) == |payload|
      && r.value[2..6] == key
      && Mask(r.value[6..], key) == payload
  {
    if |payload| > MAX_SHORT_PAYLOAD then Err(FrameTooLarge)
    else
      var b0: Byte := 0x80 + 0x02;
      var b1: Byte := 0x80 + |payload|;
      var frame := [b0, b1] + key + Mask(payload, key);
      assert frame[6..] == Mask(payload, key);
      MaskInvolution(payload, key);
      Ok(frame)
  }

  /** A frame as section 5.2 of RFC 6455 lays it out, for a single
      unfragmented binary message: the reference the parser is checked
      against. Lengths up to 125 use the 7-bit field, longer ones up to
      65535 the 16-bit extended length (the length byte then holds 126);
      a key, when present, sets the mask bit and precedes the masked
      payload. */
  function EncodeFrame(payload: seq<Byte>, key: Option<seq<Byte>>): seq<Byte>
    requires |payload| < 0x1_0000
    requires key.Some? ==> |key.value| == 4
  {
    [0x82] + LengthField(key.Some?, |payload|) + FrameBody(payload, key)
  }

  /** The mask bit and length of section 5.2 of RFC 6455, for lengths
      below 65536. */
  function LengthField(masked: bool, n: nat): seq<Byte>
    requires n < 0x1_0000
  {
    var maskBit := if masked then 0x80 else 0;
    if n <= MAX_SHORT_PAYLOAD then [maskBit + n]
    else [maskBit + 126, n / 256, n % 256]
  }

  /** The bytes after the length field: the key and the masked payload, or
      the payload alone. */
  function FrameBody(payload: seq<Byte>, key: Option<seq<Byte>>): seq<Byte>
    requires key.Some? ==> |key.value| == 4
  {
    match key
    case None => payload
    case Some(k) => k + Mask(payload, k)
  }

  /** The frames the device sends are the reference frames with a key. */
  lemma SendFrameIsEncodeFrame(payload: seq<Byte>, key: seq<Byte>)
    requires |key| == 4 && |payload| <= MAX_SHORT_PAYLOAD
    ensures SendFrame(payload, key) == Ok(EncodeFrame(payload, Some(key)))
  {
    var n := |payload|;
    var b1: Byte := 0x80 + n;
    assert LengthField(true, n) == [b1];
    assert FrameBody(payload, Some(key)) == key + Mask(payload, key);
    assert [0x82, b1] + key + Mask(payload, key) == [0x82] + [b1] + (key + Mask(payload, key));
  }

  /** What one `read` into a zeroed buffer of `n` bytes leaves: as many
      bytes as the stream holds, up to `n`, and zeros after them. */
  function ReadInto(stream: seq<Byte>, n: nat): (r: seq<Byte>)
    ensures |r| == n
    ensures n <= |stream| ==> r == stream[..n]
  {
    if n <= |stream| then stream[..n]
    else stream + seq(n - |stream|, _ => 0)
  }

  /** The number of bytes one `read` of `n` bytes consumes. */
  function ReadCount(stream: seq<Byte>, n: nat): (c: nat)
    ensures c <= n && c <= |stream|
    ensures n <= |stream| ==> c == n
  {
    if n <= |stream| then n else |stream|
  }

  /** What the header of a received frame announces, and the bytes after
      the header. A frame without the mask bit gets the all-zero key. */
  datatype Header = Header(masked: bool, length: nat, key: seq<Byte>, body: seq<Byte>)

  /** The header reads of `recv_message`. The first two bytes must announce
      a final binary frame. A length byte of 126 is followed by a 16-bit
      big-endian length; 127 is refused. With the mask bit set, four key
      bytes follow. */
  function ParseHeader(stream: seq<Byte>): (r: Result<Header, WsError>)
    ensures r.Ok? ==> |r.value.key| == 4 && |r.value.body| <= |stream|
    ensures var h := ReadInto(stream, 2);
            !HighBit(h[0]) || LowNibble(h[0]) != 0x02 ==> r == Err(InvalidResponse)
    ensures var h := ReadInto(stream, 2);
            HighBit(h[0]) && LowNibble(h[0]) == 0x02 && Low7(h[1]) == 127 ==> r == Err(FrameTooLarge)
  {
    var header := ReadInto(stream, 2);
    var fin := HighBit(header[0]);
    var opcode := LowNibble(header[0]);
    if !(opcode == 0x02 && fin) then Err(InvalidResponse)
    else ParseLength(HighBit(header[1]), Low7(header[1]), stream[ReadCount(stream, 2)..])
  }

  /** The length field after the first two bytes. */
  function ParseLength(masked: bool, shortLength: nat, afterHeader: seq<Byte>): (r: Result<Header, WsError>)
    ensures r.Err? <==> shortLength == 127
    ensures r.Ok? ==> |r.value.key| == 4 && |r.value.body| <= |afterHeader|
  {
    if shortLength == 127 then Err(FrameTooLarge)
    else if shortLength == 126 then
      var extended := ReadInto(afterHeader, 2);
      Ok(ParseKey(masked, extended[0] as int * 256 + extended[1], afterHeader[ReadCount(afterHeader, 2)..]))
    else Ok(ParseKey(masked, shortLength, afterHeader))
  }

  /** The masking key, present when the mask bit is set. */
  function ParseKey(masked: bool, length: nat, afterLength: seq<Byte>): (h: Header)
    ensures |h.key| == 4 && |h.body| <= |afterLength|
    ensures h.masked == masked && h.length == length
  {
    if masked then Header(true, length, ReadInto(afterLength, 4), afterLength[ReadCount(afterLength, 4)..])
    else Header(false, length, [0, 0, 0, 0], afterLength)
  }

  /** A received frame's payload and the bytes that follow it. */
  datatype Received = Received(payload: seq<Byte>, rest: seq<Byte>)

  /** `recv_message`, given what the server has sent and the size of the
      caller's buffer: after the header, a length beyond the buffer is
      refused; otherwise the payload is read and, if masked, unmasked. */
  function RecvFrame(stream: seq<Byte>, bufferLen: nat): (r: Result<Received, WsError>)
    ensures ParseHeader(stream).Err? ==> r == Err(ParseHeader(stream).error)
    ensures ParseHeader(stream).Ok? ==>
      (r == Err(FrameTooLarge) <==> ParseHeader(stream).value.length > bufferLen)
    ensures r.Ok? ==> |r.value.payload| <= bufferLen && |r.value.rest| <= |stream|
  {
    match ParseHeader(stream)
    case Err(e) => Err(e)
    case Ok(h) =>
      if h.length > bufferLen then Err(FrameTooLarge)
      else
        var count := ReadCount(h.body, h.length);
        var data := h.body[..count];
        Ok(Received(if h.masked then Mask(data, h.key) else data, h.body[count..]))
  }

  /** The bytes after the header of an encoded frame: the payload, masked
      when there is a key. */
  function MaskedPayload(payload: seq<Byte>, key: Option<seq<Byte>>): seq<Byte>
    requires key.Some? ==> |key.value| == 4
  {
    if key.Some? then Mask(payload, key.value) else payload
  }

  /** The key a header parse reports: the frame's, or all zeros. */
  function KeyOrZeros(key: Option<seq<Byte>>): seq<Byte>
  {
    if key.Some? then key.value else [0, 0, 0, 0]
  }

  /** The header of an encoded frame announces its length and key. */
  lemma ParseEncodedHeader(payload: seq<Byte>, key: Option<seq<Byte>>, rest: seq<Byte>)
    requires |payload| < 0x1_0000
    requires key.Some? ==> |key.value| == 4
    ensures ParseHeader(EncodeFrame(payload, key) + rest) ==
      Ok(Header(key.Some?, |payload|, KeyOrZeros(key), MaskedPayload(payload, key) + rest))
  {
    var head := [0x82] + LengthField(key.Some?, |payload|);
    var afterLength := FrameBody(payload, key) + rest;
    assert EncodeFrame(payload, key) + rest == head + afterLength by {
      assert EncodeFrame(payload, key) == head + FrameBody(payload, key);
    }
    ParseLengthField(key.Some?, |payload|, afterLength);
    ParseEncodedKey(payload, key, rest);
  }

  /** Parsing a frame whose length field is given reaches its body. */
  lemma ParseLengthField(masked: bool, n: nat, afterLength: seq<Byte>)
    requires n < 0x1_0000
    ensures ParseHeader([0x82] + LengthField(masked, n) + afterLength) == Ok(ParseKey(masked, n, afterLength))
  {
    if n <= MAX_SHORT_PAYLOAD {
      ParseShortLength(masked, n, afterLength);
    } else {
      ParseLongLength(masked, n, afterLength);
    }
  }

  lemma ParseShortLength(masked: bool, n: nat, afterLength: seq<Byte>)
    requires n <= MAX_SHORT_PAYLOAD
    ensures ParseHeader([0x82] + LengthField(masked, n) + afterLength) == Ok(ParseKey(masked, n, afterLength))
  {
    var b1: Byte := (if masked then 0x80 else 0) + n;
    TopBitAndLow7(masked, n);
    assert LengthField(masked, n) == [b1];
    assert [0x82] + [b1] + afterLength == [0x82, b1] + afterLength;
    ParseFinalBinary(b1, afterLength);
  }

  lemma ParseLongLength(masked: bool, n: nat, afterLength: seq<Byte>)
    requires MAX_SHORT_PAYLOAD < n < 0x1_0000
    ensures ParseHeader([0x82] + LengthField(masked, n) + afterLength) == Ok(ParseKey(masked, n, afterLength))
  {
    var b1: Byte := (if masked then 0x80 else 0) + 126;
    TopBitAndLow7(masked, 126);
    var lengthField: seq<Byte> := [n / 256, n % 256];
    assert LengthField(masked, n) == [b1] + lengthField;
    assert [0x82] + ([b1] + lengthField) + afterLength == [0x82, b1] + (lengthField + afterLength);
    ParseFinalBinary(b1, lengthField + afterLength);
    ParseExtendedLength(masked, n, afterLength);
  }

  /** A final binary frame's header goes on to its length field. */
  lemma ParseFinalBinary(b1: Byte, tail: seq<Byte>)
    ensures ParseHeader([0x82, b1] + tail) == ParseLength(HighBit(b1), Low7(b1), tail)
  {
    var stream := [0x82, b1] + tail;
    assert stream[..2] == [0x82, b1];
    assert stream[2..] == tail;
  }

  lemma ParseExtendedLength(masked: bool, n: nat, afterLength: seq<Byte>)
    requires MAX_SHORT_PAYLOAD < n < 0x1_0000
    ensures ParseLength(masked, 126, [n / 256, n % 256] + afterLength) ==
      Ok(ParseKey(masked, n, afterLength))
  {
    var lengthField: seq<Byte> := [n / 256, n % 256];
    assert (lengthField + afterLength)[..2] == lengthField;
    assert (lengthField + afterLength)[2..] == afterLength;
  }

  lemma ParseEncodedKey(payload: seq<Byte>, key: Option<seq<Byte>>, rest: seq<Byte>)
    requires key.Some? ==> |key.value| == 4
    ensures ParseKey(key.Some?, |payload|, FrameBody(payload, key) + rest) ==
      Header(key.Some?, |payload|, KeyOrZeros(key), MaskedPayload(payload, key) + rest)
  {
    var afterLength := FrameBody(payload, key) + rest;
    if key.Some? {
      assert afterLength[..4] == key.value;
      assert afterLength[4..] == MaskedPayload(payload, key) + rest;
    }
  }

  /** Receiving undoes encoding: a whole frame, masked or not, with any
      bytes after it, gives back its payload and leaves the bytes after it,
      provided the caller's buffer can hold the payload. */
  lemma RecvEncodeFrame(payload: seq<Byte>, key: Option<seq<Byte>>, rest: seq<Byte>, bufferLen: nat)
    requires |payload| < 0x1_0000
    requires key.Some? ==> |key.value| == 4
    requires |payload| <= bufferLen
    ensures RecvFrame(EncodeFrame(payload, key) + rest, bufferLen) == Ok(Received(payload, rest))
  {
    ParseEncodedHeader(payload, key, rest);
    var body := MaskedPayload(payload, key) + rest;
    assert body[..|payload|] == MaskedPayload(payload, key);
    assert body[|payload|..] == rest;
    if key.Some? {
      MaskInvolution(payload, key.value);
    }
  }

  /** What the device sends, the server-side parse of the same layout
      reads back. */
  lemma RecvSendFrame(payload: seq<Byte>, key: seq<Byte>, rest: seq<Byte>)
    requires |key| == 4 && |payload| <= MAX_SHORT_PAYLOAD
    ensures SendFrame(payload, key).Ok?
    ensures RecvFrame(SendFrame(payload, key).value + rest, MAX_SHORT_PAYLOAD) == Ok(Received(payload, rest))
  {
    SendFrameIsEncodeFrame(payload, key);
    RecvEncodeFrame(payload, Some(key), rest, MAX_SHORT_PAYLOAD);
  }

  /** A frame that is not a final binary frame is refused whatever follows. */
  lemma RecvRefusesOtherFrames(b0: Byte, b1: Byte, rest: seq<Byte>, bufferLen: nat)
    requires !HighBit(b0) || LowNibble(b0) != 0x02
    ensures RecvFrame([b0, b1] + rest, bufferLen) == Err(InvalidResponse)
  {
    assert ReadInto([b0, b1] + rest, 2) == [b0, b1];
  }

  /** A frame announcing a 64-bit length is refused whatever follows. */
  lemma RecvRefusesLongLength(b1: Byte, rest: seq<Byte>, bufferLen: nat)
    requires Low7(b1) == 127
    ensures RecvFrame([0x82, b1] + rest, bufferLen) == Err(FrameTooLarge)
  {
    assert ReadInto([0x82, b1] + rest, 2) == [0x82, b1];
  }

  /** A payload longer than the caller's buffer is refused, even when the
      frame is well formed. */
  lemma RecvRefusesOversizePayload(payload: seq<Byte>, key: Option<seq<Byte>>, rest: seq<Byte>, bufferLen: nat)
    requires |payload| < 0x1_0000
    requires key.Some? ==> |key.value| == 4
    requires |payload| > bufferLen
    ensures RecvFrame(EncodeFrame(payload, key) + rest, bufferLen) == Err(FrameTooLarge)
  {
    ParseEncodedHeader(payload, key, rest);
  }

  /** The status text a successful opening handshake carries. */
  const SWITCHING_PROTOCOLS: string := "101 Switching Protocols"

  /** The handshake check of `connect`: the response must be UTF-8 (its
      decoding is given, `None` when it is not), carry the switching
      status, and carry the expected accept value. */
  function CheckHandshake(decoded: Option<string>, accept: string): (r: Outcome<WsError>)
    ensures decoded.None? ==> r == Fail(InvalidResponse)
    ensures decoded.Some? ==>
      (r.Pass? <==> (exists i :: OccursAt(decoded.value, SWITCHING_PROTOCOLS, i)) &&
                    (exists i :: OccursAt(decoded.value, accept, i)))
    ensures r.Fail? && decoded.Some? ==> r.error == HandshakeFailed
  {
    match decoded
    case None => Fail(InvalidResponse)
    case Some(response) =>
      if !Contains(response, SWITCHING_PROTOCOLS) then Fail(HandshakeFailed)
      else if !Contains(response, accept) then Fail(HandshakeFailed)
      else Pass
  }

  /** The upgrade request `connect` writes, with its handshake key: the
      request line and fixed headers, the key on its own header line, and
      the blank line that closes the header block. */
  function UpgradeRequest(key: string): string
  {
    UPGRADE_HEAD + KeyHeader(key) + "\r\n"
  }

  const UPGRADE_HEAD: string :=
    "GET / HTTP/1.1\r\nHost: localhost\r\nUpgrade: websocket\r\nConnection: Upgrade\r\n" +
    "Sec-WebSocket-Version: 13"

  function KeyHeader(key: string): string
  {
    "\r\nSec-WebSocket-Key: " + key + "\r\n"
  }

  /** The request carries the key on its own header line and ends with the
      blank line that closes the header block. */
  lemma UpgradeRequestCarriesKey(key: string)
    ensures var r := UpgradeRequest(key);
            Contains(r, "\r\nSec-WebSocket-Key: " + key + "\r\n") &&
            |r| >= 4 && r[|r| - 4..] == "\r\n\r\n"
  {
    ContainsOfConcat(UPGRADE_HEAD, KeyHeader(key), "\r\n");
    var r := UpgradeRequest(key);
    var k := KeyHeader(key);
    assert k[|k| - 2..] == "\r\n";
    assert r[|r| - 4..] == k[|k| - 2..] + "\r\n";
  }
}
