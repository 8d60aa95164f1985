/** The frame codecs of runner/internal/protocol/wire.go, and the relay's own
    encoder of the routing label in portal/lib/onlytty_web/onlytty_socket.ex. */
module Wire {
  import opened Base

  const KIND_INPUT: byte := 0x10
  const KIND_RESIZE: byte := 0x11
  const KIND_CTRL_REQ: byte := 0x12
  const KIND_CTRL_REL: byte := 0x13

  const CONTROL_READ_ONLY: byte := 0
  const CONTROL_GRANTED: byte := 1
  const CONTROL_TAKEN: byte := 2

  /** "OVP1": the sealed viewer payload. */
  const VIEWER_MAGIC: bytes := [79, 86, 80, 49]
  /** "OTV1": the relay's routing label. */
  const RELAY_MAGIC: bytes := [79, 84, 86, 49]

  datatype Decoded = Envelope(id: bytes, body: bytes) | BadPayload | ShortPayload

  // ---- Length-prefixed envelopes -------------------------------------------

  /** The byte string both Go encoders build: an id over 255 bytes is cut to 255. */
  function Encoded(magic: bytes, id: bytes, body: bytes): bytes {
    var kept := if |id| > 255 then id[..255] else id;
    magic + [|kept|] + kept + body
  }

  /** Both Go decoders, for a four-byte magic. */
  function Decode(magic: bytes, b: bytes): Decoded
    requires |magic| == 4
  {
    if |b| < 4 || b[..4] != magic then BadPayload
    else if |b| < 5 then ShortPayload
    else
      var n: int := b[4];
      if n == 0 then BadPayload
      else if |b| < 5 + n then ShortPayload
      else Envelope(b[5..5 + n], b[5 + n..])
  }

  /** Go's built-in copy into a buffer at an offset. */
  method CopyInto(b: array<byte>, at: nat, src: bytes)
    requires at + |src| <= b.Length
    modifies b
    ensures b[..] == old(b[..at]) + src + old(b[at + |src|..])
  {
    for i := 0 to |src|
      invariant forall k | 0 <= k < b.Length ::
        b[k] == if at <= k < at + i then src[k - at] else old(b[k])
    {
      b[at + i] := src[i];
    }
  }

  /** EncodeViewerPayload and EncodeRelayViewerFrame differ only in the magic:
      allocate the exact length, then fill the four parts in place. */
  method Encode(magic: bytes, viewerId: bytes, body: bytes) returns (b: array<byte>)
    requires |magic| == 4
    ensures fresh(b)
    ensures b[..] == Encoded(magic, viewerId, body)
  {
    var id := viewerId;
    if |id| > 255 {
      id := id[..255];
    }
    b := new byte[4 + 1 + |id| + |body|](_ => 0);
    CopyInto(b, 0, magic);
    b[4] := |id|;
    assert b[..5] == magic + [|id|];
    CopyInto(b, 5, id);
    assert b[..5 + |id|] == magic + [|id|] + id;
    CopyInto(b, 5 + |id|, body);
  }

  /** An id of 1 to 255 bytes survives; a longer one comes back cut; an empty one is refused. */
  lemma DecodeEncode(magic: bytes, id: bytes, body: bytes)
    requires |magic| == 4
    ensures Decode(magic, Encoded(magic, id, body)) ==
            if |id| == 0 then BadPayload
            else Envelope(if |id| > 255 then id[..255] else id, body)
  {
  }

  /** Nothing but an encoding is ever accepted, and its id is never empty. */
  lemma EncodeDecode(magic: bytes, b: bytes)
    requires |magic| == 4
    requires Decode(magic, b).Envelope?
    ensures var e := Decode(magic, b);
            1 <= |e.id| <= 255 && Encoded(magic, e.id, e.body) == b
  {
  }

  /** relay_viewer_frame: an 8-bit length segment keeps only the low byte of the length. */
  function RelayEncoded(viewerId: bytes, data: bytes): bytes {
    RELAY_MAGIC + [|viewerId| % 256] + viewerId + data
  }

  /** The runner reads back what the relay labelled exactly for ids of 1 to 255 bytes. */
  lemma RelayAgreesWithRunner(viewerId: bytes, data: bytes)
    ensures Decode(RELAY_MAGIC, RelayEncoded(viewerId, data)) == Envelope(viewerId, data)
            <==> 1 <= |viewerId| <= 255
    ensures 1 <= |viewerId| <= 255 ==> RelayEncoded(viewerId, data) == Encoded(RELAY_MAGIC, viewerId, data)
  {
  }

  // ---- Fixed-size payloads --------------------------------------------------

  /** n as `width` bytes, most significant first. */
  function BigEndian(width: nat, n: nat): bytes {
    if width == 0 then [] else BigEndian(width - 1, n / 256) + [n % 256]
  }

  function FromBigEndian(b: bytes): nat {
    if b == [] then 0 else 256 * FromBigEndian(b[..|b| - 1]) + b[|b| - 1]
  }

  function Range(width: nat): nat {
    if width == 0 then 1 else 256 * Range(width - 1)
  }

  lemma {:induction false} FromBigEndianInverse(width: nat, n: nat)
    requires n < Range(width)
    ensures |BigEndian(width, n)| == width && FromBigEndian(BigEndian(width, n)) == n
  {
    if width > 0 {
      FromBigEndianInverse(width - 1, n / 256);
      var front := BigEndian(width - 1, n / 256);
      assert BigEndian(width, n)[..width - 1] == front;
    }
  }

  lemma {:induction false} BigEndianInverse(b: bytes)
    ensures FromBigEndian(b) < Range(|b|) && BigEndian(|b|, FromBigEndian(b)) == b
  {
    if b != [] {
      BigEndianInverse(b[..|b| - 1]);
      assert b == b[..|b| - 1] + [b[|b| - 1]];
      assert FromBigEndian(b) / 256 == FromBigEndian(b[..|b| - 1]);
    }
  }

  datatype Size = Size(cols: nat, rows: nat)

  function EncodeResize(z: Size): bytes { BigEndian(2, z.cols) + BigEndian(2, z.rows) }

  function DecodeResize(b: bytes): Option<Size> {
    if |b| < 4 then None else Some(Size(FromBigEndian(b[0..2]), FromBigEndian(b[2..4])))
  }

  function EncodeHello(baseline: nat, z: Size): bytes {
    BigEndian(8, baseline) + BigEndian(2, z.cols) + BigEndian(2, z.rows)
  }

  function DecodeHello(b: bytes): Option<(nat, Size)> {
    if |b| < 12 then None
    else Some((FromBigEndian(b[0..8]), Size(FromBigEndian(b[8..10]), FromBigEndian(b[10..12]))))
  }

  /** The conversion of an int32 to uint32 keeps it modulo 2^32. */
  function EncodeExit(code: int): bytes { BigEndian(4, code % 0x1_0000_0000) }

  function DecodeExit(b: bytes): Option<int> {
    if |b| < 4 then None
    else
      var u := FromBigEndian(b[..4]);
      Some(if u >= 0x8000_0000 then u - 0x1_0000_0000 else u)
  }

  /** A resize survives the wire whatever follows it, and every accepted payload is an encoding. */
  lemma ResizeRoundTrip(z: Size, tail: bytes, b: bytes)
    requires z.cols < 0x1_0000 && z.rows < 0x1_0000
    ensures DecodeResize(EncodeResize(z) + tail) == Some(z)
    ensures DecodeResize(b).Some? <==> |b| >= 4
    ensures |b| == 4 ==> EncodeResize(DecodeResize(b).value) == b
  {
    assert Range(2) == 0x1_0000;
    FromBigEndianInverse(2, z.cols);
    FromBigEndianInverse(2, z.rows);
    var e := EncodeResize(z) + tail;
    assert e[0..2] == BigEndian(2, z.cols) && e[2..4] == BigEndian(2, z.rows);
    if |b| == 4 {
      BigEndianInverse(b[0..2]);
      BigEndianInverse(b[2..4]);
      assert b == b[0..2] + b[2..4];
    }
  }

  lemma Ranges()
    ensures Range(2) == 0x1_0000 && Range(4) == 0x1_0000_0000 && Range(8) == 0x1_0000_0000_0000_0000
  {
    assert Range(2) == 0x1_0000;
    assert Range(4) == 0x1_0000_0000;
    assert Range(6) == 0x1_0000_0000_0000;
  }

  lemma HelloRoundTrip(baseline: nat, z: Size)
    requires baseline < 0x1_0000_0000_0000_0000 && z.cols < 0x1_0000 && z.rows < 0x1_0000
    ensures DecodeHello(EncodeHello(baseline, z)) == Some((baseline, z))
  {
    Ranges();
    FromBigEndianInverse(8, baseline);
    FromBigEndianInverse(2, z.cols);
    FromBigEndianInverse(2, z.rows);
    var e := EncodeHello(baseline, z);
    assert e[0..8] == BigEndian(8, baseline);
    assert e[8..10] == BigEndian(2, z.cols) && e[10..12] == BigEndian(2, z.rows);
  }

  /** Any twelve bytes are a hello, and encode back to themselves. */
  lemma HelloReencodes(b: bytes)
    requires |b| == 12
    ensures DecodeHello(b).Some? && EncodeHello(DecodeHello(b).value.0, DecodeHello(b).value.1) == b
  {
    BigEndianInverse(b[0..8]);
    BigEndianInverse(b[8..10]);
    BigEndianInverse(b[10..12]);
    assert b == b[0..8] + b[8..10] + b[10..12];
  }

  /** Every exit code of 32 bits, negative ones too, survives the wire. */
  lemma ExitRoundTrip(code: int, tail: bytes)
    requires -0x8000_0000 <= code < 0x8000_0000
    ensures DecodeExit(EncodeExit(code) + tail) == Some(code)
  {
    var u := code % 0x1_0000_0000;
    Ranges();
    FromBigEndianInverse(4, u);
    assert (EncodeExit(code) + tail)[..4] == BigEndian(4, u);
  }

  /** Any four bytes are an exit code, and encode back to themselves. */
  lemma ExitReencodes(b: bytes)
    requires |b| == 4
    ensures DecodeExit(b).Some? && EncodeExit(DecodeExit(b).value) == b
  {
    BigEndianInverse(b);
    var u := FromBigEndian(b);
    assert u < 0x1_0000_0000 by { Ranges(); }
    assert b[..4] == b;
    assert DecodeExit(b).value % 0x1_0000_0000 == u;
  }

  /** The bytes on the wire: columns before rows, the higher byte first, after the baseline in a
      hello; an exit code in two's complement. */
  lemma WireBytes(baseline: nat, z: Size)
    requires z.cols < 0x1_0000 && z.rows < 0x1_0000
    ensures EncodeResize(z) == [z.cols / 256, z.cols % 256, z.rows / 256, z.rows % 256]
    ensures EncodeHello(baseline, z) == BigEndian(8, baseline) + EncodeResize(z)
    ensures EncodeExit(-1) == [255, 255, 255, 255] && EncodeExit(1) == [0, 0, 0, 1]
  {
    assert BigEndian(2, z.cols) == [z.cols / 256, z.cols % 256] by { TwoBytes(z.cols); }
    assert BigEndian(2, z.rows) == [z.rows / 256, z.rows % 256] by { TwoBytes(z.rows); }
    FourBytes(0xFFFF_FFFF);
    FourBytes(1);
  }

  lemma TwoBytes(n: nat)
    requires n < 0x1_0000
    ensures BigEndian(2, n) == [n / 256, n % 256]
  {
    assert BigEndian(0, n / 256 / 256) == [];
    assert BigEndian(1, n / 256) == [n / 256];
  }

  lemma FourBytes(n: nat)
    requires n < 0x1_0000_0000
    ensures BigEndian(4, n) == [n / 0x100_0000, n / 0x1_0000 % 256, n / 256 % 256, n % 256]
  {
    TwoBytes(n / 0x1_0000);
    assert BigEndian(3, n / 256) == BigEndian(2, n / 256 / 256) + [n / 256 % 256];
    assert n / 256 / 256 == n / 0x1_0000;
  }
}
