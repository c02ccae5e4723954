/** The compact binary frames and the voice payload nested in them (protocol/frame.go,
    protocol/voice.go, client/frontend/src/voice/protocol.js). All integers are little-endian. */
module Frames {

  type byte = x: int | 0 <= x < 0x100
  type uint16 = x: int | 0 <= x < 0x1_0000
  type uint32 = x: int | 0 <= x < 0x1_0000_0000
  type uint64 = x: int | 0 <= x < 0x1_0000_0000_0000_0000
  type int64 = x: int | -0x8000_0000_0000_0000 <= x < 0x8000_0000_0000_0000

  datatype Result<T> = Ok(value: T) | Err(error: FrameError)
  datatype FrameError = ErrShortFrame | ErrBadMagic

  const FRAME_MAGIC0: byte := 0x4E
  const FRAME_MAGIC1: byte := 0x42
  const FRAME_P2P: byte := 1
  const FRAME_RELAY: byte := 2
  const FRAME_VOICE: byte := 3
  const FRAME_PING: byte := 4
  const FRAME_PONG: byte := 5
  const FRAME_HEADER_SIZE: nat := 12
  const PING_PAYLOAD_SIZE: nat := 8
  const VOICE_HEADER_SIZE: nat := 11

  // ---------------------------------------------------------------- little-endian integers

  function Pow256(w: nat): (p: nat)
    ensures p > 0
  {
    if w == 0 then 1 else 256 * Pow256(w - 1)
  }

  function LE(n: nat, w: nat): (b: seq<byte>)
    ensures |b| == w
    decreases n, w
  {
    if w == 0 then [] else [n % 256] + LE(n / 256, w - 1)
  }

  function FromLE(b: seq<byte>): nat {
    if |b| == 0 then 0 else b[0] + 256 * FromLE(b[1..])
  }

  /** Writing n in w bytes and reading it back gives n reduced to w bytes. */
  lemma {:induction false} FromLEofLE(n: nat, w: nat)
    ensures FromLE(LE(n, w)) == n % Pow256(w)
    decreases n, w
  {
    if w > 0 {
      FromLEofLE(n / 256, w - 1);
      assert LE(n, w)[1..] == LE(n / 256, w - 1);
      SplitMod(n, Pow256(w - 1));
    }
  }

  lemma SplitMod(n: nat, p: nat)
    requires p > 0
    ensures n % 256 + 256 * ((n / 256) % p) == n % (256 * p)
  {
    var q, k := n / 256, n / 256 / p;
    var r := n % 256 + 256 * (q % p);
    assert q == p * k + q % p;
    assert n == (256 * p) * k + r by {
      assert 256 * (p * k) == (256 * p) * k;
    }
    assert 0 <= r < 256 * p;
    UniqueRemainder(n, 256 * p, k, r);
  }

  lemma UniqueRemainder(n: nat, d: nat, k: int, r: int)
    requires d > 0 && 0 <= r < d && n == d * k + r
    ensures n % d == r
  {
    var j, m := n / d - k, n % d;
    assert n == d * (n / d) + m;
    assert d * (n / d) == d * k + d * j;
    assert d * j == r - m;
    if j > 0 { Grows(d, j); }
    if j < 0 { Grows(d, -j); }
  }

  lemma Grows(d: nat, j: nat)
    requires j > 0
    ensures d * j >= d
  {
    assert d * j == d + d * (j - 1);
  }

  /** The byte at position i counts the i-th power of 256: least significant first. */
  lemma {:induction false} LEAt(n: nat, w: nat, i: nat)
    requires i < w
    ensures LE(n, w)[i] == n / Pow256(i) % 256
    decreases i
  {
    if i > 0 {
      LEAt(n / 256, w - 1, i - 1);
      DivTwice(n, Pow256(i - 1));
    }
  }

  lemma DivTwice(n: nat, p: nat)
    requires p > 0
    ensures n / 256 / p == n / (256 * p)
  {
    var q := n / 256 / p;
    var r := n % 256 + 256 * ((n / 256) % p);
    SplitMod(n, p);
    assert r == n % (256 * p);
    assert n / 256 == p * q + (n / 256) % p;
    assert n == (256 * p) * q + r by {
      assert 256 * (p * q) == (256 * p) * q;
    }
    var d := 256 * p;
    assert d * (n / d) == d * q;
    SameFactor(d, n / d, q);
  }

  lemma SameFactor(d: nat, a: int, b: int)
    requires d > 0 && d * a == d * b
    ensures a == b
  {
    assert d * (a - b) == d * a - d * b && d * (b - a) == d * b - d * a;
    if a > b { Grows(d, a - b); }
    if b > a { Grows(d, b - a); }
  }

  /** A 32-bit number, byte by byte. */
  lemma Word32(n: uint32)
    ensures LE(n, 4) == [n % 0x100, n / 0x100 % 0x100, n / 0x1_0000 % 0x100, n / 0x100_0000]
  {
    LEAt(n, 4, 0);
    LEAt(n, 4, 1);
    LEAt(n, 4, 2);
    LEAt(n, 4, 3);
    assert Pow256(1) == 0x100 && Pow256(2) == 0x1_0000 && Pow256(3) == 0x100_0000;
  }

  /** Reading bytes and writing them back gives the same bytes. */
  lemma {:induction false} LEofFromLE(b: seq<byte>)
    ensures FromLE(b) < Pow256(|b|)
    ensures LE(FromLE(b), |b|) == b
    decreases |b|
  {
    if |b| > 0 {
      LEofFromLE(b[1..]);
      var n := FromLE(b);
      assert n % 256 == b[0] && n / 256 == FromLE(b[1..]);
      assert b == [b[0]] + b[1..];
    }
  }

  /** Only the low w bytes of a number are written. */
  lemma LEWraps(n: nat, w: nat)
    ensures LE(n, w) == LE(n % Pow256(w), w)
  {
    FromLEofLE(n, w);
    LEofFromLE(LE(n, w));
  }

  lemma Widths()
    ensures Pow256(1) == 0x100 && Pow256(2) == 0x1_0000 && Pow256(4) == 0x1_0000_0000
    ensures Pow256(8) == 0x1_0000_0000_0000_0000
  {
    assert Pow256(5) == 256 * Pow256(4);
    assert Pow256(6) == 256 * Pow256(5);
    assert Pow256(7) == 256 * Pow256(6);
  }

  /** Stores n little-endian in the w bytes of buf from at on. */
  method PutLE(buf: array<byte>, at: nat, w: nat, n: nat)
    requires at + w <= buf.Length
    modifies buf
    ensures buf[..] == old(buf[..at]) + LE(n, w) + old(buf[at + w..])
  {
    var rest := n;
    ghost var was, bytes := buf[..], LE(n, w);
    for i := 0 to w
      invariant rest >= 0 && LE(rest, w - i) == bytes[i..]
      invariant buf[..] == was[..at] + bytes[..i] + was[at + i..]
    {
      assert bytes[i] == rest % 256 && LE(rest / 256, w - i - 1) == bytes[i..][1..];
      buf[at + i] := rest % 256;
      rest := rest / 256;
      ExtendPatch(was, at, bytes, i);
    }
    assert bytes[..w] == bytes;
  }

  /** Overwriting the next byte of a patch extends the patch. */
  lemma ExtendPatch(was: seq<byte>, at: nat, bytes: seq<byte>, i: nat)
    requires i < |bytes| && at + |bytes| <= |was|
    ensures (was[..at] + bytes[..i] + was[at + i..])[at + i := bytes[i]]
         == was[..at] + bytes[..i + 1] + was[at + i + 1..]
  {
    assert bytes[..i + 1] == bytes[..i] + [bytes[i]];
  }

  /** Go's copy and JavaScript's set: the bytes of src from at on. */
  method PutBytes(buf: array<byte>, at: nat, src: seq<byte>)
    requires at + |src| <= buf.Length
    modifies buf
    ensures buf[..] == old(buf[..at]) + src + old(buf[at + |src|..])
  {
    ghost var was := buf[..];
    for i := 0 to |src|
      invariant buf[..] == was[..at] + src[..i] + was[at + i..]
    {
      buf[at + i] := src[i];
      ExtendPatch(was, at, src, i);
    }
    assert src[..|src|] == src;
  }

  // ---------------------------------------------------------------- frames

  datatype Frame = Frame(frameType: byte, srcVIP: uint32, dstVIP: uint32, payload: seq<byte>)

  /** The wire form of a frame. */
  function FrameBytes(f: Frame): seq<byte> {
    [FRAME_MAGIC0, FRAME_MAGIC1, f.frameType, 0] + LE(f.srcVIP, 4) + LE(f.dstVIP, 4) + f.payload
  }

  method EncodeFrame(frameType: byte, srcVIP: uint32, dstVIP: uint32, payload: seq<byte>) returns (buf: array<byte>)
    ensures fresh(buf) && buf[..] == FrameBytes(Frame(frameType, srcVIP, dstVIP, payload))
  {
    buf := new byte[FRAME_HEADER_SIZE + |payload|](_ => 0);
    buf[0], buf[1], buf[2], buf[3] := FRAME_MAGIC0, FRAME_MAGIC1, frameType, 0;
    assert buf[..4] == [FRAME_MAGIC0, FRAME_MAGIC1, frameType, 0];
    PutLE(buf, 4, 4, srcVIP);
    assert buf[..8] == [FRAME_MAGIC0, FRAME_MAGIC1, frameType, 0] + LE(srcVIP, 4);
    PutLE(buf, 8, 4, dstVIP);
    assert buf[..12] == [FRAME_MAGIC0, FRAME_MAGIC1, frameType, 0] + LE(srcVIP, 4) + LE(dstVIP, 4);
    PutBytes(buf, FRAME_HEADER_SIZE, payload);
  }

  predicate IsCompactFrame(data: seq<byte>) {
    |data| >= 2 && data[0] == FRAME_MAGIC0 && data[1] == FRAME_MAGIC1
  }

  function Uint32At(data: seq<byte>, at: nat): uint32
    requires at + 4 <= |data|
  {
    LEofFromLE(data[at..at + 4]);
    Widths();
    FromLE(data[at..at + 4])
  }

  function DecodeFrame(data: seq<byte>): Result<Frame> {
    if |data| < FRAME_HEADER_SIZE then Err(ErrShortFrame)
    else if data[0] != FRAME_MAGIC0 || data[1] != FRAME_MAGIC1 then Err(ErrBadMagic)
    else Ok(Frame(data[2], Uint32At(data, 4), Uint32At(data, 8), data[FRAME_HEADER_SIZE..]))
  }

  /** Decoding undoes encoding, for every type, every pair of numbers and every payload. */
  lemma DecodeEncodedFrame(f: Frame)
    ensures IsCompactFrame(FrameBytes(f))
    ensures DecodeFrame(FrameBytes(f)) == Ok(f)
  {
    var b := FrameBytes(f);
    assert b[4..8] == LE(f.srcVIP, 4) && b[8..12] == LE(f.dstVIP, 4) && b[12..] == f.payload;
    Widths();
    FromLEofLE(f.srcVIP, 4);
    FromLEofLE(f.dstVIP, 4);
  }

  /** The layout, byte by byte: the letters N and B, the kind, 0, both numbers with the least significant
      byte first, the payload. */
  lemma FrameLayout(f: Frame)
    ensures var b, s, d := FrameBytes(f), f.srcVIP, f.dstVIP;
            && b[..4] == ['N' as int, 'B' as int, f.frameType, 0]
            && b[4..8] == [s % 0x100, s / 0x100 % 0x100, s / 0x1_0000 % 0x100, s / 0x100_0000]
            && b[8..12] == [d % 0x100, d / 0x100 % 0x100, d / 0x1_0000 % 0x100, d / 0x100_0000]
            && b[12..] == f.payload
  {
    Word32(f.srcVIP);
    Word32(f.dstVIP);
  }

  /** The kinds: 1 direct data, 2 relayed data, 3 voice, 4 probe, 5 echo. */
  lemma Kinds()
    ensures [FRAME_P2P, FRAME_RELAY, FRAME_VOICE, FRAME_PING, FRAME_PONG] == [1, 2, 3, 4, 5]
  {
  }

  /** Encoding a decoded frame restores the bytes exactly when the reserved byte was 0. */
  lemma ReencodeIffReservedZero(data: seq<byte>)
    requires DecodeFrame(data).Ok?
    ensures FrameBytes(DecodeFrame(data).value) == data <==> data[3] == 0
    ensures FrameBytes(DecodeFrame(data).value) == data[3 := 0]
  {
    var f := DecodeFrame(data).value;
    LEofFromLE(data[4..8]);
    LEofFromLE(data[8..12]);
    var b := FrameBytes(f);
    var zeroed := data[3 := 0];
    assert zeroed == zeroed[..4] + data[4..8] + data[8..12] + data[12..];
    assert zeroed[..4] == [FRAME_MAGIC0, FRAME_MAGIC1, f.frameType, 0];
    assert b[3] == 0;
    if data[3] == 0 { assert zeroed == data; }
  }

  // ---------------------------------------------------------------- latency probes

  function ToUint64(n: int64): uint64 {
    if n < 0 then n + 0x1_0000_0000_0000_0000 else n
  }

  function ToInt64(u: uint64): int64 {
    if u < 0x8000_0000_0000_0000 then u else u - 0x1_0000_0000_0000_0000
  }

  method EncodePingTS(ts: int64) returns (b: array<byte>)
    ensures fresh(b) && b[..] == LE(ToUint64(ts), PING_PAYLOAD_SIZE)
  {
    b := new byte[PING_PAYLOAD_SIZE](_ => 0);
    PutLE(b, 0, PING_PAYLOAD_SIZE, ToUint64(ts));
    assert b[..] == LE(ToUint64(ts), PING_PAYLOAD_SIZE);
  }

  datatype PingTS = NoTS | TS(ts: int64)

  function DecodePingTS(b: seq<byte>): PingTS {
    if |b| < PING_PAYLOAD_SIZE then NoTS
    else
      LEofFromLE(b[..PING_PAYLOAD_SIZE]);
      Widths();
      TS(ToInt64(FromLE(b[..PING_PAYLOAD_SIZE])))
  }

  /** A probe framed by one side is read back by the other, negative times and trailing bytes
      included; anything shorter than the 8 bytes of a time is refused. */
  lemma ProbeRoundTrip(frameType: byte, src: uint32, dst: uint32, ts: int64, extra: seq<byte>)
    ensures var payload := LE(ToUint64(ts), PING_PAYLOAD_SIZE) + extra;
            var f := DecodeFrame(FrameBytes(Frame(frameType, src, dst, payload)));
            f == Ok(Frame(frameType, src, dst, payload)) && DecodePingTS(f.value.payload) == TS(ts)
    ensures DecodePingTS(extra) == NoTS <==> |extra| < 8
  {
    var payload := LE(ToUint64(ts), PING_PAYLOAD_SIZE) + extra;
    DecodeEncodedFrame(Frame(frameType, src, dst, payload));
    assert payload[..PING_PAYLOAD_SIZE] == LE(ToUint64(ts), PING_PAYLOAD_SIZE);
    Widths();
    FromLEofLE(ToUint64(ts), PING_PAYLOAD_SIZE);
  }

  /** A time is the 8 bytes of its two's complement, least significant first. */
  lemma ProbeLayout(ts: int64, i: nat)
    requires i < 8
    ensures |LE(ToUint64(ts), PING_PAYLOAD_SIZE)| == 8
    ensures LE(ToUint64(ts), PING_PAYLOAD_SIZE)[i]
         == (if ts < 0 then ts + 0x1_0000_0000_0000_0000 else ts) / Pow256(i) % 256
  {
    LEAt(ToUint64(ts), PING_PAYLOAD_SIZE, i);
  }

  // ---------------------------------------------------------------- voice payloads

  datatype Voice = Voice(codec: byte, seqNum: uint16, ts: uint64, audio: seq<byte>)

  function VoiceBytes(v: Voice): seq<byte> {
    [v.codec] + LE(v.seqNum, 2) + LE(v.ts, 8) + v.audio
  }

  method EncodeVoicePayload(codec: byte, seqNum: uint16, ts: uint64, audio: seq<byte>) returns (buf: array<byte>)
    ensures fresh(buf) && buf[..] == VoiceBytes(Voice(codec, seqNum, ts, audio))
  {
    buf := new byte[VOICE_HEADER_SIZE + |audio|](_ => 0);
    buf[0] := codec;
    assert buf[..1] == [codec];
    PutLE(buf, 1, 2, seqNum);
    assert buf[..3] == [codec] + LE(seqNum, 2);
    PutLE(buf, 3, 8, ts);
    assert buf[..11] == [codec] + LE(seqNum, 2) + LE(ts, 8);
    PutBytes(buf, VOICE_HEADER_SIZE, audio);
  }

  function DecodeVoicePayload(data: seq<byte>): Result<Voice> {
    if |data| < VOICE_HEADER_SIZE then Err(ErrShortFrame)
    else
      LEofFromLE(data[1..3]);
      LEofFromLE(data[3..11]);
      Widths();
      Ok(Voice(data[0], FromLE(data[1..3]), FromLE(data[3..11]), data[VOICE_HEADER_SIZE..]))
  }

  lemma VoiceFields(v: Voice)
    ensures var b := VoiceBytes(v);
            b[0] == v.codec && FromLE(b[1..3]) == v.seqNum && FromLE(b[3..11]) == v.ts && b[11..] == v.audio
  {
    var b := VoiceBytes(v);
    assert b[1..3] == LE(v.seqNum, 2) && b[3..11] == LE(v.ts, 8) && b[11..] == v.audio;
    Widths();
    FromLEofLE(v.seqNum, 2);
    FromLEofLE(v.ts, 8);
  }

  /** The layout, byte by byte: codec, number and time with the least significant byte first, audio. */
  lemma VoiceLayout(v: Voice)
    ensures var b := VoiceBytes(v);
            && b[0] == v.codec && b[1..3] == [v.seqNum % 0x100, v.seqNum / 0x100] && b[11..] == v.audio
            && forall i :: 0 <= i < 8 ==> b[3 + i] == v.ts / Pow256(i) % 256
  {
    var b := VoiceBytes(v);
    LEAt(v.seqNum, 2, 0);
    LEAt(v.seqNum, 2, 1);
    assert Pow256(1) == 0x100 && b[1..3] == LE(v.seqNum, 2);
    forall i | 0 <= i < 8 ensures b[3 + i] == v.ts / Pow256(i) % 256 {
      LEAt(v.ts, 8, i);
    }
  }

  /** A voice payload nested in a frame comes out as it went in. */
  lemma NestedVoiceRoundTrip(frameType: byte, src: uint32, dst: uint32, v: Voice)
    ensures var f := DecodeFrame(FrameBytes(Frame(frameType, src, dst, VoiceBytes(v))));
            f == Ok(Frame(frameType, src, dst, VoiceBytes(v))) && DecodeVoicePayload(f.value.payload) == Ok(v)
  {
    DecodeEncodedFrame(Frame(frameType, src, dst, VoiceBytes(v)));
    VoiceFields(v);
  }

  /** Payloads shorter than 11 bytes are refused, by the browser as silence. */
  lemma VoiceShort(data: seq<byte>)
    ensures DecodeVoicePayload(data) == Err(ErrShortFrame) <==> |data| < 11
    ensures |data| < 11 ==> JsDecodeVoicePayload(data) == JsVoice(0, 0, 0, [])
  {
  }

  /** Every payload long enough is the encoding of what it decodes to. */
  lemma VoiceReencode(data: seq<byte>)
    requires DecodeVoicePayload(data).Ok?
    ensures VoiceBytes(DecodeVoicePayload(data).value) == data
  {
    LEofFromLE(data[1..3]);
    LEofFromLE(data[3..11]);
    assert data == [data[0]] + data[1..3] + data[3..11] + data[11..];
  }

  // ---------------------------------------------------------------- the JavaScript twin

  // JavaScript numbers: the sender's counters are non-negative integers of any size.
  method JsEncodeVoicePayload(codec: nat, seqNum: nat, ts: nat, audio: seq<byte>) returns (buf: array<byte>)
    ensures fresh(buf)
    ensures buf[..] == VoiceBytes(Voice(codec % 0x100, seqNum % 0x1_0000, ts % 0x1_0000_0000_0000_0000, audio))
  {
    buf := new byte[VOICE_HEADER_SIZE + |audio|](_ => 0);
    PutLE(buf, 0, 1, codec);
    assert buf[..1] == LE(codec, 1);
    PutLE(buf, 1, 2, seqNum);
    assert buf[..3] == LE(codec, 1) + LE(seqNum, 2);
    PutLE(buf, 3, 8, ts);
    assert buf[..11] == LE(codec, 1) + LE(seqNum, 2) + LE(ts, 8);
    PutBytes(buf, VOICE_HEADER_SIZE, audio);
    TwinBytes(codec, seqNum, ts);
  }

  /** The two encoders agree byte for byte: DataView keeps the low bytes of what it is given. */
  lemma TwinBytes(codec: nat, seqNum: nat, ts: nat)
    ensures LE(codec, 1) == [codec % 0x100]
    ensures LE(seqNum, 2) == LE(seqNum % 0x1_0000, 2)
    ensures LE(ts, 8) == LE(ts % 0x1_0000_0000_0000_0000, 8)
  {
    Widths();
    LEWraps(seqNum, 2);
    LEWraps(ts, 8);
  }

  const EXACT: nat := 0x20_0000_0000_0000 // 2 to the 53rd

  /** The spacing of doubles around x. */
  function Ulp(x: nat): (u: nat)
    ensures u > 0
  {
    if x < EXACT then 1 else 2 * Ulp(x / 2)
  }

  /** Doubles carry 53 bits: the spacing is 1 up to 2^53, and beyond the number has exactly 53 bits above it. */
  lemma {:induction false} UlpIs(x: nat)
    ensures x < 0x20_0000_0000_0000 * Ulp(x)
    ensures if x < 0x20_0000_0000_0000 then Ulp(x) == 1 else x >= 0x10_0000_0000_0000 * Ulp(x)
    decreases x
  {
    if x >= 0x20_0000_0000_0000 {
      UlpIs(x / 2);
    }
  }

  /** Number(x) for a BigInt: the nearest double, ties to even. */
  function ToNumber(x: nat): nat {
    var u := Ulp(x);
    var q, r := x / u, x % u;
    if 2 * r < u || (2 * r == u && q % 2 == 0) then q * u else (q + 1) * u
  }

  datatype JsVoice = JsVoice(codec: nat, seqNum: nat, ts: nat, audio: seq<byte>)

  function JsDecodeVoicePayload(data: seq<byte>): JsVoice {
    if |data| < VOICE_HEADER_SIZE then JsVoice(0, 0, 0, [])
    else JsVoice(data[0], FromLE(data[1..3]), ToNumber(FromLE(data[3..11])), data[VOICE_HEADER_SIZE..])
  }

  /** Conversion keeps a timestamp exactly when it lies on the doubles' grid, so always below 2^53. */
  lemma ToNumberExactIff(x: nat)
    ensures ToNumber(x) == x <==> x % Ulp(x) == 0
    ensures x < 0x20_0000_0000_0000 ==> ToNumber(x) == x
  {
    var u := Ulp(x);
    var q, r := x / u, x % u;
    assert x == q * u + r;
    if r == 0 {
      assert ToNumber(x) == q * u;
    } else {
      assert (q + 1) * u == q * u + u;
    }
  }

  lemma Quotient(x: nat, u: nat)
    requires u > 0
    ensures x == x / u * u + x % u && (x / u + 1) * u == x / u * u + u
  {
  }

  predicate RoundsDown(q: nat, r: nat, u: nat) {
    2 * r < u || (2 * r == u && q % 2 == 0)
  }

  lemma Rounded(x: nat) returns (q: nat, r: nat)
    ensures r < Ulp(x) && x == q * Ulp(x) + r && (q + 1) * Ulp(x) == q * Ulp(x) + Ulp(x)
    ensures ToNumber(x) == if RoundsDown(q, r, Ulp(x)) then q * Ulp(x) else (q + 1) * Ulp(x)
  {
    q, r := x / Ulp(x), x % Ulp(x);
    Quotient(x, Ulp(x));
  }

  /** Otherwise it gives the nearest grid point, the even one of two equally near. */
  lemma ToNumberNearest(x: nat) returns (k: nat)
    ensures ToNumber(x) == k * Ulp(x)
    ensures 2 * ToNumber(x) <= 2 * x + Ulp(x) && 2 * x <= 2 * ToNumber(x) + Ulp(x)
    ensures 2 * ToNumber(x) == 2 * x + Ulp(x) || 2 * x == 2 * ToNumber(x) + Ulp(x) ==> k % 2 == 0
  {
    var q, r := Rounded(x);
    k := if RoundsDown(q, r, Ulp(x)) then q else q + 1;
  }

  /** The browser reads back what either encoder wrote, whatever the counters have grown to, up to
      the wire's 16-bit sequence number and the exactness of the timestamp. */
  lemma JsRoundTrip(v: Voice)
    ensures JsDecodeVoicePayload(VoiceBytes(v)) == JsVoice(v.codec, v.seqNum, ToNumber(v.ts), v.audio)
    ensures JsDecodeVoicePayload(VoiceBytes(v)).ts == v.ts <==> v.ts % Ulp(v.ts) == 0
  {
    VoiceFields(v);
    ToNumberExactIff(v.ts);
  }
}
