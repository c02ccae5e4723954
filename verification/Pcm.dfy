/** The uncompressed voice path: the PCM encoder (client/frontend/src/voice/encode.js), the PCM
    branch of playback (client/frontend/src/voice/playback.js), and the whole stream from the
    microphone's blocks to the listener's samples. Samples are reals; at gain and volume 1 the
    products and quotients of the original are exact. */
module Pcm {
  import opened Frames
  import opened Reframe

  // ---------------------------------------------------------------- one sample

  /** Math.max(-1, Math.min(1, s)). */
  function Clamp(s: real): real {
    if s < -1.0 then -1.0 else if s > 1.0 then 1.0 else s
  }

  /** Rounding toward zero (section 7.1.8 of ECMA-262). */
  function Trunc(x: real): int {
    if x < 0.0 then -((-x).Floor) else x.Floor
  }

  /** Storing an integer in an Int16Array. */
  function ToInt16(n: int): (q: int)
    ensures -0x8000 <= q < 0x8000
  {
    (n + 0x8000) % 0x1_0000 - 0x8000
  }

  function Scaled(s: real): real {
    var c := Clamp(s);
    if c < 0.0 then c * 32768.0 else c * 32767.0
  }

  function Quantise(s: real): (q: int)
    ensures -0x8000 <= q < 0x8000
  {
    ToInt16(Trunc(Scaled(s)))
  }

  /** The value a received sample plays at. */
  function Level(q: int): real {
    q as real / 32768.0
  }

  /** The 16-bit value is the truncated product itself: it never wraps. */
  lemma NeverWraps(s: real)
    ensures Quantise(s) == Trunc(Scaled(s))
    ensures -32768.0 <= Scaled(s) <= 32767.0
  {
    var x := Scaled(s);
    if x < 0.0 {
      assert (-x).Floor <= 32768;
    } else {
      assert x.Floor <= 32767;
    }
  }

  lemma ScaledMonotone(a: real, b: real)
    requires a <= b
    ensures Scaled(a) <= Scaled(b)
  {
  }

  lemma TruncMonotone(x: real, y: real)
    requires x <= y
    ensures Trunc(x) <= Trunc(y)
  {
    if y < 0.0 {
      assert (-y).Floor <= (-x).Floor;
    } else if 0.0 <= x {
      assert x.Floor <= y.Floor;
    } else {
      assert 0 <= (-x).Floor && 0 <= y.Floor;
    }
  }

  /** A louder sample never becomes a smaller number. */
  lemma QuantiseMonotone(a: real, b: real)
    requires a <= b
    ensures Quantise(a) <= Quantise(b)
  {
    NeverWraps(a);
    NeverWraps(b);
    ScaledMonotone(a, b);
    TruncMonotone(Scaled(a), Scaled(b));
  }

  /** The stored value, by the sample alone: the ends of the range beyond full scale, and within it the
      integer next to 32768 s, for s < 0, or to 32767 s, on the side of zero. */
  lemma QuantiseIs(s: real)
    ensures s < -1.0 ==> Quantise(s) == -32768
    ensures s > 1.0 ==> Quantise(s) == 32767
    ensures -1.0 <= s < 0.0 ==> Quantise(s) as real - 1.0 < 32768.0 * s <= Quantise(s) as real
    ensures 0.0 <= s <= 1.0 ==> Quantise(s) as real <= 32767.0 * s < Quantise(s) as real + 1.0
  {
    NeverWraps(s);
    var x := Scaled(s);
    if x < 0.0 {
      assert (-x).Floor as real <= -x < (-x).Floor as real + 1.0;
    }
  }

  /** What comes out for a sample: full scale beyond full scale; for a negative one, less than 1 part in
      32768 above it; for another, less than 1 part below 32767/32768 of it. Never louder than it. */
  predicate Near(out: real, s: real) {
    if s < -1.0 then out == -1.0
    else if s < 0.0 then 0.0 <= out - s < 1.0 / 32768.0
    else if s <= 1.0 then 0.0 <= s * 32767.0 / 32768.0 - out < 1.0 / 32768.0
    else out == 32767.0 / 32768.0
  }

  lemma QuantiseNear(s: real)
    ensures Near(Level(Quantise(s)), s)
  {
    QuantiseIs(s);
  }

  // ---------------------------------------------------------------- one frame

  /** Every third sample, as 16-bit values. */
  function Downsample(pcm: Samples): (q: seq<int>)
    ensures |q| == |pcm| / 3
    ensures forall i :: 0 <= i < |q| ==> q[i] == Quantise(pcm[3 * i])
  {
    seq(|pcm| / 3, i requires 0 <= i < |pcm| / 3 => Quantise(pcm[3 * i]))
  }

  predicate Int16s(q: seq<int>) {
    forall i :: 0 <= i < |q| ==> -0x8000 <= q[i] < 0x8000
  }

  /** The memory of an Int16Array, little-endian. */
  function Bytes16(q: seq<int>): (b: seq<byte>)
    ensures |b| == 2 * |q|
  {
    if |q| == 0 then [] else Bytes16(q[..|q| - 1]) + LE(q[|q| - 1] % 0x1_0000, 2)
  }

  /** An Int16Array over a copy of the bytes; an odd number of them throws. */
  function Int16At(b: seq<byte>, i: nat): int
    requires 2 * i + 2 <= |b|
  {
    ToInt16(FromLE(b[2 * i..2 * i + 2]))
  }

  lemma Int16Read(n: int)
    requires -0x8000 <= n < 0x8000
    ensures ToInt16(FromLE(LE(n % 0x1_0000, 2))) == n
  {
    FromLEofLE(n % 0x1_0000, 2);
    assert Pow256(1) == 0x100 && Pow256(2) == 0x1_0000;
  }

  lemma {:induction false} Bytes16Read(q: seq<int>, i: nat)
    requires i < |q| && Int16s(q)
    ensures Int16At(Bytes16(q), i) == q[i]
    decreases |q|
  {
    var n := |q| - 1;
    var before, last := Bytes16(q[..n]), LE(q[n] % 0x1_0000, 2);
    if i < n {
      Bytes16Read(q[..n], i);
      assert Bytes16(q)[2 * i..2 * i + 2] == before[2 * i..2 * i + 2];
    } else {
      assert Bytes16(q)[2 * n..2 * n + 2] == last;
      Int16Read(q[n]);
    }
  }

  /** And they are little-endian 16-bit words. */
  lemma {:induction false} Bytes16At(q: seq<int>, i: nat)
    requires i < |q|
    ensures Bytes16(q)[2 * i] == q[i] % 0x100 && Bytes16(q)[2 * i + 1] == q[i] / 0x100 % 0x100
    decreases |q|
  {
    var n := |q| - 1;
    var before, last := Bytes16(q[..n]), LE(q[n] % 0x1_0000, 2);
    assert Bytes16(q) == before + last;
    if i < n {
      Bytes16At(q[..n], i);
      assert Bytes16(q)[2 * i] == before[2 * i] && Bytes16(q)[2 * i + 1] == before[2 * i + 1];
    } else {
      Word16(q[n]);
      assert Bytes16(q)[2 * n] == last[0] && Bytes16(q)[2 * n + 1] == last[1];
    }
  }

  lemma Word16(n: int)
    ensures LE(n % 0x1_0000, 2) == [n % 0x100, n / 0x100 % 0x100]
  {
    var q, m := n / 0x1_0000, n % 0x1_0000;
    LEAt(m, 2, 0);
    LEAt(m, 2, 1);
    assert Pow256(1) == 0x100;
    LowWord(q, m);
    assert n == 0x1_0000 * q + m;
  }

  lemma LowWord(q: int, m: nat)
    requires m < 0x1_0000
    ensures (0x1_0000 * q + m) % 0x100 == m % 0x100
    ensures (0x1_0000 * q + m) / 0x100 % 0x100 == m / 0x100 % 0x100
  {
    var n := 0x1_0000 * q + m;
    assert n == 0x100 * (0x100 * q + m / 0x100) + m % 0x100;
    assert n / 0x100 == 0x100 * q + m / 0x100;
  }

  datatype Packet = Packet(codec: nat, seqNum: nat, ts: nat, data: seq<byte>)

  class PcmEncoder {
    var seqNum: nat
    var frameIdx: nat

    constructor ()
      ensures seqNum == 0 && frameIdx == 0
    {
      seqNum, frameIdx := 0, 0;
    }

    method Encode(pcm: Samples) returns (packet: Packet)
      modifies this
      ensures packet == Packet(0, old(seqNum), old(frameIdx) * 20000, Bytes16(Downsample(pcm)))
      ensures seqNum == old(seqNum) + 1 && frameIdx == old(frameIdx) + 1
    {
      var n := |pcm| / 3;
      var i16 := new int[n];
      for i := 0 to n
        modifies i16
        invariant forall j :: 0 <= j < i ==> i16[j] == Quantise(pcm[3 * j])
      {
        var s := pcm[3 * i];
        s := if s < -1.0 then -1.0 else if s > 1.0 then 1.0 else s;
        i16[i] := ToInt16(Trunc(if s < 0.0 then s * 32768.0 else s * 32767.0));
      }
      assert i16[..] == Downsample(pcm);
      packet := Packet(0, seqNum, frameIdx * 20000, Bytes16(i16[..]));
      seqNum, frameIdx := seqNum + 1, frameIdx + 1;
    }
  }

  datatype Played = Nothing | RangeError | Play(samples: Samples)

  /** out plays each received value for three samples. */
  ghost predicate Tripled(out: Samples, audio: seq<byte>) {
    && |audio| % 2 == 0 && |out| == 3 * (|audio| / 2)
    && forall g :: 0 <= g < |out| ==> out[g] == Level(Int16At(audio, g / 3))
  }

  /** The PCM branch of handleVoice, up to scheduling. */
  method PlayPcm(audio: seq<byte>) returns (r: Played)
    ensures |audio| == 0 <==> r == Nothing
    ensures |audio| % 2 == 1 <==> r == RangeError
    ensures r.Play? ==> Tripled(r.samples, audio)
  {
    if |audio| == 0 {
      return Nothing;
    }
    if |audio| % 2 == 1 {
      return RangeError;
    }
    var n := |audio| / 2;
    var f32 := new real[n * 3];
    for i := 0 to n
      invariant forall g :: 0 <= g < 3 * i ==> f32[g] == Level(Int16At(audio, g / 3))
    {
      var s := Int16At(audio, i) as real / 32768.0;
      f32[i * 3] := s;
      f32[i * 3 + 1] := s;
      f32[i * 3 + 2] := s;
    }
    r := Play(f32[..]);
  }

  /** Position g of the played stream is close to the spoken one's third sample there, and holds it. */
  ghost predicate HeardAt(played: Samples, spoken: Samples, g: nat) {
    var third := g - g % 3;
    && g < |played| && third < |spoken|
    && Near(played[g], spoken[third]) && played[g] == played[third]
  }

  /** A frame played from the bytes of its own encoding: as long as the frame (cut to a multiple of
      three), each third sample close to the input and held for the next two. */
  lemma FramePlayedNear(pcm: Samples, out: Samples, g: nat)
    requires Tripled(out, Bytes16(Downsample(pcm)))
    ensures |out| == |pcm| - |pcm| % 3
    ensures g < |out| ==> HeardAt(out, pcm, g)
  {
    if g < |out| {
      var third := g - g % 3;
      assert third == 3 * (g / 3);
      Bytes16Read(Downsample(pcm), g / 3);
      QuantiseNear(pcm[third]);
    }
  }

  // ---------------------------------------------------------------- the whole stream

  /** The bytes the sender's encoder makes of a packet numbered and timed k. */
  function Wire(k: nat, data: seq<byte>): seq<byte> {
    VoiceBytes(Voice(0, k % 0x1_0000, (k * 20000) % 0x1_0000_0000_0000_0000, data))
  }

  lemma WireCarries(k: nat, data: seq<byte>)
    ensures JsDecodeVoicePayload(Wire(k, data)).codec == 0 && JsDecodeVoicePayload(Wire(k, data)).audio == data
  {
    JsRoundTrip(Voice(0, k % 0x1_0000, (k * 20000) % 0x1_0000_0000_0000_0000, data));
  }

  /** The k-th frame, encoded, framed as a voice payload, received, unwrapped and played. */
  ghost predicate Delivered(frame: Samples, k: nat, out: Samples) {
    var got := JsDecodeVoicePayload(Wire(k, Bytes16(Downsample(frame))));
    got.codec == 0 && Tripled(out, got.audio)
  }

  method Send(packet: Packet) returns (wire: seq<byte>)
    requires packet.codec == 0 && packet.ts == packet.seqNum * 20000
    ensures wire == Wire(packet.seqNum, packet.data)
  {
    var buf := JsEncodeVoicePayload(packet.codec, packet.seqNum, packet.ts, packet.data);
    wire := buf[..];
  }

  /** One frame over the wire, by the two ends' own code. */
  method Transport(enc: PcmEncoder, frame: Samples) returns (out: Samples)
    requires |frame| >= 3 && enc.seqNum == enc.frameIdx
    modifies enc
    ensures Delivered(frame, old(enc.seqNum), out)
    ensures enc.seqNum == enc.frameIdx == old(enc.seqNum) + 1
  {
    var packet := enc.Encode(frame);
    var wire := Send(packet);
    WireCarries(packet.seqNum, packet.data);
    var got := JsDecodeVoicePayload(wire);
    var played := PlayPcm(got.audio);
    out := played.samples;
  }

  /** All frames of a stream, in order. */
  method Speak(blocks: seq<Samples>) returns (heard: seq<Samples>)
    ensures |heard| == |Posted(blocks)|
    ensures forall k :: 0 <= k < |heard| ==> Delivered(Posted(blocks)[k], k, heard[k])
  {
    var frames, _ := Stream(blocks);
    StreamConserved(blocks);
    CutConserves(Flatten(blocks));
    var enc := new PcmEncoder();
    heard := [];
    for k := 0 to |frames|
      invariant fresh(enc) && enc.seqNum == enc.frameIdx == k == |heard|
      invariant forall j :: 0 <= j < k ==> Delivered(frames[j], j, heard[j])
    {
      var out := Transport(enc, frames[k]);
      heard := heard + [out];
    }
  }

  /** A whole frame came out close to what went in. */
  ghost predicate FrameNear(frame: Samples, out: Samples) {
    |frame| == |out| == FRAME_SIZE && forall x :: 0 <= x < FRAME_SIZE ==> HeardAt(out, frame, x)
  }

  lemma DeliveredNear(frame: Samples, k: nat, out: Samples)
    requires Delivered(frame, k, out) && |frame| == FRAME_SIZE
    ensures FrameNear(frame, out)
  {
    WireCarries(k, Bytes16(Downsample(frame)));
    FramePlayedNear(frame, out, 0);
    forall x | 0 <= x < FRAME_SIZE ensures HeardAt(out, frame, x) {
      FramePlayedNear(frame, out, x);
    }
  }

  lemma {:induction false} FlattenedLength(frames: seq<Samples>)
    requires forall k :: 0 <= k < |frames| ==> |frames[k]| == FRAME_SIZE
    ensures |Flatten(frames)| == FRAME_SIZE * |frames|
    decreases |frames|
  {
    if |frames| > 0 {
      FlattenedLength(frames[..|frames| - 1]);
    }
  }

  lemma {:induction false} FlattenedAt(frames: seq<Samples>, k: nat, x: nat)
    requires forall j :: 0 <= j < |frames| ==> |frames[j]| == FRAME_SIZE
    requires k < |frames| && x < FRAME_SIZE
    ensures FRAME_SIZE * k + x < |Flatten(frames)| && Flatten(frames)[FRAME_SIZE * k + x] == frames[k][x]
    decreases |frames|
  {
    var init := frames[..|frames| - 1];
    FlattenedLength(init);
    if k < |init| {
      FlattenedAt(init, k, x);
    }
  }

  /** Rounding down to a multiple of three stays within the frame: 960 is one. */
  lemma SameFrame(k: nat, x: nat)
    ensures (FRAME_SIZE * k + x) % 3 == x % 3
  {
    assert FRAME_SIZE * k + x == 3 * (320 * k) + x;
  }

  ghost predicate FramesNear(frames: seq<Samples>, heard: seq<Samples>) {
    |heard| == |frames| && forall k :: 0 <= k < |heard| ==> FrameNear(frames[k], heard[k])
  }

  lemma FrameHeard(frames: seq<Samples>, heard: seq<Samples>, k: nat, x: nat)
    requires FramesNear(frames, heard) && k < |frames| && x < FRAME_SIZE
    ensures HeardAt(Flatten(heard), Flatten(frames), FRAME_SIZE * k + x)
  {
    var third := x - x % 3;
    assert FrameNear(frames[k], heard[k]);
    assert HeardAt(heard[k], frames[k], x);
    SameFrame(k, x);
    FlattenedAt(heard, k, x);
    FlattenedAt(heard, k, third);
    FlattenedAt(frames, k, third);
  }

  lemma HeardInLonger(played: Samples, spoken: Samples, rest: Samples, g: nat)
    requires HeardAt(played, spoken, g)
    ensures HeardAt(played, spoken + rest, g)
  {
  }

  lemma FramesHeard(frames: seq<Samples>, heard: seq<Samples>, rest: Samples)
    requires FramesNear(frames, heard)
    ensures |Flatten(heard)| == FRAME_SIZE * |frames|
    ensures forall g :: 0 <= g < |Flatten(heard)| ==> HeardAt(Flatten(heard), Flatten(frames) + rest, g)
  {
    FlattenedLength(heard);
    forall g | 0 <= g < |Flatten(heard)| ensures HeardAt(Flatten(heard), Flatten(frames) + rest, g) {
      PositionHeard(frames, heard, g);
      HeardInLonger(Flatten(heard), Flatten(frames), rest, g);
    }
  }

  lemma PositionHeard(frames: seq<Samples>, heard: seq<Samples>, g: nat)
    requires FramesNear(frames, heard) && g < FRAME_SIZE * |frames|
    ensures HeardAt(Flatten(heard), Flatten(frames), g)
  {
    assert g == FRAME_SIZE * (g / FRAME_SIZE) + g % FRAME_SIZE;
    FrameHeard(frames, heard, g / FRAME_SIZE, g % FRAME_SIZE);
  }

  lemma AllDeliveredNear(frames: seq<Samples>, heard: seq<Samples>)
    requires |heard| == |frames| && forall k :: 0 <= k < |heard| ==> Delivered(frames[k], k, heard[k])
    requires forall k :: 0 <= k < |frames| ==> |frames[k]| == FRAME_SIZE
    ensures FramesNear(frames, heard)
  {
    forall k | 0 <= k < |heard| ensures FrameNear(frames[k], heard[k]) {
      DeliveredNear(frames[k], k, heard[k]);
    }
  }

  /** Whatever blocks the microphone delivers, and with every packet arriving in order, the listener
      hears one sample per input sample up to the last whole frame: each third one less than 1/32768 from
      the input at the same position, or from 32767/32768 of it when positive, with full scale beyond
      full scale, and the two after it the same.
      The alignment is global because a frame is a multiple of three samples. */
  lemma StreamHeardNear(blocks: seq<Samples>, heard: seq<Samples>)
    requires |heard| == |Posted(blocks)|
    requires forall k :: 0 <= k < |heard| ==> Delivered(Posted(blocks)[k], k, heard[k])
    ensures |Flatten(heard)| == |Flatten(blocks)| - |Flatten(blocks)| % FRAME_SIZE
    ensures forall g :: 0 <= g < |Flatten(heard)| ==> HeardAt(Flatten(heard), Flatten(blocks), g)
  {
    StreamConserved(blocks);
    CutConserves(Flatten(blocks));
    AllDeliveredNear(Posted(blocks), heard);
    FramesHeard(Posted(blocks), heard, HeldAfter(blocks));
  }
}
