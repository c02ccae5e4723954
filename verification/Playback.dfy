/** The listener's side of voice (client/frontend/src/voice/playback.js): one playback stream per
    speaker, and the scheduler that absorbs jitter. Times are seconds of the audio clock, as reals. */
module Playback {
  import opened Frames
  import opened Reframe
  import opened Pcm

  const LEAD: real := 0.05   // how far ahead a stream restarts
  const AHEAD: real := 0.3   // how far ahead a frame may be queued

  predicate Late(next: real, now: real) { next < now }
  predicate TooFarAhead(next: real, now: real) { next > now + AHEAD }

  /** When a frame handled at now starts, if the stream is booked up to next. */
  function StartTime(next: real, now: real): real {
    if Late(next, now) || TooFarAhead(next, now) then now + LEAD else next
  }

  const SAMPLE_RATE: real := 48000.0

  function Duration(samples: Samples): real {
    |samples| as real / SAMPLE_RATE
  }

  function Louder(samples: Samples, vol: real): (out: Samples)
    ensures |out| == |samples| && forall i :: 0 <= i < |out| ==> out[i] == samples[i] * vol
  {
    seq(|samples|, i requires 0 <= i < |samples| => samples[i] * vol)
  }

  lemma FullVolume(samples: Samples)
    ensures Louder(samples, 1.0) == samples
  {
  }

  class Player {
    const srcVIP: nat
    var nextPlayTime: real
    var codec: nat
    // Whether an Opus decoder is attached.
    var decoding: bool
    var vol: real

    constructor (srcVIP: nat, codec: nat, decoding: bool, vol: real)
      ensures this.srcVIP == srcVIP && this.codec == codec && this.decoding == decoding
      ensures nextPlayTime == 0.0 && this.vol == vol
    {
      this.srcVIP, this.codec, this.decoding, nextPlayTime, this.vol := srcVIP, codec, decoding, 0.0, vol;
    }

    method ApplyVolume(samples: Samples) returns (out: Samples)
      ensures out == Louder(samples, vol)
    {
      if vol == 1.0 {
        FullVolume(samples);
        return samples;
      }
      out := [];
      for i := 0 to |samples|
        invariant |out| == i && forall j :: 0 <= j < i ==> out[j] == samples[j] * vol
      {
        out := out + [samples[i] * vol];
      }
    }

    /** Scale by this speaker's volume, and book the frame. */
    method Schedule(samples: Samples, now: real) returns (start: real, out: Samples)
      modifies this`nextPlayTime
      ensures start == StartTime(old(nextPlayTime), now) && nextPlayTime == start + Duration(samples)
      ensures nextPlayTime == start + |samples| as real / 48000.0
      ensures start == if now <= old(nextPlayTime) <= now + 0.3 then old(nextPlayTime) else now + 0.05
      ensures out == Louder(samples, vol)
    {
      out := ApplyVolume(samples);
      if nextPlayTime < now || nextPlayTime > now + 0.3 {
        nextPlayTime := now + 0.05;
      }
      start := nextPlayTime;
      nextPlayTime := nextPlayTime + Duration(samples);
    }
  }

  datatype Outcome =
    | Silent                                   // nothing to play
    | Threw                                    // an odd number of PCM bytes
    | ToDecoder(ts: nat, audio: seq<byte>)     // Opus: answered later, in order
    | Scheduled(start: real, samples: Samples)

  const OPUS_CODEC: nat := 1

  class Playback {
    var players: map<nat, Player>

    ghost predicate Valid()
      reads this, players.Values
    {
      forall v :: v in players ==> players[v].srcVIP == v && (players[v].decoding <==> players[v].codec == OPUS_CODEC)
    }

    constructor ()
      ensures Valid() && players == map[]
    {
      players := map[];
    }

    /** The speaker's stream, made on first use and given or rid of a decoder when the codec changes. */
    method GetPlayer(srcVIP: nat, codec: nat) returns (p: Player)
      requires Valid()
      modifies this, if srcVIP in players then {players[srcVIP]} else {}
      ensures Valid() && srcVIP in players && players[srcVIP] == p && p.codec == codec && (p.decoding <==> codec == 1)
      ensures srcVIP in old(players) ==> players == old(players) && p.nextPlayTime == old(players[srcVIP].nextPlayTime)
                                         && p.vol == old(players[srcVIP].vol)
      ensures srcVIP !in old(players) ==> players == old(players)[srcVIP := p] && fresh(p)
                                          && p.nextPlayTime == 0.0 && p.vol == 1.0
    {
      if srcVIP in players {
        p := players[srcVIP];
        if p.codec != codec {
          p.decoding := false;
          p.codec := codec;
          if codec == OPUS_CODEC {
            p.decoding := true;
          }
        }
        return;
      }
      p := new Player(srcVIP, codec, codec == OPUS_CODEC, 1.0);
      players := players[srcVIP := p];
    }

    /** One voice payload: its speaker's stream only is touched, and a PCM payload is booked after
        whatever that stream already holds. */
    method HandleVoice(srcVIP: nat, raw: seq<byte>, now: real) returns (r: Outcome)
      requires Valid()
      modifies this, if srcVIP in players then {players[srcVIP]} else {}
      ensures Valid()
      ensures forall v :: v in old(players) ==> v in players && players[v] == old(players)[v]
      ensures srcVIP in old(players) ==> players[srcVIP].vol == old(players[srcVIP].vol)
      ensures srcVIP in old(players) && !r.Scheduled? ==>
        players[srcVIP].nextPlayTime == old(players[srcVIP].nextPlayTime)
      ensures var got := JsDecodeVoicePayload(raw);
              match r
              case Silent => got.audio == [] && players == old(players)
              case Threw => got.codec != 1 && |got.audio| % 2 == 1
              case ToDecoder(ts, audio) => got.codec == 1 && ts == got.ts && audio == got.audio != []
              case Scheduled(start, samples) =>
                && got.codec != 1 && srcVIP in players
                && start == StartTime(if srcVIP in old(players) then old(players[srcVIP].nextPlayTime) else 0.0, now)
                && players[srcVIP].nextPlayTime == start + Duration(samples)
                && exists f32 :: Tripled(f32, got.audio) && samples == Louder(f32, players[srcVIP].vol)
    {
      var got := JsDecodeVoicePayload(raw);
      if |got.audio| == 0 {
        return Silent;
      }
      var p := GetPlayer(srcVIP, got.codec);
      if got.codec == OPUS_CODEC {
        return ToDecoder(got.ts, got.audio);
      }
      var played := PlayPcm(got.audio);
      if played.RangeError? {
        return Threw;
      }
      var start, out := p.Schedule(played.samples, now);
      r := Scheduled(start, out);
    }

    /** The listener's volume for one speaker, who may not have been heard yet. */
    method SetPeerVolume(srcVIP: nat, vol: real)
      requires Valid()
      modifies this, if srcVIP in players then {players[srcVIP]} else {}
      ensures Valid() && srcVIP in players && players[srcVIP].vol == vol
      ensures srcVIP in old(players) ==> players == old(players)
      ensures srcVIP in old(players) ==> players[srcVIP].nextPlayTime == old(players[srcVIP].nextPlayTime)
      ensures srcVIP !in old(players) ==> players[srcVIP].nextPlayTime == 0.0
    {
      if srcVIP !in players {
        var p := new Player(srcVIP, 0, false, 1.0);
        players := players[srcVIP := p];
      }
      players[srcVIP].vol := vol;
    }

    method RemovePeer(srcVIP: nat)
      requires Valid()
      modifies this
      ensures Valid() && players == old(players) - {srcVIP}
    {
      players := players - {srcVIP};
    }
  }

  // ---------------------------------------------------------------- one stream over time

  /** Up to when the stream is booked before frame k is handled; frames last d and are handled at
      the given times. */
  function Booked(now: seq<real>, d: real, k: nat): real
    requires k <= |now|
  {
    if k == 0 then 0.0 else StartTime(Booked(now, d, k - 1), now[k - 1]) + d
  }

  function Start(now: seq<real>, d: real, k: nat): real
    requires k < |now|
  {
    StartTime(Booked(now, d, k), now[k])
  }

  /** How many of the frames 1 .. n-1 arrived after the stream had run dry. */
  function Resets(now: seq<real>, d: real, n: nat): nat
    requires n <= |now|
  {
    if n <= 1 then 0 else Resets(now, d, n - 1) + if Late(Booked(now, d, n - 1), now[n - 1]) then 1 else 0
  }

  const FRAME_SECONDS: real := 0.02

  /** A new stream fed whole frames starts them exactly at those times. */
  method PlayAll(p: Player, frames: seq<Samples>, now: seq<real>) returns (starts: seq<real>)
    requires |frames| == |now| && p.nextPlayTime == 0.0
    requires forall k :: 0 <= k < |frames| ==> |frames[k]| == FRAME_SIZE
    modifies p`nextPlayTime
    ensures |starts| == |now|
    ensures forall k :: 0 <= k < |now| ==> starts[k] == Start(now, 0.02, k)
    ensures p.nextPlayTime == Booked(now, 0.02, |now|)
  {
    starts := [];
    for k := 0 to |frames|
      invariant |starts| == k && p.nextPlayTime == Booked(now, FRAME_SECONDS, k)
      invariant forall j :: 0 <= j < k ==> starts[j] == Start(now, FRAME_SECONDS, j)
    {
      assert Duration(frames[k]) == FRAME_SECONDS;
      var start, _ := p.Schedule(frames[k], now[k]);
      starts := starts + [start];
    }
  }

  /** No jitter assumption: a frame always starts between now and 0.3 s from now. */
  lemma StartsSoon(next: real, now: real)
    ensures now <= StartTime(next, now) <= now + 0.3
  {
  }

  /** Where the frame before ends; a new stream is booked up to 0. */
  function PreviousEnd(now: seq<real>, d: real, k: nat): real
    requires k < |now|
  {
    if k == 0 then 0.0 else Start(now, d, k - 1) + d
  }

  /** Over any stream, whatever its jitter: a frame starts exactly where the one before it ends if that lies
      between the moment it is handled and 0.3 s later, and otherwise exactly 0.05 s after that moment; so a
      frame dropped back leaves the stream booked until then plus its own length. */
  lemma StartsThere(now: seq<real>, d: real, k: nat)
    requires k < |now|
    ensures now[k] <= PreviousEnd(now, d, k) <= now[k] + 0.3 ==> Start(now, d, k) == PreviousEnd(now, d, k)
    ensures !(now[k] <= PreviousEnd(now, d, k) <= now[k] + 0.3) ==> Start(now, d, k) == now[k] + 0.05
    ensures TooFarAhead(Booked(now, d, k), now[k]) ==> Booked(now, d, k + 1) == now[k] + 0.05 + d
  {
    assert k > 0 ==> Booked(now, d, k) == Start(now, d, k - 1) + d;
  }

  /** k d, the time the first k frames take. */
  function Span(k: nat, d: real): real {
    if k == 0 then 0.0 else Span(k - 1, d) + d
  }

  lemma {:induction false} SpanIs(k: nat, d: real)
    ensures Span(k, d) == k as real * d
    decreases k
  {
    if k > 0 {
      SpanIs(k - 1, d);
      assert k as real == (k - 1) as real + 1.0;
    }
  }

  lemma {:induction false} SpanRises(i: nat, j: nat, d: real)
    requires i <= j && d > 0.0
    ensures Span(i, d) <= Span(j, d)
    decreases j
  {
    if i < j {
      SpanRises(i, j - 1, d);
    }
  }

  /** Frame k, due at k d + c, is handled within J of that; the clock is running. */
  ghost predicate Jittered(now: seq<real>, d: real, c: real, J: real) {
    && d > 0.0 && c > 0.0 && J >= 0.0
    && forall k :: 0 <= k < |now| ==> Span(k, d) + c <= now[k] <= Span(k, d) + c + J
  }

  /** Net of the frames' own durations, the booking only rises: by more than 0.05 s at each late
      reset, from at least 0.05 s after c to at most J + 0.05 s after it. */
  lemma {:induction false} BookingRises(now: seq<real>, d: real, c: real, J: real, k: nat)
    requires Jittered(now, d, c, J) && J <= 0.25 && 1 <= k <= |now|
    ensures var rise := Booked(now, d, k) - Span(k, d) - c;
            && LEAD + LEAD * Resets(now, d, k) as real <= rise <= J + LEAD
            && (Resets(now, d, k) > 0 ==> LEAD + LEAD * Resets(now, d, k) as real < rise)
    decreases k
  {
    var i := k - 1;
    if i > 0 {
      BookingRises(now, d, c, J, i);
    } else {
      assert Span(0, d) == 0.0 && Late(Booked(now, d, 0), now[0]);
    }
  }

  /** With at most 0.25 s of jitter no frame of an unbounded stream is ever dropped back onto one
      already queued, scheduled frames never overlap, and the stream runs dry after its first frame
      fewer than J / 0.05 times. */
  lemma BoundedJitter(now: seq<real>, d: real, c: real, J: real)
    requires Jittered(now, d, c, J) && J <= 0.25
    ensures forall k :: 0 <= k < |now| ==> !TooFarAhead(Booked(now, d, k), now[k])
    ensures forall k :: 0 < k < |now| ==> Start(now, d, k) >= Start(now, d, k - 1) + d
    ensures 0.05 * Resets(now, d, |now|) as real <= J
    ensures Resets(now, d, |now|) > 0 ==> 0.05 * Resets(now, d, |now|) as real < J
  {
    forall k | 0 <= k < |now| ensures !TooFarAhead(Booked(now, d, k), now[k]) {
      if k > 0 {
        BookingRises(now, d, c, J, k);
      }
    }
    forall k | 0 < k < |now| ensures Start(now, d, k) >= Start(now, d, k - 1) + d {
      OverlapIff(now, d, k);
    }
    if |now| > 0 {
      BookingRises(now, d, c, J, |now|);
    }
  }

  /** Two neighbouring frames overlap exactly when the second is dropped back. */
  lemma OverlapIff(now: seq<real>, d: real, k: nat)
    requires 0 < k < |now|
    ensures Start(now, d, k) < Start(now, d, k - 1) + d <==> TooFarAhead(Booked(now, d, k), now[k])
    ensures TooFarAhead(Booked(now, d, k), now[k]) <==> Start(now, d, k - 1) + d > now[k] + 0.3
  {
    assert Booked(now, d, k) == Start(now, d, k - 1) + d;
  }

  // ---------------------------------------------------------------- and no more jitter than that

  /** Frame 0 as late as allowed, and every other as early as the clock then lets it. */
  function Bunched(d: real, c: real, J: real, k: nat): real {
    if Span(k, d) < J then c + J else Span(k, d) + c
  }

  function BunchedStream(d: real, c: real, J: real, n: nat): (now: seq<real>)
    ensures |now| == n && forall i :: 0 <= i < n ==> now[i] == Bunched(d, c, J, i)
  {
    seq(n, i requires 0 <= i => Bunched(d, c, J, i))
  }

  lemma {:induction false} BunchedBooking(now: seq<real>, d: real, c: real, J: real, k: nat)
    requires d > 0.0 && c > 0.0 && J > 0.25 && 1 <= k <= |now|
    requires forall i :: 0 <= i < |now| ==> now[i] == Bunched(d, c, J, i)
    requires forall i :: 0 <= i < k ==> !TooFarAhead(Booked(now, d, i), now[i])
    ensures Booked(now, d, k) == c + J + LEAD + Span(k, d)
    decreases k
  {
    if k == 1 {
      assert now[0] == Bunched(d, c, J, 0) && Booked(now, d, 0) == 0.0 && Span(0, d) == 0.0;
    } else {
      var i := k - 1;
      BunchedBooking(now, d, c, J, i);
      SpanRises(0, i, d);
      BunchedStart(d, c, J, i, Booked(now, d, i));
    }
  }

  lemma BunchedStart(d: real, c: real, J: real, i: nat, booked: real)
    requires d > 0.0 && c > 0.0 && J > 0.25 && i > 0 && Span(i, d) >= 0.0
    requires booked == c + J + LEAD + Span(i, d) && !TooFarAhead(booked, Bunched(d, c, J, i))
    ensures StartTime(booked, Bunched(d, c, J, i)) == booked
  {
  }

  lemma BunchedIsJittered(d: real, c: real, J: real, n: nat)
    requires d > 0.0 && c > 0.0 && J > 0.25
    ensures Jittered(BunchedStream(d, c, J, n), d, c, J)
    ensures forall i, j :: 0 <= i <= j < n ==> BunchedStream(d, c, J, n)[i] <= BunchedStream(d, c, J, n)[j]
  {
    forall i, j | 0 <= i <= j < n ensures Bunched(d, c, J, i) <= Bunched(d, c, J, j) {
      SpanRises(i, j, d);
    }
    forall k | 0 <= k < n ensures Span(k, d) + c <= Bunched(d, c, J, k) <= Span(k, d) + c + J {
      SpanRises(0, k, d);
    }
  }

  lemma LongEnough(d: real, J: real) returns (n: nat)
    requires d > 0.0 && J > 0.0
    ensures n > 0 && Span(n, d) >= J
  {
    var q := Ratio(J, d);
    n := q.Floor + 1;
    assert n as real == q.Floor as real + 1.0;
    Scale(q, n as real, d);
    SpanIs(n, d);
  }

  lemma Ratio(J: real, d: real) returns (q: real)
    requires J > 0.0 && d > 0.0
    ensures q * d == J && q > 0.0
  {
    q := J / d;
  }

  lemma Scale(x: real, y: real, d: real)
    requires x <= y && d > 0.0
    ensures x * d <= y * d
  {
    assert (y - x) * d >= 0.0;
  }

  /** Among the first frames up to one due J after the first, some frame is dropped back. */
  lemma SomeDroppedBack(d: real, c: real, J: real, last: nat) returns (k: nat)
    requires d > 0.0 && c > 0.0 && J > 0.25 && last > 0 && Span(last, d) >= J
    ensures k <= last
    ensures var now := BunchedStream(d, c, J, last + 1); TooFarAhead(Booked(now, d, k), now[k])
  {
    var now := BunchedStream(d, c, J, last + 1);
    if i: nat :| i < last && TooFarAhead(Booked(now, d, i), now[i]) {
      k := i;
    } else {
      BunchedBooking(now, d, c, J, last);
      k := last;
    }
  }

  /** The bound is sharp: for any larger jitter, whatever the frame length, there is a stream in
      which some frame is scheduled over the one before it. */
  lemma MoreJitterOverlaps(d: real, c: real, J: real) returns (now: seq<real>, k: nat)
    requires d > 0.0 && c > 0.0 && J > 0.25
    ensures Jittered(now, d, c, J) && forall i, j :: 0 <= i <= j < |now| ==> now[i] <= now[j]
    ensures 0 < k < |now| && Start(now, d, k) < Start(now, d, k - 1) + d
  {
    var last := LongEnough(d, J);
    now := BunchedStream(d, c, J, last + 1);
    BunchedIsJittered(d, c, J, last + 1);
    k := SomeDroppedBack(d, c, J, last);
    FirstNotDropped(now, d, c, J);
    OverlapIff(now, d, k);
  }

  lemma FirstNotDropped(now: seq<real>, d: real, c: real, J: real)
    requires Jittered(now, d, c, J) && |now| > 0
    ensures !TooFarAhead(Booked(now, d, 0), now[0])
  {
    assert Span(0, d) + c <= now[0];
  }
}
