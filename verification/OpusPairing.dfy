/** How the Opus encoder's asynchronous output gets its sequence numbers and timestamps back
    (client/frontend/src/voice/encode.js). The codec itself is only assumed to answer in order. */
module OpusPairing {
  import opened Options
  import opened Frames
  import opened Pcm

  const OPUS: nat := 1
  const FRAME_MICROS: nat := 20000

  datatype Stamp = Stamp(seqNum: nat, ts: nat)

  class OpusEncoder {
    var seqNum: nat
    var frameIdx: nat
    var pending: seq<Stamp>

    ghost function View(): EncoderState
      reads this
    {
      EncoderState(seqNum, frameIdx, pending)
    }

    constructor ()
      ensures View() == FRESH
    {
      seqNum, frameIdx, pending := 0, 0, [];
    }

    /** A frame is handed to the codec. */
    method Encode()
      modifies this
      ensures View() == AfterEncode(old(View()))
    {
      var ts := frameIdx * FRAME_MICROS;
      frameIdx := frameIdx + 1;
      pending := pending + [Stamp(seqNum, ts)];
      seqNum := seqNum + 1;
    }

    /** The codec's output callback. */
    method Output(chunk: seq<byte>) returns (packet: Option<Packet>)
      modifies this
      ensures (View(), packet) == AfterOutput(old(View()), chunk)
    {
      if |pending| == 0 {
        return None;
      }
      var item := pending[0];
      pending := pending[1..];
      packet := Some(Packet(OPUS, item.seqNum, item.ts, chunk));
    }
  }

  datatype EncoderState = EncoderState(seqNum: nat, frameIdx: nat, pending: seq<Stamp>)

  const FRESH := EncoderState(0, 0, [])

  function AfterEncode(s: EncoderState): EncoderState {
    EncoderState(s.seqNum + 1, s.frameIdx + 1, s.pending + [Stamp(s.seqNum, s.frameIdx * FRAME_MICROS)])
  }

  function AfterOutput(s: EncoderState, chunk: seq<byte>): (EncoderState, Option<Packet>) {
    if |s.pending| == 0 then (s, None)
    else (s.(pending := s.pending[1..]), Some(Packet(OPUS, s.pending[0].seqNum, s.pending[0].ts, chunk)))
  }

  // ---------------------------------------------------------------- whole runs

  datatype Event = Encoded | Answered(chunk: seq<byte>)

  function Play(events: seq<Event>): EncoderState {
    if |events| == 0 then FRESH
    else
      var s := Play(events[..|events| - 1]);
      match events[|events| - 1]
      case Encoded => AfterEncode(s)
      case Answered(chunk) => AfterOutput(s, chunk).0
  }

  function Emitted(events: seq<Event>): seq<Packet> {
    if |events| == 0 then []
    else
      var init, last := events[..|events| - 1], events[|events| - 1];
      if last.Encoded? then Emitted(init)
      else match AfterOutput(Play(init), last.chunk).1
        case None => Emitted(init)
        case Some(packet) => Emitted(init) + [packet]
  }

  /** The codec's answers, in order. */
  function Chunks(events: seq<Event>): seq<seq<byte>> {
    if |events| == 0 then []
    else
      var init, last := Chunks(events[..|events| - 1]), events[|events| - 1];
      if last.Encoded? then init else init + [last.chunk]
  }

  function Fed(events: seq<Event>): nat {
    if |events| == 0 then 0
    else Fed(events[..|events| - 1]) + if events[|events| - 1].Encoded? then 1 else 0
  }

  /** The codec never answers more frames than it was given. */
  ghost predicate AnswersWhatItGot(events: seq<Event>) {
    forall n :: 0 <= n <= |events| ==> |Chunks(events[..n])| <= Fed(events[..n])
  }

  /** pending holds the stamps from lo up to hi, in order. */
  ghost predicate Consecutive(pending: seq<Stamp>, lo: nat, hi: nat) {
    && lo + |pending| == hi
    && forall i :: 0 <= i < |pending| ==> pending[i] == Stamp(lo + i, (lo + i) * FRAME_MICROS)
  }

  lemma FrameQueued(pending: seq<Stamp>, lo: nat, hi: nat)
    requires Consecutive(pending, lo, hi)
    ensures Consecutive(pending + [Stamp(hi, hi * FRAME_MICROS)], lo, hi + 1)
  {
  }

  lemma FrameAnswered(pending: seq<Stamp>, lo: nat, hi: nat)
    requires Consecutive(pending, lo, hi) && lo < hi
    ensures pending[0] == Stamp(lo, lo * FRAME_MICROS) && Consecutive(pending[1..], lo + 1, hi)
  {
  }

  lemma FedPrefix(events: seq<Event>, n: nat)
    requires AnswersWhatItGot(events) && n <= |events|
    ensures AnswersWhatItGot(events[..n]) && |Chunks(events[..n])| <= Fed(events[..n])
  {
    forall k | 0 <= k <= n ensures events[..n][..k] == events[..k] { }
  }

  /** Whatever the codec answers, also more than it was given: no more packets go out than frames went in,
      numbered and timed in order; answers beyond that are dropped. */
  lemma {:induction false} NeverMoreThanFed(events: seq<Event>)
    ensures |Emitted(events)| + |Play(events).pending| == Fed(events) == Play(events).seqNum == Play(events).frameIdx
    ensures Consecutive(Play(events).pending, |Emitted(events)|, Fed(events))
    ensures forall j :: 0 <= j < |Emitted(events)| ==>
      && Emitted(events)[j].codec == 1 && Emitted(events)[j].seqNum == j && Emitted(events)[j].ts == j * 20000
    decreases |events|
  {
    if |events| > 0 {
      var init, last := events[..|events| - 1], events[|events| - 1];
      NeverMoreThanFed(init);
      if last.Encoded? {
        FrameQueued(Play(init).pending, |Emitted(init)|, Fed(init));
      } else if |Play(init).pending| > 0 {
        FrameAnswered(Play(init).pending, |Emitted(init)|, Fed(init));
      }
    }
  }

  /** The j-th answer goes out as packet j with timestamp 20000 j, nothing is dropped, and what is
      pending are exactly the stamps of the frames not yet answered. */
  lemma {:induction false} Paired(events: seq<Event>)
    requires AnswersWhatItGot(events)
    ensures var s := Play(events);
            s.seqNum == s.frameIdx == Fed(events) && Consecutive(s.pending, |Chunks(events)|, Fed(events))
    ensures |Emitted(events)| == |Chunks(events)|
    ensures forall j :: 0 <= j < |Emitted(events)| ==>
      Emitted(events)[j] == Packet(1, j, j * 20000, Chunks(events)[j])
    decreases |events|
  {
    if |events| > 0 {
      var init, last := events[..|events| - 1], events[|events| - 1];
      FedPrefix(events, |events| - 1);
      FedPrefix(events, |events|);
      assert events[..|events|] == events;
      Paired(init);
      var lo, hi := |Chunks(init)|, Fed(init);
      if last.Encoded? {
        FrameQueued(Play(init).pending, lo, hi);
      } else {
        FrameAnswered(Play(init).pending, lo, hi);
      }
    }
  }
}
