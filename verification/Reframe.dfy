/** The microphone worklet (client/frontend/src/voice/voice-worklet.js): blocks of samples of any
    length come in, frames of 960 samples go out. */
module Reframe {
  const FRAME_SIZE: nat := 960 // 20 ms at 48 kHz

  type Samples = seq<real>

  function Flatten(frames: seq<Samples>): Samples {
    if |frames| == 0 then [] else Flatten(frames[..|frames| - 1]) + frames[|frames| - 1]
  }

  /** The whole frames a stream starts with, and what is left over. */
  function Cut(s: Samples): (frames: seq<Samples>)
    decreases |s|
  {
    if |s| < FRAME_SIZE then [] else [s[..FRAME_SIZE]] + Cut(s[FRAME_SIZE..])
  }

  function Rest(s: Samples): (rest: Samples)
    ensures |rest| < FRAME_SIZE
    decreases |s|
  {
    if |s| < FRAME_SIZE then s else Rest(s[FRAME_SIZE..])
  }

  /** Frames and leftover depend on the stream only, not on how it was cut into blocks. */
  lemma {:induction false} CutInTwo(a: Samples, b: Samples)
    ensures Cut(a + b) == Cut(a) + Cut(Rest(a) + b)
    ensures Rest(a + b) == Rest(Rest(a) + b)
    decreases |a|
  {
    if |a| >= FRAME_SIZE {
      var s := a + b;
      assert s[..FRAME_SIZE] == a[..FRAME_SIZE] && s[FRAME_SIZE..] == a[FRAME_SIZE..] + b;
      CutInTwo(a[FRAME_SIZE..], b);
    }
  }

  lemma CutShort(s: Samples)
    requires |s| <= FRAME_SIZE
    ensures Cut(s) == if |s| == FRAME_SIZE then [s] else []
    ensures Rest(s) == if |s| == FRAME_SIZE then [] else s
  {
    if |s| == FRAME_SIZE {
      assert s[..FRAME_SIZE] == s && s[FRAME_SIZE..] == [];
      assert Cut(s[FRAME_SIZE..]) == [];
    }
  }

  lemma {:induction false} FlattenPrepend(f: Samples, frames: seq<Samples>)
    ensures Flatten([f] + frames) == f + Flatten(frames)
    decreases |frames|
  {
    var all := [f] + frames;
    if |frames| > 0 {
      FlattenPrepend(f, frames[..|frames| - 1]);
      assert all[..|all| - 1] == [f] + frames[..|frames| - 1];
    } else {
      assert all[..0] == [];
    }
  }

  /** Conservation: nothing is lost, repeated or reordered; every frame is whole, and exactly as
      many go out as the stream holds. */
  lemma {:induction false} CutConserves(s: Samples)
    ensures Flatten(Cut(s)) + Rest(s) == s
    ensures forall i :: 0 <= i < |Cut(s)| ==> |Cut(s)[i]| == FRAME_SIZE
    ensures |Cut(s)| == |s| / FRAME_SIZE && |Rest(s)| == |s| % FRAME_SIZE
    decreases |s|
  {
    if |s| >= FRAME_SIZE {
      CutConserves(s[FRAME_SIZE..]);
      FlattenPrepend(s[..FRAME_SIZE], Cut(s[FRAME_SIZE..]));
      assert s == s[..FRAME_SIZE] + s[FRAME_SIZE..];
    }
  }

  class VoiceProcessor {
    const buf: array<real>
    var offset: nat

    ghost predicate Valid()
      reads this
    {
      buf.Length == FRAME_SIZE && offset < FRAME_SIZE
    }

    /** The samples waiting for their frame to fill. */
    ghost function Held(): Samples
      requires Valid()
      reads this, buf
    {
      buf[..offset]
    }

    constructor ()
      ensures Valid() && Held() == [] && fresh(buf)
    {
      buf := new real[FRAME_SIZE](_ => 0.0);
      offset := 0;
    }

    /** TypedArray.set. */
    method Set(piece: Samples, at: nat)
      requires at + |piece| <= buf.Length
      modifies buf
      ensures buf[..at] == old(buf[..at]) && buf[at..at + |piece|] == piece
    {
      for i := 0 to |piece|
        invariant buf[..at] == old(buf[..at]) && buf[at..at + i] == piece[..i]
      {
        buf[at + i] := piece[i];
      }
    }

    /** The body of the loop: a piece that fits joins the held samples; a full frame is posted. */
    method Take(piece: Samples) returns (posted: seq<Samples>)
      requires Valid() && |piece| <= FRAME_SIZE - offset
      modifies this`offset, buf
      ensures Valid()
      ensures posted == Cut(old(Held()) + piece) && Held() == Rest(old(Held()) + piece)
    {
      ghost var filled := Held() + piece;
      CutShort(filled);
      Set(piece, offset);
      offset := offset + |piece|;
      assert buf[..offset] == filled;
      posted := [];
      if offset >= FRAME_SIZE {
        var out := buf[..];
        assert out == filled;
        posted := [out];
        offset := 0;
        assert Held() == [];
      }
    }

    /** One rendering quantum: its block, if the input is connected, in; the completed frames out. */
    method Process(connected: bool, ch: Samples) returns (posted: seq<Samples>)
      requires Valid()
      modifies this`offset, buf
      ensures Valid()
      ensures !connected ==> posted == [] && Held() == old(Held())
      ensures connected ==> posted == Cut(old(Held()) + ch) && Held() == Rest(old(Held()) + ch)
    {
      posted := [];
      if !connected {
        return;
      }
      ghost var start := Held();
      var i := 0;
      assert start + ch[..0] == start;
      CutShort(start);
      while i < |ch|
        invariant Valid() && 0 <= i <= |ch|
        invariant posted == Cut(start + ch[..i]) && Held() == Rest(start + ch[..i])
        decreases |ch| - i
      {
        var need := FRAME_SIZE - offset;
        var take := if need < |ch| - i then need else |ch| - i;
        CutInTwo(start + ch[..i], ch[i..i + take]);
        assert start + ch[..i] + ch[i..i + take] == start + ch[..i + take];
        var frames := Take(ch[i..i + take]);
        posted := posted + frames;
        i := i + take;
      }
      assert ch[..|ch|] == ch;
    }
  }

  // ---------------------------------------------------------------- whole streams

  /** Everything posted, and what is still held, after blocks have been processed one by one. */
  function Posted(blocks: seq<Samples>): seq<Samples> {
    if |blocks| == 0 then []
    else Posted(blocks[..|blocks| - 1]) + Cut(HeldAfter(blocks[..|blocks| - 1]) + blocks[|blocks| - 1])
  }

  function HeldAfter(blocks: seq<Samples>): Samples {
    if |blocks| == 0 then [] else Rest(HeldAfter(blocks[..|blocks| - 1]) + blocks[|blocks| - 1])
  }

  /** Feeding a processor block by block posts and holds exactly that. */
  method Stream(blocks: seq<Samples>) returns (posted: seq<Samples>, held: Samples)
    ensures posted == Posted(blocks) && held == HeldAfter(blocks)
  {
    var vp := new VoiceProcessor();
    posted := [];
    for i := 0 to |blocks|
      invariant vp.Valid() && fresh(vp) && fresh(vp.buf)
      invariant posted == Posted(blocks[..i]) && vp.Held() == HeldAfter(blocks[..i])
    {
      assert blocks[..i + 1][..i] == blocks[..i];
      var frames := vp.Process(true, blocks[i]);
      posted := posted + frames;
    }
    assert blocks[..|blocks|] == blocks;
    held := vp.buf[..vp.offset];
  }

  /** For every sequence of blocks of any lengths, the posted frames followed by the held samples are
      the input, and the frames are the same however the input was cut into blocks. */
  lemma {:induction false} StreamConserved(blocks: seq<Samples>)
    ensures Posted(blocks) == Cut(Flatten(blocks)) && HeldAfter(blocks) == Rest(Flatten(blocks))
    ensures Flatten(Posted(blocks)) + HeldAfter(blocks) == Flatten(blocks)
    ensures |Posted(blocks)| == |Flatten(blocks)| / FRAME_SIZE
    decreases |blocks|
  {
    if |blocks| > 0 {
      var init := blocks[..|blocks| - 1];
      StreamConserved(init);
      CutInTwo(Flatten(init), blocks[|blocks| - 1]);
    }
    CutConserves(Flatten(blocks));
  }
}
