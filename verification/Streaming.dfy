/**
 A connection delivers its bytes in arbitrary reads. `Feed` appends each read to the buffer and
 drains the decoder; `Drain` decodes a whole buffer in one pass. They agree on every input.
 */
module Streaming {
  import opened Wrappers
  import opened Sequences
  import opened Utf8
  import opened Protocol
  import opened RoundTrip

  /** How a stream stands after some bytes: waiting on an unfinished frame, or dead on its first error. */
  datatype End =
    | Pending(left: seq<byte>)
    | Broken(error: DecodeError, rest: seq<byte>)

  datatype Received = Received(frames: seq<Frame>, end: End)

  function Before(frames: seq<Frame>, r: Received): Received {
    Received(frames + r.frames, r.end)
  }

  /** Calls the decoder until it needs more bytes or fails. */
  function Drain(buffer: seq<byte>): Received
    decreases |buffer|
  {
    match DecodeOne(buffer)
    case NeedMore => Received([], Pending(buffer))
    case Failed(e, rest) => Received([], Broken(e, rest))
    case Item(f, rest) => Before([f], Drain(rest))
  }

  /** Appends the reads one by one, draining after each; nothing is read after an error. */
  function Feed(left: seq<byte>, chunks: seq<seq<byte>>): Received
    decreases |chunks|
  {
    if chunks == [] then Received([], Pending(left))
    else
      var now := Drain(left + chunks[0]);
      match now.end
      case Broken(_, _) => now
      case Pending(more) => Before(now.frames, Feed(more, chunks[1..]))
  }

  function Flatten(chunks: seq<seq<byte>>): seq<byte> {
    if chunks == [] then [] else chunks[0] + Flatten(chunks[1..])
  }

  function EncodeAll(frames: seq<Frame>): seq<byte> {
    if frames == [] then [] else Encoding(frames[0]) + EncodeAll(frames[1..])
  }

  /** A decision once made does not change when more bytes arrive; they are just left behind the frame. */
  lemma DecodeStable(s: seq<byte>, t: seq<byte>)
    ensures DecodeOne(s).Item? ==> DecodeOne(s + t) == Item(DecodeOne(s).frame, DecodeOne(s).rest + t)
    ensures DecodeOne(s).Failed? ==> DecodeOne(s + t) == Failed(DecodeOne(s).error, DecodeOne(s).rest + t)
  {
    hide DecodePayload, FromBigEndian32;
    if |s| >= HEADER_LEN {
      assert (s + t)[1..5] == s[1..5];
      var len := FromBigEndian32(s[1..5]);
      if |s| >= HEADER_LEN + len {
        assert (s + t)[HEADER_LEN..HEADER_LEN + len] == s[HEADER_LEN..HEADER_LEN + len];
        assert (s + t)[HEADER_LEN + len..] == s[HEADER_LEN + len..] + t;
      }
    }
  }

  /** Exactly header and payload are consumed by a frame; an oversize header consumes nothing. */
  lemma DecodeConsumes(s: seq<byte>)
    ensures DecodeOne(s).Item? ==>
      HEADER_LEN + FromBigEndian32(s[1..5]) <= |s| && DecodeOne(s).rest == s[HEADER_LEN + FromBigEndian32(s[1..5])..]
    ensures DecodeOne(s).Failed? ==>
      DecodeOne(s).rest == if DecodeOne(s).error.TooLarge? then s else s[HEADER_LEN + FromBigEndian32(s[1..5])..]
  {
    hide FromBigEndian32, EnvOfText, EntriesOfText, Valid;
  }

  lemma DecodeShrinks(s: seq<byte>)
    ensures DecodeOne(s).Item? ==> |DecodeOne(s).rest| < |s|
  {
    hide DecodePayload, FromBigEndian32;
  }

  lemma {:induction false} DrainAppend(s: seq<byte>, t: seq<byte>)
    ensures match Drain(s).end
            case Pending(left) => Drain(s + t) == Before(Drain(s).frames, Drain(left + t))
            case Broken(e, rest) => Drain(s + t) == Received(Drain(s).frames, Broken(e, rest + t))
    decreases |s|
  {
    hide DecodeOne;
    DecodeStable(s, t);
    match DecodeOne(s) {
      case NeedMore =>
      case Failed(e, rest) =>
      case Item(f, rest) =>
        DecodeShrinks(s);
        DrainAppend(rest, t);
        match Drain(rest).end {
          case Broken(_, _) =>
          case Pending(left) =>
            assert [f] + (Drain(rest).frames + Drain(left + t).frames)
                == ([f] + Drain(rest).frames) + Drain(left + t).frames;
        }
    }
  }

  /** What is left of a buffer when it has been drained. */
  function LeftOf(end: End): seq<byte> {
    match end
    case Pending(left) => left
    case Broken(_, rest) => rest
  }

  /** One frame's bytes: a header and as many bytes as it announces. */
  predicate Block(block: seq<byte>) {
    |block| >= HEADER_LEN && |block| == HEADER_LEN + FromBigEndian32(block[1..5])
  }

  lemma BlockTaken(s: seq<byte>) returns (block: seq<byte>)
    requires DecodeOne(s).Item? || (DecodeOne(s).Failed? && !DecodeOne(s).error.TooLarge?)
    ensures Block(block) && s == block + DecodeOne(s).rest
    ensures DecodeOne(s).Item? ==> DecodeOne(block) == Item(DecodeOne(s).frame, [])
  {
    hide DecodePayload, FromBigEndian32;
    DecodeConsumes(s);
    var end := HEADER_LEN + FromBigEndian32(s[1..5]);
    block := s[..end];
    TakeSlice(s, end, 1, 5);
    TakeSlice(s, end, HEADER_LEN, end);
    Halves(s, end);
    assert block[end..] == [];
  }

  /** One block for each frame, in order and each decoding to its frame alone, and one more for a bad payload. */
  predicate BlocksOf(blocks: seq<seq<byte>>, r: Received) {
    && |blocks| == |r.frames| + (if r.end.Broken? && !r.end.error.TooLarge? then 1 else 0)
    && (forall i :: 0 <= i < |blocks| ==> Block(blocks[i]))
    && forall i :: 0 <= i < |r.frames| ==> DecodeOne(blocks[i]) == Item(r.frames[i], [])
  }

  lemma BlocksMore(block: seq<byte>, f: Frame, blocks: seq<seq<byte>>, r: Received)
    requires Block(block) && DecodeOne(block) == Item(f, []) && BlocksOf(blocks, r)
    ensures BlocksOf([block] + blocks, Received([f] + r.frames, r.end))
    ensures Flatten([block] + blocks) == block + Flatten(blocks)
  {
    hide DecodeOne, Block;
    assert ([block] + blocks)[1..] == blocks;
  }

  lemma OneBlock(block: seq<byte>)
    ensures Flatten([block]) == block
  {
    assert block + [] == block;
  }

  /** Every byte drained belongs to one frame: the buffer is a block for each, header and payload, and what is left. */
  lemma {:induction false} DrainAccounts(s: seq<byte>) returns (blocks: seq<seq<byte>>)
    ensures BlocksOf(blocks, Drain(s)) && s == Flatten(blocks) + LeftOf(Drain(s).end)
    decreases |s|
  {
    match DecodeOne(s) {
      case NeedMore => blocks := [];
      case Failed(e, rest) =>
        if e.TooLarge? {
          DecodeConsumes(s);
          blocks := [];
        } else {
          var block := BlockTaken(s);
          OneBlock(block);
          blocks := [block];
        }
      case Item(f, rest) =>
        var block := BlockTaken(s);
        DecodeShrinks(s);
        var others := DrainAccounts(rest);
        BlocksMore(block, f, others, Drain(rest));
        blocks := [block] + others;
        Assoc(block, Flatten(others), LeftOf(Drain(rest).end));
        hide BlocksOf;
    }
    hide DecodeOne, Block, Flatten;
  }

  predicate SameEnd(chunked: End, whole: End) {
    match chunked
    case Pending(left) => whole == Pending(left)
    case Broken(e, rest) => whole.Broken? && whole.error == e && rest <= whole.rest
  }

  /** What a drain leaves pending holds no complete frame. */
  lemma {:induction false} DrainIdle(s: seq<byte>)
    requires Drain(s).end.Pending?
    ensures Drain(Drain(s).end.left) == Received([], Drain(s).end)
    decreases |s|
  {
    hide DecodeOne;
    DecodeShrinks(s);
    if DecodeOne(s).Item? {
      DrainIdle(DecodeOne(s).rest);
    }
  }

  lemma {:induction false} FeedIsDrain(left: seq<byte>, chunks: seq<seq<byte>>)
    requires Drain(left) == Received([], Pending(left))
    ensures var chunked, whole := Feed(left, chunks), Drain(left + Flatten(chunks));
            chunked.frames == whole.frames && SameEnd(chunked.end, whole.end)
    decreases |chunks|
  {
    hide DecodeOne, Drain;
    if chunks == [] {
      assert left + [] == left;
    } else {
      var first, later := left + chunks[0], Flatten(chunks[1..]);
      assert left + Flatten(chunks) == first + later;
      DrainAppend(first, later);
      match Drain(first).end {
        case Broken(_, _) =>
        case Pending(more) =>
          DrainIdle(first);
          FeedIsDrain(more, chunks[1..]);
      }
    }
  }

  /**
   Chunking independence, for any bytes at all: the frames and the first error (or the unfinished
   tail) do not depend on how the stream was cut into reads.
   */
  lemma ChunkingIndependence(chunks: seq<seq<byte>>)
    ensures var chunked, whole := Feed([], chunks), Drain(Flatten(chunks));
            chunked.frames == whole.frames && SameEnd(chunked.end, whole.end)
  {
    assert [] + Flatten(chunks) == Flatten(chunks);
    FeedIsDrain([], chunks);
  }

  /** The frames as the other side reads them. */
  function RereadAll(frames: seq<Frame>): (r: seq<Frame>)
    ensures |r| == |frames|
    ensures forall i :: 0 <= i < |frames| ==> r[i] == Reread(frames[i])
  {
    seq(|frames|, i requires 0 <= i < |frames| => Reread(frames[i]))
  }

  lemma RereadCons(frames: seq<Frame>)
    requires frames != []
    ensures RereadAll(frames) == [Reread(frames[0])] + RereadAll(frames[1..])
  {
    hide Reread;
  }

  lemma RereadDeliverable(frames: seq<Frame>)
    requires forall f :: f in frames ==> Deliverable(f)
    ensures RereadAll(frames) == frames && forall f :: f in frames ==> Sendable(f)
  {
    forall i | 0 <= i < |frames| ensures Reread(frames[i]) == frames[i] {
      assert frames[i] in frames;
      RereadFaithful(frames[i]);
    }
    hide Reread, Payload, Faithful;
  }

  lemma DrainFirst(f: Frame, later: seq<byte>)
    requires Sendable(f)
    ensures Drain(Encoding(f) + later) == Before([Reread(f)], Drain(later))
  {
    hide DecodeOne, Encoding, Sendable, Reread;
    SendableDecodes(f, later);
  }

  lemma EncodeCons(frames: seq<Frame>, rest: seq<byte>)
    requires frames != []
    ensures EncodeAll(frames) + rest == Encoding(frames[0]) + (EncodeAll(frames[1..]) + rest)
  {
    hide Encoding;
  }

  lemma {:induction false} DrainEncoded(frames: seq<Frame>, rest: seq<byte>)
    requires forall f :: f in frames ==> Sendable(f)
    ensures Drain(EncodeAll(frames) + rest) == Before(RereadAll(frames), Drain(rest))
    decreases |frames|
  {
    hide DecodeOne, Encoding, Sendable, Reread;
    if frames == [] {
      assert [] + rest == rest;
      assert [] + Drain(rest).frames == Drain(rest).frames;
    } else {
      var later := EncodeAll(frames[1..]) + rest;
      EncodeCons(frames, rest);
      assert frames[0] in frames;
      DrainFirst(frames[0], later);
      DrainEncoded(frames[1..], rest);
      RereadCons(frames);
      hide RereadAll, Drain, EncodeAll;
      var first, others := [Reread(frames[0])], RereadAll(frames[1..]);
      assert first + (others + Drain(rest).frames) == (first + others) + Drain(rest).frames;
    }
  }

  lemma DecodeEmpty()
    ensures DecodeOne([]) == NeedMore
  {
  }

  lemma DrainAll(frames: seq<Frame>)
    requires forall f :: f in frames ==> Sendable(f)
    ensures Drain(EncodeAll(frames)) == Received(RereadAll(frames), Pending([]))
  {
    hide DecodeOne, Encoding, Sendable, RereadAll;
    DrainEncoded(frames, []);
    DecodeEmpty();
    assert EncodeAll(frames) + [] == EncodeAll(frames);
    assert RereadAll(frames) + [] == RereadAll(frames);
  }

  /** The streaming round trip: frames encoded back to back arrive whole and in order, however the bytes are cut. */
  lemma StreamingRoundTrip(frames: seq<Frame>, chunks: seq<seq<byte>>)
    requires forall f :: f in frames ==> Deliverable(f)
    requires Flatten(chunks) == EncodeAll(frames)
    ensures Feed([], chunks) == Received(frames, Pending([]))
  {
    ChunkingIndependence(chunks);
    RereadDeliverable(frames);
    DrainAll(frames);
    hide Drain, Feed, Flatten, EncodeAll, RereadAll, Deliverable, Sendable;
  }

  // ----- Streams that break off -----

  /** Too short to be decided. */
  lemma PartOfFrame(f: Frame, part: seq<byte>)
    requires Sendable(f) && part < Encoding(f)
    ensures DecodeOne(part) == NeedMore
  {
    var missing := Encoding(f)[|part|..];
    assert part + missing == Encoding(f) + [];
    SendableDecodes(f, []);
    DecodeStable(part, missing);
    hide DecodeOne, Encoding, Sendable, Reread;
  }

  lemma CutAfter(first: seq<byte>, later: seq<byte>, cut: seq<byte>)
    requires cut <= first + later && |first| <= |cut|
    ensures cut == first + cut[|first|..] && cut[|first|..] <= later
  {
    assert cut[..|first|] == first;
    assert (first + later)[|first|..] == later;
  }

  lemma CutOneMore(frames: seq<Frame>, k: nat, part: seq<byte>)
    requires frames != [] && k < |frames|
    ensures Encoding(frames[0]) + (EncodeAll(frames[1..][..k]) + part) == EncodeAll(frames[..k + 1]) + part
  {
    hide Encoding;
    assert frames[..k + 1][1..] == frames[1..][..k];
  }

  lemma RereadTake(frames: seq<Frame>, k: nat)
    requires 0 < k <= |frames|
    ensures RereadAll(frames[..k]) == [Reread(frames[0])] + RereadAll(frames[1..][..k - 1])
  {
    hide Reread;
  }

  /** The stream cut anywhere: the whole frames before the cut, and the part of the next one as the pending tail. */
  lemma {:induction false} DrainCut(frames: seq<Frame>, cut: seq<byte>) returns (k: nat, part: seq<byte>)
    requires (forall f :: f in frames ==> Sendable(f)) && cut <= EncodeAll(frames)
    ensures k <= |frames| && cut == EncodeAll(frames[..k]) + part
    ensures if k < |frames| then part < Encoding(frames[k]) else part == []
    ensures Drain(cut) == Received(RereadAll(frames[..k]), Pending(part))
    decreases |frames|
  {
    hide DecodeOne, Encoding, Sendable, Reread;
    if frames == [] {
      k, part := 0, [];
      DecodeEmpty();
    } else {
      var first := Encoding(frames[0]);
      assert frames[0] in frames;
      if |cut| < |first| {
        k, part := 0, cut;
        assert cut == first[..|cut|];
        PartOfFrame(frames[0], cut);
        assert [] + cut == cut;
      } else {
        var rest := cut[|first|..];
        CutAfter(first, EncodeAll(frames[1..]), cut);
        k, part := DrainCut(frames[1..], rest);
        SendableDecodes(frames[0], rest);
        CutOneMore(frames, k, part);
        k := k + 1;
        RereadTake(frames, k);
        hide RereadAll, EncodeAll;
      }
    }
  }

  /** A stream broken off anywhere yields a prefix of what was sent: no frame is made up or reordered. */
  lemma TruncatedStream(frames: seq<Frame>, chunks: seq<seq<byte>>)
    requires forall f :: f in frames ==> Deliverable(f)
    requires Flatten(chunks) <= EncodeAll(frames)
    ensures Feed([], chunks).end.Pending? && Feed([], chunks).frames <= frames
  {
    ChunkingIndependence(chunks);
    RereadDeliverable(frames);
    hide Drain, Feed, Flatten, EncodeAll, RereadAll, Deliverable, Sendable;
    var k, part := DrainCut(frames, Flatten(chunks));
    assert forall f :: f in frames[..k] ==> f in frames;
    RereadDeliverable(frames[..k]);
  }

  /** The cut falls between two frames. */
  ghost predicate OnBoundary(frames: seq<Frame>, bytes: seq<byte>) {
    exists k :: 0 <= k <= |frames| && bytes == EncodeAll(frames[..k])
  }

  /** A stream that breaks off leaves nothing pending exactly if it was cut between two frames. */
  lemma CutOnBoundary(frames: seq<Frame>, chunks: seq<seq<byte>>)
    requires forall f :: f in frames ==> Sendable(f)
    requires Flatten(chunks) <= EncodeAll(frames)
    ensures Feed([], chunks).end == Pending([]) <==> OnBoundary(frames, Flatten(chunks))
  {
    ChunkingIndependence(chunks);
    hide Drain, Feed, Flatten, EncodeAll, RereadAll, Sendable;
    var k, part := DrainCut(frames, Flatten(chunks));
    assert EncodeAll(frames[..k]) + [] == EncodeAll(frames[..k]);
    if j :| 0 <= j <= |frames| && Flatten(chunks) == EncodeAll(frames[..j]) {
      assert forall f :: f in frames[..j] ==> f in frames;
      DrainAll(frames[..j]);
    }
  }

  lemma OversizeFrame(f: Frame, later: seq<byte>)
    requires !Sendable(f)
    ensures var d := DecodeOne(Encoding(f) + later);
            !d.NeedMore? && (d.Item? ==> d.frame != f)
  {
    hide DecodePayload, Payload, Encoding, TypeCode, FromBigEndian32;
    DecodeEncoding(f, later);
    var len := |Payload(f)| % 0x1_0000_0000;
    if len <= MAX_FRAME_SIZE && DecodePayload(TypeCode(f), Payload(f)[..len]).Success? {
      DecodedSize(TypeCode(f), Payload(f)[..len], DecodePayload(TypeCode(f), Payload(f)[..len]).value);
    }
  }

  /** An undeliverable frame does not come back, whatever follows it. */
  lemma FirstFrame(f: Frame, later: seq<byte>)
    ensures var d := DecodeOne(Encoding(f) + later);
            if Deliverable(f) then d == Item(f, later) else !d.NeedMore? && (d.Item? ==> d.frame != f)
  {
    if Sendable(f) {
      SendableDecodes(f, later);
      RereadFaithful(f);
      hide DecodeOne, Payload, Encoding, Reread, Faithful;
    } else {
      OversizeFrame(f, later);
      hide DecodeOne, Payload, Encoding, Faithful;
    }
  }

  /** A sequence of frames comes back from a stream exactly when each of them is deliverable, whatever their size. */
  lemma {:induction false} StreamingExact(frames: seq<Frame>)
    ensures Drain(EncodeAll(frames)) == Received(frames, Pending([])) <==> forall f :: f in frames ==> Deliverable(f)
    decreases |frames|
  {
    hide DecodeOne, Encoding, Deliverable, Payload;
    if frames == [] {
      DecodeEmpty();
    } else {
      var f, later := frames[0], EncodeAll(frames[1..]);
      FirstFrame(f, later);
      StreamingExact(frames[1..]);
      assert frames == [f] + frames[1..];
      assert forall g :: g in frames <==> g == f || g in frames[1..];
    }
  }

  /** The first frame a stream gives, if it gives one. */
  function FirstOf(r: Received): Option<Frame> {
    if r.frames == [] then None else Some(r.frames[0])
  }

  /** The first frame of a stream arrives as it was sent exactly if it is deliverable. */
  lemma FirstArrives(f: Frame, later: seq<Frame>, chunks: seq<seq<byte>>)
    requires Flatten(chunks) == EncodeAll([f] + later)
    ensures FirstOf(Feed([], chunks)) == Some(f) <==> Deliverable(f)
  {
    ChunkingIndependence(chunks);
    assert ([f] + later)[1..] == later;
    FirstFrame(f, EncodeAll(later));
    hide DecodeOne, Encoding, Deliverable, Feed, Flatten;
  }

  lemma TooLargeFrame(f: Frame, later: seq<byte>)
    requires !Sendable(f) && |Payload(f)| < 0x1_0000_0000
    ensures DecodeOne(Encoding(f) + later).Failed?
  {
    hide DecodePayload, Payload, Encoding, TypeCode, FromBigEndian32;
    DecodeEncoding(f, later);
  }

  /** A frame over the limit, but not so far that its length wraps, is refused for its size. */
  lemma TooLargeFirst(f: Frame, later: seq<Frame>, chunks: seq<seq<byte>>)
    requires !Sendable(f) && |Payload(f)| < 0x1_0000_0000 && Flatten(chunks) == EncodeAll([f] + later)
    ensures FirstOf(Feed([], chunks)) == None && Feed([], chunks).end.Broken?
  {
    hide DecodeOne, Encoding, Feed, Flatten, Sendable, Payload;
    ChunkingIndependence(chunks);
    assert ([f] + later)[1..] == later;
    TooLargeFrame(f, EncodeAll(later));
  }
}
