/** Reassembly of length-prefixed frames from an arbitrarily cut byte stream. */
module Framing {
  import opened Bytes
  import opened Collections
  import opened SlideBuffers

  /** MAX_SEGMENT_SIZE, the most one receive can return. */
  const SEGMENT: nat := 1024
  /** SEND_BUFFER_SIZE. */
  const SEND_CAP: nat := SEGMENT * 4
  /** RECV_BUFFER_SIZE. */
  const RECV_CAP: nat := SEND_CAP * 4
  /** The longest declared length that can never make the receive buffer overflow. */
  const MAX_FRAME: nat := RECV_CAP - SEGMENT + 1

  /** Complete frames in order, and the unfinished bytes after them. */
  datatype Deframed = Deframed(frames: seq<seq<byte>>, rest: seq<byte>)

  /** The one-shot reference: cut a whole stream into frames. */
  function Deframe(s: seq<byte>): Deframed
    decreases |s|
  {
    if HeadReady(s) then
      var n := PeekLength(s);
      var d := Deframe(s[n..]);
      Deframed([s[..n]] + d.frames, d.rest)
    else Deframed([], s)
  }

  lemma DeframeHead(s: seq<byte>)
    requires HeadReady(s)
    ensures var n := PeekLength(s);
            && Deframe(s).frames == [s[..n]] + Deframe(s[n..]).frames
            && Deframe(s).rest == Deframe(s[n..]).rest
  {
  }

  /** Prepending one frame prepends it to the concatenation. */
  lemma FlattenCons(frame: seq<byte>, frames: seq<seq<byte>>)
    ensures Flatten([frame] + frames) == frame + Flatten(frames)
  {
    assert ([frame] + frames)[1..] == frames;
  }

  lemma {:induction false} DeframeConserves(s: seq<byte>)
    ensures Flatten(Deframe(s).frames) + Deframe(s).rest == s
    decreases |s|
  {
    if HeadReady(s) {
      var n := PeekLength(s);
      var d := Deframe(s[n..]);
      DeframeConserves(s[n..]);
      FlattenCons(s[..n], d.frames);
      Reassociate(s[..n], Flatten(d.frames), d.rest);
      SplitAt(s, n);
    }
  }

  /** Nothing deliverable is left behind. */
  lemma {:induction false} DeframeDrains(s: seq<byte>)
    ensures !HeadReady(Deframe(s).rest)
    decreases |s|
  {
    if HeadReady(s) {
      DeframeDrains(s[PeekLength(s)..]);
    }
  }

  /** A way to cut s: every frame is as long as its first four bytes say, read where it begins, and none is left. */
  ghost predicate IsCut(s: seq<byte>, d: Deframed) {
    && Flatten(d.frames) + d.rest == s
    && !HeadReady(d.rest)
    && forall i :: 0 <= i < |d.frames| ==> 0 < |d.frames[i]| == PeekLength(Flatten(d.frames[i..]) + d.rest)
  }

  lemma CutHead(s: seq<byte>, d: Deframed)
    requires IsCut(s, d) && d.frames != []
    ensures HeadReady(s) && d.frames[0] == s[..PeekLength(s)]
    ensures IsCut(s[PeekLength(s)..], Deframed(d.frames[1..], d.rest))
  {
    assert d.frames[0..] == d.frames;
    Reassociate(d.frames[0], Flatten(d.frames[1..]), d.rest);
    forall i | 0 <= i < |d.frames[1..]|
      ensures 0 < |d.frames[1..][i]| == PeekLength(Flatten(d.frames[1..][i..]) + d.rest)
    {
      assert d.frames[1..][i..] == d.frames[i + 1..];
    }
  }

  lemma EmptyCut(s: seq<byte>, rest: seq<byte>)
    ensures IsCut(s, Deframed([], rest)) <==> rest == s && !HeadReady(s)
  {
    assert Flatten([]) + rest == rest;
  }

  lemma CutCons(s: seq<byte>, d: Deframed)
    requires HeadReady(s) && IsCut(s[PeekLength(s)..], d)
    ensures IsCut(s, Deframed([s[..PeekLength(s)]] + d.frames, d.rest))
  {
    var n := PeekLength(s);
    var frames := [s[..n]] + d.frames;
    FlattenCons(s[..n], d.frames);
    Reassociate(s[..n], Flatten(d.frames), d.rest);
    SplitAt(s, n);
    forall i | 0 <= i < |frames| ensures 0 < |frames[i]| == PeekLength(Flatten(frames[i..]) + d.rest) {
      if i > 0 {
        assert frames[i..] == d.frames[i - 1..];
      } else {
        assert frames[0..] == frames;
      }
    }
  }

  /** There is exactly one way to cut a stream, and the one-shot reference finds it. */
  lemma {:induction false} DeframeIsTheCut(s: seq<byte>, d: Deframed)
    ensures Deframe(s) == d <==> IsCut(s, d)
    decreases |s|
  {
    if HeadReady(s) {
      var n := PeekLength(s);
      DeframeIsTheCut(s[n..], Deframe(s[n..]));
      CutCons(s, Deframe(s[n..]));
      if IsCut(s, d) && d.frames != [] {
        CutHead(s, d);
        DeframeIsTheCut(s[n..], Deframed(d.frames[1..], d.rest));
        assert d.frames == [d.frames[0]] + d.frames[1..];
      } else {
        EmptyCut(s, d.rest);
      }
    } else if IsCut(s, d) && d.frames != [] {
      CutHead(s, d);
    } else {
      EmptyCut(s, d.rest);
    }
  }

  /** A complete head frame stays the head frame when more bytes arrive. */
  lemma HeadStays(a: seq<byte>, b: seq<byte>)
    requires HeadReady(a)
    ensures HeadReady(a + b) && PeekLength(a + b) == PeekLength(a)
    ensures var n := PeekLength(a); (a + b)[..n] == a[..n] && (a + b)[n..] == a[n..] + b
  {
    assert (a + b)[..4] == a[..4];
  }

  /** Deframing is incremental: after a, continue from a's remainder. */
  lemma {:induction false} DeframeAppend(a: seq<byte>, b: seq<byte>)
    ensures var d := Deframe(a);
            var e := Deframe(d.rest + b);
            Deframe(a + b) == Deframed(d.frames + e.frames, e.rest)
    decreases |a|
  {
    if HeadReady(a) {
      var n := PeekLength(a);
      var d := Deframe(a[n..]);
      var e := Deframe(d.rest + b);
      DeframeAppend(a[n..], b);
      HeadStays(a, b);
      Reassociate([a[..n]], d.frames, e.frames);
    } else {
      assert [] + Deframe(a + b).frames == Deframe(a + b).frames;
    }
  }

  /** What the receive loop does with a list of receives: frames handed to OnReceive, bytes left in
      the buffer, and whether every Enqueue succeeded (RecvAsync ignores the answer). */
  datatype Fed = Fed(frames: seq<seq<byte>>, rest: seq<byte>, lossless: bool)

  /** One receive into a buffer holding buf, followed by the inner drain loop. */
  function FeedOne(buf: seq<byte>, chunk: seq<byte>): Fed {
    var e := Apply(Fifo(RECV_CAP, buf), Enqueue(chunk, |chunk|));
    var d := Deframe(e.fifo.held);
    Fed(d.frames, d.rest, e.ok)
  }

  function Feed(buf: seq<byte>, chunks: seq<seq<byte>>): Fed
    decreases |chunks|
  {
    if chunks == [] then Fed([], buf, true)
    else
      var one := FeedOne(buf, chunks[0]);
      var more := Feed(one.rest, chunks[1..]);
      Fed(one.frames + more.frames, more.rest, one.lossless && more.lossless)
  }

  /** chunks is a way the network may cut stream: each receive returns 1 to 1024 bytes. */
  ghost predicate IsChunking(chunks: seq<seq<byte>>, stream: seq<byte>) {
    && (forall c :: c in chunks ==> 1 <= |c| <= SEGMENT)
    && Flatten(chunks) == stream
  }

  /** The exact condition for lossless reassembly, readable off the stream: a frame whose declared
      length is 0 or above 15361 must have no more than 16384 bytes from its first byte on. */
  predicate Fits(s: seq<byte>)
    decreases |s|
  {
    |s| < 4 ||
    var n := PeekLength(s);
    if n == 0 || n > MAX_FRAME then |s| <= RECV_CAP
    else n <= |s| ==> Fits(s[n..])
  }

  /** Every length that deframing reads off the stream lies in 1..max. */
  predicate LengthsIn(s: seq<byte>, max: nat)
    decreases |s|
  {
    |s| < 4 ||
    var n := PeekLength(s);
    1 <= n <= max && (n <= |s| ==> LengthsIn(s[n..], max))
  }

  lemma {:induction false} LegalLengthsFit(s: seq<byte>)
    requires LengthsIn(s, MAX_FRAME)
    ensures Fits(s)
    decreases |s|
  {
    if HeadReady(s) {
      LegalLengthsFit(s[PeekLength(s)..]);
    }
  }

  lemma {:induction false} ShortStreamsFit(s: seq<byte>)
    requires |s| <= RECV_CAP
    ensures Fits(s)
    decreases |s|
  {
    if HeadReady(s) {
      ShortStreamsFit(s[PeekLength(s)..]);
    }
  }

  lemma {:induction false} FitsAfter(s: seq<byte>, t: seq<byte>)
    requires Fits(s + t)
    ensures Fits(Deframe(s).rest + t)
    decreases |s|
  {
    if HeadReady(s) {
      var n := PeekLength(s);
      assert (s + t)[..4] == s[..4];
      assert (s + t)[n..] == s[n..] + t;
      if n > MAX_FRAME {
        ShortStreamsFit(s[n..] + t);
      }
      FitsAfter(s[n..], t);
    }
  }

  /** From a drained buffer, a receive of at most 1024 bytes always fits. */
  lemma RoomForSegment(buf: seq<byte>, chunk: seq<byte>, later: seq<byte>)
    requires !HeadReady(buf) && Fits(buf + chunk + later) && |chunk| <= SEGMENT
    ensures |buf| + |chunk| <= RECV_CAP
  {
    if |buf| >= 4 {
      assert (buf + chunk + later)[..4] == buf[..4];
    }
  }

  lemma {:induction false} FeedLossless(buf: seq<byte>, chunks: seq<seq<byte>>)
    requires !HeadReady(buf)
    requires forall c :: c in chunks ==> 1 <= |c| <= SEGMENT
    requires Fits(buf + Flatten(chunks))
    ensures var d := Deframe(buf + Flatten(chunks));
            Feed(buf, chunks) == Fed(d.frames, d.rest, true)
    decreases |chunks|
  {
    if chunks == [] {
      assert buf + Flatten(chunks) == buf;
    } else {
      var c, later := chunks[0], Flatten(chunks[1..]);
      assert buf + Flatten(chunks) == (buf + c) + later;
      RoomForSegment(buf, c, later);
      assert c[..|c|] == c;
      DeframeDrains(buf + c);
      FitsAfter(buf + c, later);
      FeedLossless(Deframe(buf + c).rest, chunks[1..]);
      DeframeAppend(buf + c, later);
    }
  }

  /** Chunking independence: however the network cuts a stream that fits, the loop delivers exactly the
      frames of the one-shot deframer and keeps exactly its remainder, losing nothing. */
  lemma ChunkingIndependence(stream: seq<byte>, chunks: seq<seq<byte>>)
    requires IsChunking(chunks, stream) && Fits(stream)
    ensures var fed := Feed([], chunks);
            && fed == Fed(Deframe(stream).frames, Deframe(stream).rest, true)
            && Flatten(fed.frames) + fed.rest == stream
  {
    assert [] + Flatten(chunks) == stream;
    FeedLossless([], chunks);
    DeframeConserves(stream);
  }

  /** Cut into full segments and one final shorter one. */
  function Cut(s: seq<byte>): (chunks: seq<seq<byte>>)
    ensures IsChunking(chunks, s)
    decreases |s|
  {
    if s == [] then []
    else if |s| <= SEGMENT then [s]
    else
      var later := Cut(s[SEGMENT..]);
      assert s == s[..SEGMENT] + s[SEGMENT..];
      [s[..SEGMENT]] + later
  }

  lemma {:induction false} FeedAppend(buf: seq<byte>, a: seq<seq<byte>>, b: seq<seq<byte>>)
    ensures var x := Feed(buf, a);
            var y := Feed(x.rest, b);
            Feed(buf, a + b) == Fed(x.frames + y.frames, y.rest, x.lossless && y.lossless)
    decreases |a|
  {
    if a == [] {
      assert a + b == b;
    } else {
      var one := FeedOne(buf, a[0]);
      var x := Feed(one.rest, a[1..]);
      FeedAppend(one.rest, a[1..], b);
      DropFromAppend(a, b, 1);
      Reassociate(one.frames, x.frames, Feed(x.rest, b).frames);
    }
  }

  lemma ChunkingAppend(a: seq<seq<byte>>, s: seq<byte>, b: seq<seq<byte>>, t: seq<byte>)
    requires IsChunking(a, s) && IsChunking(b, t)
    ensures IsChunking(a + b, s + t)
  {
    FlattenAppend(a, b);
  }

  /** Full receives up to 15361 bytes of an overlong (or zero-length) frame leave them all buffered. */
  lemma OverlongHeadIsHeld(buf: seq<byte>, head: seq<byte>)
    requires 4 <= |buf + head| <= RECV_CAP && !HeadReady(buf) && !HeadReady(buf + head)
    ensures Feed(buf, Cut(head)) == Fed([], buf + head, true)
  {
    ShortStreamsFit(buf + head);
    FeedLossless(buf, Cut(head));
  }

  /** A receive that finds too little room is lost. */
  lemma FullBufferLoses(buf: seq<byte>, chunk: seq<byte>, later: seq<seq<byte>>)
    requires |buf| + |chunk| > RECV_CAP && chunk != []
    ensures !Feed(buf, [chunk] + later).lossless
  {
  }

  /** Full receives for the first k bytes, one full receive, then whatever is left. */
  function CutAround(s: seq<byte>, k: nat): (chunks: seq<seq<byte>>)
    requires k + SEGMENT <= |s|
    ensures IsChunking(chunks, s)
  {
    var head, more, tail := s[..k], s[k..k + SEGMENT], s[k + SEGMENT..];
    ChunkingAppend([more], more, Cut(tail), tail);
    SplitAt(s[k..], SEGMENT);
    ChunkingAppend(Cut(head), head, [more] + Cut(tail), s[k..]);
    SplitAt(s, k);
    Cut(head) + ([more] + Cut(tail))
  }

  /** With an overlong (or zero-length) frame at the head, filling the buffer to 15361 bytes and then
      receiving a full segment overflows it. */
  lemma OverlongHeadLoses(buf: seq<byte>, s: seq<byte>) returns (chunks: seq<seq<byte>>)
    requires |buf| < 4 && |buf + s| > RECV_CAP
    requires PeekLength(buf + s) == 0 || PeekLength(buf + s) > MAX_FRAME
    ensures IsChunking(chunks, s) && !Feed(buf, chunks).lossless
  {
    var k := MAX_FRAME - |buf|;
    chunks := CutAround(s, k);
    assert !Feed(buf, chunks).lossless by {
      var head, more := s[..k], s[k..k + SEGMENT];
      assert (buf + head)[..4] == (buf + s)[..4];
      OverlongHeadIsHeld(buf, head);
      FullBufferLoses(buf + head, more, Cut(s[k + SEGMENT..]));
      FeedAppend(buf, Cut(head), [more] + Cut(s[k + SEGMENT..]));
    }
  }

  /** A first frame of legal length deframes alone, leaving fewer than four bytes behind. */
  lemma FirstFrameAlone(full: seq<byte>)
    requires HeadReady(full) && PeekLength(full) <= MAX_FRAME
    requires |full| == if PeekLength(full) < 4 then 4 else PeekLength(full)
    ensures Deframe(full).rest == full[PeekLength(full)..] && Fits(full)
  {
    ShortStreamsFit(full);
  }

  /** How many bytes to receive, after buf, to complete the first frame of buf + s. */
  function FirstFrameNeeds(buf: seq<byte>, s: seq<byte>): (k: nat)
    requires |buf| < 4 && HeadReady(buf + s)
    ensures k <= |s|
  {
    var n := PeekLength(buf + s);
    (if n < 4 then 4 else n) - |buf|
  }

  /** The first frame of buf + s can be fed without loss, leaving fewer than four bytes behind. */
  lemma FirstFrameFits(buf: seq<byte>, s: seq<byte>)
    requires |buf| < 4 && HeadReady(buf + s) && PeekLength(buf + s) <= MAX_FRAME
    ensures var full := buf + s[..FirstFrameNeeds(buf, s)];
            && PeekLength(full) == PeekLength(buf + s) <= |full|
            && Feed(buf, Cut(s[..FirstFrameNeeds(buf, s)])).rest == full[PeekLength(full)..]
  {
    var k := FirstFrameNeeds(buf, s);
    assert (buf + s[..k])[..4] == (buf + s)[..4];
    FirstFrameAlone(buf + s[..k]);
    FeedLossless(buf, Cut(s[..k]));
  }

  lemma {:induction false} UnfitStreamLoses(buf: seq<byte>, s: seq<byte>) returns (chunks: seq<seq<byte>>)
    requires |buf| < 4 && !Fits(buf + s)
    ensures IsChunking(chunks, s) && !Feed(buf, chunks).lossless
    decreases |buf + s|
  {
    var n := PeekLength(buf + s);
    if n == 0 || n > MAX_FRAME {
      chunks := OverlongHeadLoses(buf, s);
    } else {
      var k := FirstFrameNeeds(buf, s);
      var head, tail, left := s[..k], s[k..], (buf + s[..k])[n..];
      FirstFrameFits(buf, s);
      SplitAt(s, k);
      Reassociate(buf, head, tail);
      DropFromAppend(buf + head, tail, n);
      var later := UnfitStreamLoses(left, tail);
      chunks := Cut(head) + later;
      FeedAppend(buf, Cut(head), later);
      ChunkingAppend(Cut(head), head, later, tail);
    }
  }

  /** The exact condition: a stream survives every chunking if and only if it fits. */
  lemma LosslessIffFits(stream: seq<byte>)
    ensures Fits(stream) <==> forall chunks | IsChunking(chunks, stream) :: Feed([], chunks).lossless
  {
    if Fits(stream) {
      forall chunks | IsChunking(chunks, stream) ensures Feed([], chunks).lossless {
        ChunkingIndependence(stream, chunks);
      }
    } else {
      assert [] + stream == stream;
      var chunks := UnfitStreamLoses([], stream);
    }
  }

  /** 15361 is tight: one more byte of declared length and some legal-looking stream loses data. */
  lemma MaxFrameIsTight() returns (stream: seq<byte>, chunks: seq<seq<byte>>)
    ensures LengthsIn(stream, MAX_FRAME + 1) && PeekLength(stream) == MAX_FRAME + 1
    ensures IsChunking(chunks, stream) && !Feed([], chunks).lossless
  {
    var header := EncodeUint32((MAX_FRAME + 1) as uint32);
    var second := header + seq(SEGMENT - 5, _ => 0);
    var body := seq(MAX_FRAME - 3, _ => 0) + second;
    stream := header + body;
    DecodeEncode((MAX_FRAME + 1) as uint32, body);
    DecodeEncode((MAX_FRAME + 1) as uint32, seq(SEGMENT - 5, _ => 0));
    assert stream[MAX_FRAME + 1..] == second;
    assert [] + stream == stream;
    chunks := OverlongHeadLoses([], stream);
  }
}
