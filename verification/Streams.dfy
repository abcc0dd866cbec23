/** Reading a stream of frames back: what an ideal peer makes of everything a session ever sent. */
module Streams {
  import opened Base
  import opened Wire
  import opened Reassembly
  import opened Session
  import opened Frames
  import B = Broker

  /** What an ideal reader has made of a stream of frames: messages read whole, and the one under way. */
  datatype Stream = Stream(buffer: Buffer, done: seq<Message>, ok: bool)

  const START := Stream(Empty(MAX_REASSEMBLY, MAX_FRAGMENTS), [], true)

  // The messages among the outcomes of pushing fragments.
  function Delivered(r: Option<Message>): seq<Message> {
    if r.Some? then [r.value] else []
  }

  function AbsorbFragment(c: Stream, f: Fragment): Stream {
    var (b, r) := Push(c.buffer, f);
    if r.Err? then c.(ok := false) else Stream(b, c.done + Delivered(r.value), c.ok)
  }

  function Absorb(c: Stream, frame: bytes): Stream {
    var d := DecodeFrame(frame);
    if !c.ok then c
    else if d.Err? then c.(ok := false)
    else if d.value.0.messageType != UsbIpData then c
    else
      var f := DecodeFragment(d.value.1, d.value.0.flags);
      if f.Err? then c.(ok := false) else AbsorbFragment(c, f.value)
  }

  /** The reading of a whole stream; ok as long as every fragment continued what came before it. */
  function Collect(frames: seq<bytes>): Stream {
    if frames == [] then START else Absorb(Collect(frames[..|frames| - 1]), frames[|frames| - 1])
  }

  lemma CollectOne(frames: seq<bytes>, frame: bytes)
    ensures Collect(frames + [frame]) == Absorb(Collect(frames), frame)
  {
    assert (frames + [frame])[..|frames|] == frames;
  }

  lemma {:induction false} CollectBounded(frames: seq<bytes>)
    ensures Bounded(Collect(frames).buffer)
    ensures Collect(frames).buffer.maxSize == MAX_REASSEMBLY && Collect(frames).buffer.maxFragments == MAX_FRAGMENTS
  {
    if frames != [] {
      CollectBounded(frames[..|frames| - 1]);
      hide DecodeFrame, DecodeFragment, Push;
      var c := Collect(frames[..|frames| - 1]);
      var d := DecodeFrame(frames[|frames| - 1]);
      if d.Ok? && DecodeFragment(d.value.1, d.value.0.flags).Ok? {
        PushKeepsLimits(c.buffer, DecodeFragment(d.value.1, d.value.0.flags).value);
      }
    }
  }

  lemma PushKeepsLimits(b: Buffer, f: Fragment)
    requires Bounded(b)
    ensures Bounded(Push(b, f).0)
    ensures Push(b, f).0.maxSize == b.maxSize && Push(b, f).0.maxFragments == b.maxFragments
  {
    PushBounded(b, f);
  }

  lemma AbsorbControl(c: Stream, frame: bytes)
    requires DecodeFrame(frame).Ok? && DecodeFrame(frame).value.0.messageType != UsbIpData
    ensures Absorb(c, frame) == c
  {
    hide DecodeFrame;
  }

  lemma AbsorbPiece(c: Stream, hello: B.Hello, sequence: u64, f: Fragment)
    requires c.ok && FragmentOk(f) && f.leaseToken == hello.leaseToken
    requires hello.sessionToken != 0 && 1 <= sequence < LAST
    ensures Absorb(c, PieceFrame(hello.sessionToken, sequence, f)) == AbsorbFragment(c, f)
  {
    PieceFaithful(hello, sequence, f);
    hide DecodeFrame, DecodeFragment, PieceFrame, AbsorbFragment;
  }

  function AllDelivered(outcomes: seq<Result<Option<Message>>>): seq<Message> {
    if outcomes == [] then []
    else
      var last := outcomes[|outcomes| - 1];
      AllDelivered(outcomes[..|outcomes| - 1]) + (if last.Ok? then Delivered(last.value) else [])
  }

  predicate AllAccepted(outcomes: seq<Result<Option<Message>>>) {
    forall i :: 0 <= i < |outcomes| ==> outcomes[i].Ok?
  }

  lemma FeedLast(b: Buffer, fs: seq<Fragment>, n: nat)
    requires |fs| == n + 1 && AllAccepted(Feed(b, fs).1)
    ensures var front := Feed(b, fs[..n]);
      var last := Push(front.0, fs[n]);
      && last.1.Ok? && AllAccepted(front.1)
      && Feed(b, fs).0 == last.0
      && AllDelivered(Feed(b, fs).1) == AllDelivered(front.1) + Delivered(last.1.value)
  {
    hide Push;
    var front := Feed(b, fs[..n]);
    var last := Push(front.0, fs[n]);
    assert Feed(b, fs).1[..n] == front.1 && Feed(b, fs).1[n] == last.1;
  }

  // Reading one more piece is pushing its fragment.
  lemma CollectPiece(frames: seq<bytes>, hello: B.Hello, sequence: u64, f: Fragment)
    requires Collect(frames).ok && FragmentOk(f) && f.leaseToken == hello.leaseToken
    requires hello.sessionToken != 0 && 1 <= sequence < LAST
    requires Push(Collect(frames).buffer, f).1.Ok?
    ensures var c, p := Collect(frames), Push(Collect(frames).buffer, f);
      Collect(frames + [PieceFrame(hello.sessionToken, sequence, f)])
      == Stream(p.0, c.done + Delivered(p.1.value), true)
  {
    hide Collect, Push, FragmentOk, PieceFrame, Absorb;
    CollectOne(frames, PieceFrame(hello.sessionToken, sequence, f));
    AbsorbPiece(Collect(frames), hello, sequence, f);
  }

  lemma FeedNothing(b: Buffer)
    ensures Feed(b, []) == (b, []) && AllDelivered([]) == []
  {
  }

  lemma NoPieces(token: u64, sequence: u64)
    requires sequence <= LAST
    ensures PieceFrames(token, sequence, []) == []
  {
  }

  lemma Regroup(a: seq<Message>, b: seq<Message>, c: seq<Message>)
    ensures (a + b) + c == a + (b + c)
  {
  }

  /** Reading the frames of some fragments is pushing those fragments. */
  lemma {:induction false} CollectPieces(frames: seq<bytes>, hello: B.Hello, sequence: u64, fs: seq<Fragment>)
    requires Collect(frames).ok && hello.sessionToken != 0 && sequence >= 1 && sequence + |fs| <= LAST
    requires AllOk(fs) && (forall f :: f in fs ==> f.leaseToken == hello.leaseToken)
    requires AllAccepted(Feed(Collect(frames).buffer, fs).1)
    ensures var c, fed := Collect(frames), Feed(Collect(frames).buffer, fs);
      Collect(frames + PieceFrames(hello.sessionToken, sequence, fs))
      == Stream(fed.0, c.done + AllDelivered(fed.1), true)
  {
    hide Collect, Push, Feed, PieceFrame, PieceFrames, FragmentOk, AllDelivered, Delivered, AllAccepted;
    var c := Collect(frames);
    if fs == [] {
      FeedNothing(c.buffer);
      NoPieces(hello.sessionToken, sequence);
      assert frames + [] == frames;
      assert c.done + [] == c.done;
    } else {
      var n := |fs| - 1;
      FeedLast(c.buffer, fs, n);
      CollectPieces(frames, hello, sequence, fs[..n]);
      PieceFramesLast(hello.sessionToken, sequence, fs, n);
      var before := frames + PieceFrames(hello.sessionToken, sequence, fs[..n]);
      CollectPiece(before, hello, sequence + n, fs[n]);
      var front := Feed(c.buffer, fs[..n]);
      Regroup(c.done, AllDelivered(front.1), Delivered(Push(front.0, fs[n]).1.value));
      assert frames + PieceFrames(hello.sessionToken, sequence, fs)
          == before + [PieceFrame(hello.sessionToken, sequence + n, fs[n])];
    }
  }

  lemma {:induction false} NonesDeliverNothing(n: nat)
    ensures AllDelivered(Nones(n)) == []
  {
    if n > 0 {
      NonesDeliverNothing(n - 1);
      assert Nones(n)[..n - 1] == Nones(n - 1);
    }
  }

  lemma LastDelivers(n: nat, m: Message)
    ensures AllDelivered(Nones(n) + [Ok(Some(m))]) == [m]
  {
    NonesDeliverNothing(n);
    assert (Nones(n) + [Ok(Some(m))])[..n] == Nones(n);
  }

  /** What a session has sent, read back, is its messages in order; nothing is under way unless numbers ran out. */
  ghost predicate InStep(frames: seq<bytes>, sent: seq<Message>, nextTx: u64) {
    var c := Collect(frames);
    && c.ok
    && c.done == sent
    && (nextTx < LAST ==> Idle(c.buffer))
  }

  // A message whose pieces all went out has been read whole.
  lemma {:induction false} InStepWhole(frames: seq<bytes>, sent: seq<Message>, hello: B.Hello, sequence: u64,
                                       m: Message)
    requires InStep(frames, sent, sequence) && sequence < LAST
    requires hello.sessionToken != 0 && hello.leaseToken != 0 && m.id != 0 && sequence >= 1
    requires 0 < |m.body| <= MAX_REASSEMBLY && DivCeil(|m.body|, CHUNK) <= MAX_FRAGMENTS
    requires AllOk(Pieces(hello.leaseToken, m, 0)) && sequence + |Pieces(hello.leaseToken, m, 0)| <= LAST
    ensures var run := Pieces(hello.leaseToken, m, 0);
      InStep(frames + PieceFrames(hello.sessionToken, sequence, run), sent + [m], sequence + |run|)
  {
    hide Feed, PieceFrames, FragmentOk, Push, Tiles, Collect;
    var run := Pieces(hello.leaseToken, m, 0);
    var b := Collect(frames).buffer;
    CollectBounded(frames);
    PiecesReassemble(b, hello.leaseToken, m);
    PiecesLease(hello.leaseToken, m, 0);
    LastDelivers(|run| - 1, m);
    CollectPieces(frames, hello, sequence, run);
  }

  // One cut short, because numbers ran out, has not been read at all.
  lemma {:induction false} InStepPart(frames: seq<bytes>, sent: seq<Message>, hello: B.Hello, sequence: u64,
      m: Message, n: nat)
    requires InStep(frames, sent, sequence) && sequence < LAST
    requires hello.sessionToken != 0 && hello.leaseToken != 0 && m.id != 0 && sequence >= 1
    requires 0 < |m.body| <= MAX_REASSEMBLY && DivCeil(|m.body|, CHUNK) <= MAX_FRAGMENTS
    requires AllOk(Pieces(hello.leaseToken, m, 0))
    requires n < |Pieces(hello.leaseToken, m, 0)| && sequence + n == LAST
    ensures InStep(frames + PieceFrames(hello.sessionToken, sequence, Pieces(hello.leaseToken, m, 0)[..n]), sent, LAST)
  {
    hide Feed, PieceFrames, FragmentOk, Push, Tiles, Collect;
    var run := Pieces(hello.leaseToken, m, 0);
    var b := Collect(frames).buffer;
    CollectBounded(frames);
    PiecesReassemble(b, hello.leaseToken, m);
    PiecesLease(hello.leaseToken, m, 0);
    PiecesCount(hello.leaseToken, m, 0);
    FeedPart(b, run, n, m);
    NonesDeliverNothing(n);
    CollectPieces(frames, hello, sequence, run[..n]);
    assert sent + [] == sent;
  }

  lemma {:induction false} PiecesLease(lease: u64, m: Message, offset: nat)
    requires offset <= |m.body| <= U32_MAX
    ensures forall f :: f in Pieces(lease, m, offset) ==> f.leaseToken == lease
    decreases |m.body| - offset
  {
    if offset < |m.body| {
      PiecesLease(lease, m, Min(offset + CHUNK, |m.body|));
    }
  }
}
