/** What a session puts on the wire: well-formed frames, numbered without a gap. */
module Frames {
  import opened Base
  import opened Endian
  import opened Wire
  import opened Reassembly
  import opened Session
  import B = Broker

  // The last sequence number a frame may carry is one less.
  const LAST: u64 := U64_MAX - 1

  /** What frames are made from: the tokens, and numbers in range. */
  predicate CanFrame(s: Session) {
    s.hello.sessionToken != 0 && s.hello.leaseToken != 0 && 1 <= s.nextTx <= LAST
  }

  function FrameBytes(token: u64, sequence: u64, kind: MessageType, flags: u32, payload: bytes): bytes
    requires |payload| <= U32_MAX
  {
    PutHeader(FrameHeader(kind, flags, |payload|, token, sequence)) + payload
  }

  // What a payload must satisfy for its frame never to be refused.
  predicate Sendable(kind: MessageType, flags: u32, payload: bytes) {
    && |payload| <= MAX_PAYLOAD
    && (flags == 0 || (flags == FLAG_MORE && kind == UsbIpData))
    && ValidatePayload(kind, flags, payload).Ok?
  }

  /** A frame with a sendable payload goes out under the next number, or not at all once numbers run out. */
  lemma QueueFrameEffect(s: Session, reservation: u64, kind: MessageType, flags: u32, payload: bytes)
    requires CanFrame(s) && Sendable(kind, flags, payload)
    ensures QueueFrame(s, reservation, kind, flags, payload) ==
      if s.nextTx == LAST then (s, Err(SequenceError))
      else (Log(s.(nextTx := s.nextTx + 1),
                OutputFrame(reservation, FrameBytes(s.hello.sessionToken, s.nextTx, kind, flags, payload))),
            Ok(()))
  {
    hide ValidatePayload, PutHeader;
  }

  lemma FrameReads(token: u64, sequence: u64, kind: MessageType, flags: u32, payload: bytes)
    requires token != 0 && 1 <= sequence < LAST && Sendable(kind, flags, payload)
    ensures DecodeFrame(FrameBytes(token, sequence, kind, flags, payload))
         == Ok((FrameHeader(kind, flags, |payload|, token, sequence), payload))
  {
    var h := FrameHeader(kind, flags, |payload|, token, sequence);
    hide DecodeFrame, ValidatePayload, PutHeader;
    FrameRoundTrip(h, payload);
  }

  lemma FragmentSendable(f: Fragment)
    requires FragmentOk(f)
    ensures EncodeFragment(f) == Ok(PutFragment(f))
    ensures Sendable(UsbIpData, FlagsOf(f), PutFragment(f))
  {
    FragmentRoundTrip(f);
    hide DecodeFragment, PutFragment;
  }

  // ------------------------------------------------------- frames of a message

  function PieceFrame(token: u64, sequence: u64, f: Fragment): bytes
    requires FragmentOk(f)
  {
    FrameBytes(token, sequence, UsbIpData, FlagsOf(f), PutFragment(f))
  }

  function PieceEvent(token: u64, sequence: u64, f: Fragment): Event
    requires FragmentOk(f)
  {
    OutputFrame(f.pduId, PieceFrame(token, sequence, f))
  }

  predicate AllOk(fs: seq<Fragment>) {
    forall i :: 0 <= i < |fs| ==> FragmentOk(fs[i])
  }

  // The frames of consecutive fragments, numbered from a sequence number on.
  function PieceEvents(token: u64, sequence: u64, fs: seq<Fragment>): (events: seq<Event>)
    requires AllOk(fs) && sequence + |fs| <= LAST
    ensures |events| == |fs|
  {
    seq(|fs|, i requires 0 <= i < |fs| => PieceEvent(token, sequence + i, fs[i]))
  }

  function PieceFrames(token: u64, sequence: u64, fs: seq<Fragment>): (frames: seq<bytes>)
    requires AllOk(fs) && sequence + |fs| <= LAST
    ensures |frames| == |fs|
  {
    seq(|fs|, i requires 0 <= i < |fs| => PieceFrame(token, sequence + i, fs[i]))
  }

  lemma PieceEventsFirst(token: u64, sequence: u64, fs: seq<Fragment>)
    requires AllOk(fs) && fs != [] && sequence + |fs| <= LAST
    ensures PieceEvents(token, sequence, fs)
         == [PieceEvent(token, sequence, fs[0])] + PieceEvents(token, sequence + 1, fs[1..])
  {
    hide PieceFrame, FragmentOk;
  }

  lemma PieceEventsLast(token: u64, sequence: u64, fs: seq<Fragment>, n: nat)
    requires AllOk(fs) && |fs| == n + 1 && sequence + |fs| <= LAST
    ensures PieceEvents(token, sequence, fs)
         == PieceEvents(token, sequence, fs[..n]) + [PieceEvent(token, sequence + n, fs[n])]
  {
    hide PieceFrame, FragmentOk;
  }

  // How many of n frames can still be numbered.
  function Room(s: Session, n: nat): nat
    requires s.nextTx <= LAST
  {
    Min(n, LAST - s.nextTx)
  }

  // The outcome of cutting a message: the frames that could be numbered, and whether they are all of them.
  function Emit(s: Session, fs: seq<Fragment>): (Session, Result<()>)
    requires s.nextTx <= LAST && AllOk(fs)
  {
    var n := Room(s, |fs|);
    (s.(nextTx := s.nextTx + n, log := s.log + PieceEvents(s.hello.sessionToken, s.nextTx, fs[..n])),
     if n == |fs| then Ok(()) else Err(SequenceError))
  }

  lemma EmitNone(s: Session)
    requires s.nextTx <= LAST
    ensures Emit(s, []) == (s, Ok(()))
  {
    assert s.log + [] == s.log;
  }

  lemma EmitStep(s: Session, fs: seq<Fragment>)
    requires CanFrame(s) && fs != [] && AllOk(fs)
    ensures Emit(s, fs) ==
      if s.nextTx == LAST then (s, Err(SequenceError))
      else Emit(Log(s.(nextTx := s.nextTx + 1), PieceEvent(s.hello.sessionToken, s.nextTx, fs[0])), fs[1..])
  {
    hide PieceEvent, PieceEvents, FragmentOk;
    var n := Room(s, |fs|);
    if s.nextTx == LAST {
      assert fs[..n] == [];
      assert PieceEvents(s.hello.sessionToken, s.nextTx, []) == [];
      assert s.log + [] == s.log;
    } else {
      var e := PieceEvent(s.hello.sessionToken, s.nextTx, fs[0]);
      assert fs[..n][0] == fs[0] && fs[..n][1..] == fs[1..][..n - 1];
      PieceEventsFirst(s.hello.sessionToken, s.nextTx, fs[..n]);
      var rest := PieceEvents(s.hello.sessionToken, s.nextTx + 1, fs[1..][..n - 1]);
      assert s.log + ([e] + rest) == s.log + [e] + rest;
    }
  }

  /** The cutting loop in one formula: it emits the frames of the pieces in order, as far as numbers reach. */
  lemma {:induction false} QueueFromEffect(s: Session, m: Message, offset: nat)
    requires CanFrame(s) && m.id != 0 && offset <= |m.body| <= MAX_REASSEMBLY
    ensures AllOk(Pieces(s.hello.leaseToken, m, offset))
    ensures QueueFrom(s, m, offset) == Emit(s, Pieces(s.hello.leaseToken, m, offset))
    decreases |m.body| - offset
  {
    var fs := Pieces(s.hello.leaseToken, m, offset);
    PiecesCount(s.hello.leaseToken, m, offset);
    if offset == |m.body| {
      EmitNone(s);
    } else {
      var f := Piece(s.hello.leaseToken, m, offset);
      FragmentSendable(f);
      QueueFrameEffect(s, m.id, UsbIpData, FlagsOf(f), PutFragment(f));
      EmitStep(s, fs);
      if s.nextTx != LAST {
        var s' := Log(s.(nextTx := s.nextTx + 1), PieceEvent(s.hello.sessionToken, s.nextTx, f));
        QueueFromEffect(s', m, Min(offset + CHUNK, |m.body|));
      }
      hide QueueFrame, Sendable, FragmentOk, PieceEvents;
    }
  }

  // ------------------------------------------------------- frames ever sent

  /** Every frame ever queued, in order. */
  function FramesIn(log: seq<Event>): seq<bytes> {
    if log == [] then []
    else FramesIn(log[..|log| - 1]) + (if log[|log| - 1].OutputFrame? then [log[|log| - 1].frame] else [])
  }

  lemma {:induction false} FramesConcat(a: seq<Event>, b: seq<Event>)
    ensures FramesIn(a + b) == FramesIn(a) + FramesIn(b)
  {
    if b == [] {
      assert a + b == a;
    } else {
      var n := |b| - 1;
      FramesConcat(a, b[..n]);
      assert (a + b)[..|a + b| - 1] == a + b[..n];
      assert (a + b)[|a + b| - 1] == b[n];
    }
  }

  lemma FramesOne(log: seq<Event>, e: Event)
    ensures FramesIn(log + [e]) == FramesIn(log) + (if e.OutputFrame? then [e.frame] else [])
  {
    assert (log + [e])[..|log|] == log;
  }

  /** What a session's payloads say: a valid content of their kind, with the session's own tokens. */
  predicate Content(kind: MessageType, flags: u32, p: bytes, hello: B.Hello) {
    match kind
    case CapabilityMsg =>
      && DecodeCapability(p).Ok?
      && DecodeCapability(p).value.leaseToken == hello.leaseToken
      && DecodeCapability(p).value.attachmentToken == hello.attachmentToken
    case OpenMsg => DecodeOpen(p) == Ok(Open(hello.leaseToken, hello.attachmentToken))
    case OpenOkMsg => p == []
    case OpenRejectMsg => |p| == 4 && 1 <= GetU32Le(p) <= 10
    case UsbIpData => DecodeFragment(p, flags).Ok? && DecodeFragment(p, flags).value.leaseToken == hello.leaseToken
    case CloseMsg => |p| == 8 && GetU64Le(p) == hello.leaseToken
  }

  /** A frame this session may send as its n-th: it decodes, and carries the session's own tokens. */
  predicate Faithful(frame: bytes, hello: B.Hello, n: nat) {
    var d := DecodeFrame(frame);
    && d.Ok?
    && d.value.0.sessionToken == hello.sessionToken
    && d.value.0.sequence == n
    && Content(d.value.0.messageType, d.value.0.flags, d.value.1, hello)
  }

  /** A control frame is faithful if its payload is, and is no data frame. */
  lemma ControlFaithful(hello: B.Hello, n: u64, kind: MessageType, payload: bytes)
    requires hello.sessionToken != 0 && hello.leaseToken != 0 && 1 <= n < LAST
    requires kind != UsbIpData && |payload| <= MAX_PAYLOAD && Content(kind, 0, payload, hello)
    ensures Sendable(kind, 0, payload)
    ensures var frame := FrameBytes(hello.sessionToken, n, kind, 0, payload);
      && Faithful(frame, hello, n)
      && DecodeFrame(frame) == Ok((FrameHeader(kind, 0, |payload|, hello.sessionToken, n), payload))
  {
    assert Sendable(kind, 0, payload) by {
      hide DecodeCapability, DecodeOpen, DecodeFragment;
    }
    hide DecodeFrame, Sendable, FrameBytes, Content;
    FrameReads(hello.sessionToken, n, kind, 0, payload);
  }

  /** The frames ever sent are the session's own and numbered 1, 2, 3 and so on, without a gap. */
  ghost predicate GapFree(frames: seq<bytes>, hello: B.Hello, nextTx: u64) {
    && |frames| + 1 == nextTx
    && forall i :: 0 <= i < |frames| ==> Faithful(frames[i], hello, i + 1)
  }

  lemma GapFreeNext(frames: seq<bytes>, hello: B.Hello, nextTx: u64, frame: bytes)
    requires GapFree(frames, hello, nextTx) && nextTx < U64_MAX && Faithful(frame, hello, nextTx)
    ensures GapFree(frames + [frame], hello, nextTx + 1)
  {
    hide Faithful;
  }

  lemma PieceFaithful(hello: B.Hello, sequence: u64, f: Fragment)
    requires FragmentOk(f) && f.leaseToken == hello.leaseToken && hello.sessionToken != 0 && 1 <= sequence < LAST
    ensures var frame := PieceFrame(hello.sessionToken, sequence, f);
      && Faithful(frame, hello, sequence)
      && DecodeFrame(frame) == Ok((FrameHeader(UsbIpData, FlagsOf(f), |PutFragment(f)|, hello.sessionToken,
          sequence), PutFragment(f)))
      && DecodeFragment(PutFragment(f), FlagsOf(f)) == Ok(f)
  {
    FragmentSendable(f);
    FragmentRoundTrip(f);
    hide DecodeFrame, DecodeFragment, PutFragment, FragmentOk, Sendable, FrameBytes;
    FrameReads(hello.sessionToken, sequence, UsbIpData, FlagsOf(f), PutFragment(f));
  }

  lemma PieceFramesLast(token: u64, sequence: u64, fs: seq<Fragment>, n: nat)
    requires AllOk(fs) && |fs| == n + 1 && sequence + |fs| <= LAST
    ensures PieceFrames(token, sequence, fs)
         == PieceFrames(token, sequence, fs[..n]) + [PieceFrame(token, sequence + n, fs[n])]
  {
    hide PieceFrame, FragmentOk;
  }

  /** The frames among the events of a message are the frames of its pieces. */
  lemma {:induction false} FramesOfPieces(token: u64, sequence: u64, fs: seq<Fragment>)
    requires AllOk(fs) && sequence + |fs| <= LAST
    ensures FramesIn(PieceEvents(token, sequence, fs)) == PieceFrames(token, sequence, fs)
  {
    hide PieceFrame, FragmentOk;
    if fs == [] {
      assert PieceEvents(token, sequence, fs) == [];
    } else {
      var n := |fs| - 1;
      FramesOfPieces(token, sequence, fs[..n]);
      PieceEventsLast(token, sequence, fs, n);
      PieceFramesLast(token, sequence, fs, n);
      hide FramesIn, PieceEvents, PieceFrames;
      FramesOne(PieceEvents(token, sequence, fs[..n]), PieceEvent(token, sequence + n, fs[n]));
    }
  }

  lemma GapFreePieces(frames: seq<bytes>, hello: B.Hello, sequence: u64, fs: seq<Fragment>)
    requires GapFree(frames, hello, sequence) && hello.sessionToken != 0 && sequence >= 1
    requires AllOk(fs) && (forall f :: f in fs ==> f.leaseToken == hello.leaseToken) && sequence + |fs| <= LAST
    ensures GapFree(frames + PieceFrames(hello.sessionToken, sequence, fs), hello, sequence + |fs|)
  {
    hide Faithful, PieceFrame, FragmentOk, DecodeFrame, DecodeFragment, PutFragment;
    forall i | 0 <= i < |fs|
      ensures Faithful(PieceFrame(hello.sessionToken, sequence + i, fs[i]), hello, sequence + i)
    {
      PieceFaithful(hello, sequence + i, fs[i]);
    }
  }
}
