/** Sending one message: all of it, or nothing, unless sequence numbers run out on the way. */
module Sending {
  import opened Base
  import opened Wire
  import opened Reassembly
  import opened Session
  import opened Frames
  import opened Streams
  import B = Broker

  /** What construction and the handshake fix about a session. */
  predicate Configured(s: Session) {
    && B.HelloOk(s.hello)
    && s.broker.expected == s.hello
    && s.broker.maxPdu <= s.hello.maxPdu
    && 1 <= s.broker.maxInflight <= B.MAX_INFLIGHT
    && 1 <= s.broker.txWindowBytes <= B.MAX_WINDOW_BYTES && 1 <= s.broker.txWindowPdus <= B.MAX_INFLIGHT
    && LimitsOk(s.maxReassembly, s.maxFragments)
    && s.maxReassembly <= s.hello.maxPdu
    && s.buffer.maxSize == s.maxReassembly && s.buffer.maxFragments == s.maxFragments
    && s.table.maxTransfer + 48 <= s.maxReassembly
    && 1 <= s.nextTx <= LAST
    && 1 <= s.nextRx <= LAST
  }

  lemma ConfiguredFrames(s: Session)
    requires Configured(s)
    ensures CanFrame(s) && s.broker.maxPdu <= MAX_REASSEMBLY && s.maxReassembly <= MAX_REASSEMBLY
  {
  }

  predicate Fits(s: Session, m: Message) {
    && 0 < |m.body| <= s.broker.maxPdu
    && |m.body| <= s.maxReassembly
    && DivCeil(|m.body|, CHUNK) <= s.maxFragments
  }

  // The pieces of a message as this session cuts it.
  function Cuts(s: Session, m: Message): seq<Fragment>
    requires |m.body| <= U32_MAX
  {
    Pieces(s.hello.leaseToken, m, 0)
  }

  lemma {:induction false} FragmentEffect(s: Session, m: Message)
    requires Configured(s) && m.id != 0
    ensures !Fits(s, m) ==> FragmentAndQueue(s, m) == (s, Err(LimitExceeded))
    ensures Fits(s, m) ==>
      && AllOk(Cuts(s, m))
      && |Cuts(s, m)| == DivCeil(|m.body|, CHUNK)
      && FragmentAndQueue(s, m) == Emit(s, Cuts(s, m))
  {
    ConfiguredFrames(s);
    hide Configured, QueueFrom, Emit, FragmentOk, Pieces, CanFrame;
    if Fits(s, m) {
      QueueFromEffect(s, m, 0);
      PiecesCount(s.hello.leaseToken, m, 0);
    }
  }

  // A session after a message went out in full.
  function Sent(s: Session, m: Message): Session
    requires Configured(s) && |m.body| <= MAX_REASSEMBLY && AllOk(Cuts(s, m))
  {
    Emit(s, Cuts(s, m)).0.(broker := B.ReserveSend(s.broker, |m.body|).0,
                           reservations := s.reservations[m.id := |m.body|],
                           sent := s.sent + [m])
  }

  /**
   The three ways a message can go. In full, holding its place in the window. Not
   at all, leaving the session exactly as it was. Or cut short, and then only
   because sequence numbers ran out, holding nothing in the window.
   */
  lemma {:induction false} SendOutcomes(s: Session, m: Message)
    requires Configured(s)
    ensures var (s', r) := SendPdu(s, m);
      && (r.Ok? ==>
            && s.phase == Running && m.id != 0 && m.id !in s.reservations
            && Fits(s, m) && AllOk(Cuts(s, m)) && B.ReserveSend(s.broker, |m.body|).1.Ok?
            && s.nextTx + |Cuts(s, m)| <= LAST
            && s' == Sent(s, m))
      && (r.Err? && r.error != SequenceError ==> s' == s)
      && (r == Err(SequenceError) ==>
            && m.id != 0 && Fits(s, m) && AllOk(Cuts(s, m))
            && s.nextTx + |Cuts(s, m)| > LAST
            && s' == Emit(s, Cuts(s, m)).0)
  {
    if s.phase == Running && m.id != 0 && m.id !in s.reservations {
      var (b, r) := B.ReserveSend(s.broker, |m.body|);
      if r.Ok? {
        B.AckUndoesReserve(s.broker, |m.body|);
        assert b == s.broker.(tx := b.tx);
        FragmentEffect(s.(broker := b), m);
        hide Configured, FragmentAndQueue, Fits, FragmentOk, Pieces, PieceEvents, B.ReserveSend, B.AckSend;
        assert s.(broker := b).(broker := s.broker) == s;
      }
    }
  }

  /** What sending a message answers, told beforehand. */
  lemma {:induction false} SendVerdict(s: Session, m: Message)
    requires Configured(s)
    ensures SendPdu(s, m).1 ==
      if s.phase != Running || m.id == 0 then Err(InvalidState)
      else if m.id in s.reservations then Err(Duplicate)
      else if B.ReserveSend(s.broker, |m.body|).1.Err? then B.ReserveSend(s.broker, |m.body|).1
      else if !Fits(s, m) then Err(LimitExceeded)
      else if s.nextTx + DivCeil(|m.body|, CHUNK) > LAST then Err(SequenceError)
      else Ok(())
  {
    if s.phase == Running && m.id != 0 && m.id !in s.reservations {
      var (b, r) := B.ReserveSend(s.broker, |m.body|);
      if r.Ok? {
        assert b == s.broker.(tx := b.tx);
        FragmentEffect(s.(broker := b), m);
        assert Fits(s.(broker := b), m) == Fits(s, m);
        hide Configured, FragmentAndQueue, Fits, FragmentOk, Pieces, PieceEvents, B.ReserveSend, B.AckSend, DivCeil;
      }
    }
  }

  // A frame on the wire and the fragment it carries.
  predicate Carries(e: Event, id: u64, f: Fragment) {
    && e.OutputFrame? && e.reservation == id
    && DecodeFrame(e.frame).Ok?
    && var (h, p) := DecodeFrame(e.frame).value;
       h.messageType == UsbIpData && DecodeFragment(p, h.flags) == Ok(f)
  }

  lemma PieceCarries(hello: B.Hello, sequence: u64, f: Fragment)
    requires FragmentOk(f) && f.leaseToken == hello.leaseToken && hello.sessionToken != 0 && 1 <= sequence < LAST
    ensures Carries(PieceEvent(hello.sessionToken, sequence, f), f.pduId, f)
  {
    hide DecodeFrame, DecodeFragment, PutFragment, FragmentOk, PieceFrame, Faithful;
    PieceFaithful(hello, sequence, f);
  }

  lemma {:induction false} PiecesId(lease: u64, m: Message, offset: nat)
    requires offset <= |m.body| <= U32_MAX
    ensures forall f :: f in Pieces(lease, m, offset) ==> f.pduId == m.id
    decreases |m.body| - offset
  {
    if offset < |m.body| {
      PiecesId(lease, m, Min(offset + CHUNK, |m.body|));
    }
  }

  lemma SentLog(s: Session, m: Message)
    requires Configured(s) && |m.body| <= MAX_REASSEMBLY && AllOk(Cuts(s, m)) && s.nextTx + |Cuts(s, m)| <= LAST
    ensures Sent(s, m).log == s.log + PieceEvents(s.hello.sessionToken, s.nextTx, Cuts(s, m))
  {
    hide FragmentOk, Pieces, PieceEvents, Configured;
    var fs := Cuts(s, m);
    assert fs[..|fs|] == fs;
  }

  lemma {:induction false} AllCarried(hello: B.Hello, sequence: u64, fs: seq<Fragment>, id: u64)
    requires AllOk(fs) && hello.sessionToken != 0 && 1 <= sequence && sequence + |fs| <= LAST
    requires forall i :: 0 <= i < |fs| ==> fs[i].leaseToken == hello.leaseToken && fs[i].pduId == id
    ensures forall i :: 0 <= i < |fs| ==> Carries(PieceEvents(hello.sessionToken, sequence, fs)[i], id, fs[i])
  {
    hide Carries, FragmentOk, PieceEvent;
    forall i | 0 <= i < |fs|
      ensures Carries(PieceEvents(hello.sessionToken, sequence, fs)[i], id, fs[i])
    {
      PieceCarries(hello, sequence + i, fs[i]);
    }
  }

  lemma {:induction false} CutsCarried(s: Session, m: Message)
    requires Configured(s) && Fits(s, m) && m.id != 0 && AllOk(Cuts(s, m)) && s.nextTx + |Cuts(s, m)| <= LAST
    ensures forall i :: 0 <= i < |Cuts(s, m)| ==>
      Carries(PieceEvents(s.hello.sessionToken, s.nextTx, Cuts(s, m))[i], m.id, Cuts(s, m)[i])
  {
    assert s.hello.sessionToken != 0 && 1 <= s.nextTx;
    hide Configured, Carries, FragmentOk, Pieces, PieceEvents, Fits;
    PiecesLease(s.hello.leaseToken, m, 0);
    PiecesId(s.hello.leaseToken, m, 0);
    AllCarried(s.hello, s.nextTx, Cuts(s, m), m.id);
  }

  lemma {:induction false} CutsReassemble(s: Session, m: Message, b: Buffer)
    requires Configured(s) && Fits(s, m) && m.id != 0
    requires Idle(b) && b.maxSize == s.maxReassembly && b.maxFragments == s.maxFragments
    ensures |Cuts(s, m)| == DivCeil(|m.body|, CHUNK) > 0
    ensures Feed(b, Cuts(s, m)) == (b, Nones(|Cuts(s, m)| - 1) + [Ok(Some(m))])
  {
    assert Bounded(b) && s.hello.leaseToken != 0;
    ConfiguredFrames(s);
    hide Configured, FragmentOk, Pieces, Feed, Whole, Idle, Bounded;
    PiecesCount(s.hello.leaseToken, m, 0);
    PiecesReassemble(b, s.hello.leaseToken, m);
  }

  /**
   Fragmentation is undone by reassembly: the frames a message went out in decode
   one by one to its fragments, and these, pushed into an idle reassembler with the
   sender's own limits, give nothing until the last and then the message under its
   id, leaving the reassembler idle.
   */
  lemma {:induction false} FragmentationIsUndone(s: Session, m: Message, frames: seq<Event>, b: Buffer)
    requires Configured(s) && SendPdu(s, m).1.Ok? && SendPdu(s, m).0.log == s.log + frames
    requires Idle(b) && b.maxSize == s.maxReassembly && b.maxFragments == s.maxFragments
    ensures |m.body| <= U32_MAX && |frames| == |Cuts(s, m)| == DivCeil(|m.body|, CHUNK) > 0
    ensures forall i :: 0 <= i < |frames| ==> Carries(frames[i], m.id, Cuts(s, m)[i])
    ensures Feed(b, Cuts(s, m)) == (b, Nones(|frames| - 1) + [Ok(Some(m))])
  {
    SendOutcomes(s, m);
    ConfiguredFrames(s);
    SentLog(s, m);
    hide SendPdu, Carries, FragmentOk, Pieces, Feed, Sent, PieceEvents, Configured, Emit, Idle, Cuts;
    assert frames == (s.log + frames)[|s.log|..];
    CutsCarried(s, m);
    CutsReassemble(s, m, b);
  }

  // ------------------------------------------------------------------ frames

  /** Everything sent so far: numbered without a gap, and readable as the messages sent, in order. */
  ghost predicate Outgoing(s: Session) {
    && GapFree(FramesIn(s.log), s.hello, s.nextTx)
    && InStep(FramesIn(s.log), s.sent, s.nextTx)
  }

  lemma {:induction false} EmitFrames(s: Session, fs: seq<Fragment>)
    requires s.nextTx <= LAST && AllOk(fs)
    ensures var n := Room(s, |fs|);
      FramesIn(Emit(s, fs).0.log) == FramesIn(s.log) + PieceFrames(s.hello.sessionToken, s.nextTx, fs[..n])
  {
    hide FragmentOk, PieceEvents, PieceFrames, FramesIn;
    var n := Room(s, |fs|);
    FramesConcat(s.log, PieceEvents(s.hello.sessionToken, s.nextTx, fs[..n]));
    FramesOfPieces(s.hello.sessionToken, s.nextTx, fs[..n]);
  }

  lemma {:induction false} EmitGapFree(s: Session, m: Message)
    requires Configured(s) && m.id != 0 && Fits(s, m) && AllOk(Cuts(s, m))
    requires GapFree(FramesIn(s.log), s.hello, s.nextTx)
    ensures var s' := Emit(s, Cuts(s, m)).0; GapFree(FramesIn(s'.log), s.hello, s'.nextTx)
  {
    hide FragmentOk, PieceFrames, FramesIn, Pieces, GapFree;
    var fs := Cuts(s, m);
    EmitFrames(s, fs);
    PiecesLease(s.hello.leaseToken, m, 0);
    GapFreePieces(FramesIn(s.log), s.hello, s.nextTx, fs[..Room(s, |fs|)]);
  }

  // What the reader needs to know of the pieces of a message that fits.
  lemma {:induction false} FittingPieces(s: Session, m: Message)
    requires Configured(s) && m.id != 0 && Fits(s, m)
    ensures s.hello.sessionToken != 0 && s.hello.leaseToken != 0 && 1 <= s.nextTx <= LAST
    ensures 0 < |m.body| <= MAX_REASSEMBLY && DivCeil(|m.body|, CHUNK) <= MAX_FRAGMENTS
    ensures |Cuts(s, m)| > 0
  {
    ConfiguredFrames(s);
    PiecesCount(s.hello.leaseToken, m, 0);
    hide FragmentOk, Pieces;
  }

  lemma {:induction false} EmitInStep(s: Session, m: Message)
    requires Configured(s) && m.id != 0 && Fits(s, m) && AllOk(Cuts(s, m))
    requires InStep(FramesIn(s.log), s.sent, s.nextTx)
    ensures var (s', r) := Emit(s, Cuts(s, m));
      InStep(FramesIn(s'.log), if r.Ok? then s.sent + [m] else s.sent, s'.nextTx)
  {
    hide FragmentOk, PieceFrames, PieceEvents, FramesIn, Pieces, Collect, Configured, Fits, InStep;
    FittingPieces(s, m);
    var fs := Cuts(s, m);
    var n := Room(s, |fs|);
    EmitFrames(s, fs);
    if n == |fs| {
      assert fs[..n] == fs;
      InStepWhole(FramesIn(s.log), s.sent, s.hello, s.nextTx, m);
    } else if s.nextTx < LAST {
      InStepPart(FramesIn(s.log), s.sent, s.hello, s.nextTx, m, n);
    } else {
      assert fs[..n] == [];
      NoPieces(s.hello.sessionToken, s.nextTx);
      assert FramesIn(s.log) + [] == FramesIn(s.log);
    }
  }

  lemma {:induction false} SendOutgoing(s: Session, m: Message)
    requires Configured(s) && Outgoing(s)
    ensures Outgoing(SendPdu(s, m).0)
  {
    SendOutcomes(s, m);
    hide FragmentOk, PieceEvents, FramesIn, Pieces, GapFree, InStep, SendPdu, Fits, Configured;
    var r := SendPdu(s, m).1;
    if r.Ok? || r == Err(SequenceError) {
      EmitGapFree(s, m);
      EmitInStep(s, m);
    }
  }

  // ----------------------------------------------------------------- windows

  ghost function Total(held: map<u64, nat>): nat
    decreases held.Keys
  {
    if held.Keys == {} then 0
    else
      var k :| k in held.Keys;
      held[k] + Total(held - {k})
  }

  // The total does not depend on the order of adding up.
  lemma {:induction false} TotalWithout(held: map<u64, nat>, k: u64)
    requires k in held
    ensures Total(held) == held[k] + Total(held - {k})
    decreases held.Keys
  {
    var j :| j in held.Keys && Total(held) == held[j] + Total(held - {j});
    if j != k {
      TotalWithout(held - {j}, k);
      TotalWithout(held - {k}, j);
      assert held - {j} - {k} == held - {k} - {j};
    }
  }

  lemma {:induction false} TotalWith(held: map<u64, nat>, k: u64, n: nat)
    requires k !in held
    ensures Total(held[k := n]) == Total(held) + n
    ensures |held[k := n]| == |held| + 1
  {
    TotalWithout(held[k := n], k);
    assert held[k := n] - {k} == held;
    assert held[k := n].Keys == held.Keys + {k};
  }

  /**
   While the session is established its window counts exactly the messages out
   and their bytes, and never more than was agreed.
   */
  ghost predicate Conserved(s: Session) {
    && s.broker.tx.pdusInFlight == |s.reservations|
    && s.broker.tx.bytesInFlight == Total(s.reservations)
    && (forall k :: k in s.reservations ==> k != 0 && s.reservations[k] > 0)
    && s.broker.tx.bytesInFlight <= s.broker.txWindowBytes
    && s.broker.tx.pdusInFlight <= Min(s.broker.txWindowPdus, s.broker.maxInflight)
  }

  ghost predicate Windowed(s: Session) {
    s.broker.state == B.Established ==> Conserved(s)
  }

  // A message that goes out takes its share of the window.
  lemma {:induction false} ReserveConserved(s: Session, id: u64, n: nat)
    requires Conserved(s) && id != 0 && id !in s.reservations
    requires 1 <= s.broker.txWindowPdus && B.ReserveSend(s.broker, n).1.Ok?
    ensures Conserved(s.(broker := B.ReserveSend(s.broker, n).0, reservations := s.reservations[id := n]))
  {
    TotalWith(s.reservations, id, n);
    hide Total;
  }

  lemma ConservedSame(s: Session, s': Session)
    requires Windowed(s) && s'.broker == s.broker && s'.reservations == s.reservations
    ensures Windowed(s')
  {
    hide Total;
  }

  lemma ReservedState(b: B.Broker, n: nat)
    ensures B.ReserveSend(b, n).0.state == b.state
    ensures B.ReserveSend(b, n).1.Ok? ==> b.state == B.Established
  {
  }

  lemma {:induction false} SendWindowed(s: Session, m: Message)
    requires Configured(s) && Windowed(s)
    ensures Windowed(SendPdu(s, m).0)
  {
    SendOutcomes(s, m);
    assert 1 <= s.broker.txWindowPdus;
    hide FragmentOk, PieceEvents, Pieces, SendPdu, Configured, Fits, Conserved, B.ReserveSend;
    if SendPdu(s, m).1.Ok? {
      ReservedState(s.broker, |m.body|);
      ReserveConserved(s, m.id, |m.body|);
      ConservedSame(s.(broker := B.ReserveSend(s.broker, |m.body|).0,
          reservations := s.reservations[m.id := |m.body|]), SendPdu(s, m).0);
    } else {
      ConservedSame(s, SendPdu(s, m).0);
    }
  }
}
