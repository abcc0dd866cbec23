/** Accepting the next frame of a faithful peer: what it may answer, and what it leaves of the stream. */
module Peers {
  import opened Base
  import opened Endian
  import opened Wire
  import opened Reassembly
  import opened Session
  import opened Frames
  import opened Streams
  import opened Sending
  import opened Traffic
  import opened ReplyQueue
  import opened SessionCalls
  import B = Broker
  import E = Execution
  import Usbip

  // ------------------------------------------------------------------- errors

  /** The errors that accuse the peer of speaking out of turn, or of being someone else. */
  predicate Accuses(e: CoreError) {
    e.SequenceError? || e.TokenMismatch? || e.BadMagic? || e.VersionMismatch?
  }

  /** No accusation, unless it is this side's own numbers that ran out. */
  predicate Blameless(s: Session, r: Result<()>) {
    r.Err? && Accuses(r.error) ==> r.error == SequenceError && s.nextTx == LAST
  }

  lemma {:induction false} SendBlameless(s: Session, m: Message)
    requires Configured(s)
    ensures Blameless(SendPdu(s, m).0, SendPdu(s, m).1)
  {
    SendVerdict(s, m);
    SendOutcomes(s, m);
    assert s.nextTx <= LAST;
    hide Configured, Fits, FragmentOk, Pieces, PieceEvents, SendPdu, DivCeil;
  }

  lemma {:induction false} DrainBlameless(s: Session)
    requires Core(s)
    ensures Blameless(Drain(s).0, Drain(s).1)
    decreases |s.pending|
  {
    hide Core, SendPdu, LogGrows;
    if s.pending != [] {
      var m, r := SendPdu(s, s.pending[0]).0, SendPdu(s, s.pending[0]).1;
      CoreConfigured(s);
      SendBlameless(s, s.pending[0]);
      if r.Ok? {
        SendCore(s, s.pending[0]);
        assert m.pending == s.pending;
        PopCore(m);
        DrainBlameless(Popped(m));
      }
    }
  }

  lemma {:induction false} TakeBlameless(s: Session, events: seq<E.ExecutorEvent>)
    ensures TakeEvents(s, events).1.Err? ==> TakeEvents(s, events).1 == Err(LimitExceeded)
    decreases |events|
  {
    if events != [] && TakeEvent(s, events[0]).1.Ok? {
      TakeBlameless(TakeEvent(s, events[0]).0, events[1..]);
    }
  }

  lemma {:induction false} HandleBlameless(s: Session, events: seq<E.ExecutorEvent>)
    requires Core(s)
    ensures Blameless(HandleEvents(s, events).0, HandleEvents(s, events).1)
  {
    var p := s.(produced := s.produced + RepliesIn(events));
    var (m, r) := TakeEvents(p, events);
    TakeOnlySent(p, events);
    CoreOutside(s, m);
    TakeBlameless(p, events);
    hide Core, LogGrows, FramesIn, TakeEvents, Drain;
    if r.Ok? {
      DrainBlameless(m);
    }
  }

  lemma AcceptPduErrors(t: E.Table, wire: bytes)
    ensures E.AcceptPdu(t, wire).1.Err? ==> !Accuses(E.AcceptPdu(t, wire).1.error)
  {
  }

  lemma ControlErrors(pdu: bytes)
    requires Usbip.IsControl(pdu)
    ensures Usbip.DecodeRequest(pdu).Err? ==> !Accuses(Usbip.DecodeRequest(pdu).error)
    ensures Usbip.DecodeReply(pdu).Err? ==> !Accuses(Usbip.DecodeReply(pdu).error)
  {
    assert pdu[0..2] == pdu[..2];
    U16Be(Usbip.VERSION);
    if |pdu| >= 12 && GetU32Be(pdu[8..12]) <= Usbip.MAX_DEVICES {
      RecordsErrors(pdu, 12, GetU32Be(pdu[8..12]));
    }
    hide Usbip.DecodeRecords, Usbip.Utf8, GetU16Be, PutU16Be, GetU32Be;
  }

  lemma {:induction false} InterfacesErrors(s: bytes, n: nat)
    requires Usbip.INTERFACE_SIZE * n <= |s|
    ensures Usbip.DecodeInterfaces(s, n).Err? ==> !Accuses(Usbip.DecodeInterfaces(s, n).error)
  {
    if n > 0 {
      InterfacesErrors(s, n - 1);
    }
  }

  lemma {:induction false} RecordsErrors(wire: bytes, offset: nat, n: nat)
    requires offset <= |wire|
    ensures Usbip.DecodeRecords(wire, offset, n).Err? ==> !Accuses(Usbip.DecodeRecords(wire, offset, n).error)
  {
    hide Usbip.DecodeRecord;
    if n > 0 {
      RecordsErrors(wire, offset, n - 1);
      if Usbip.DecodeRecords(wire, offset, n - 1).Ok? {
        RecordErrors(wire, Usbip.DecodeRecords(wire, offset, n - 1).value.1);
      }
    }
  }

  lemma RecordErrors(wire: bytes, offset: nat)
    requires offset <= |wire|
    ensures Usbip.DecodeRecord(wire, offset).Err? ==> !Accuses(Usbip.DecodeRecord(wire, offset).error)
  {
    hide Usbip.DecodeInterfaces, Usbip.Utf8;
    if offset + Usbip.DEVICE_SIZE <= |wire| {
      var d := Usbip.DecodeDevice(wire[offset..offset + Usbip.DEVICE_SIZE]);
      if d.Ok? {
        var start := offset + Usbip.DEVICE_SIZE;
        var end := start + Usbip.INTERFACE_SIZE * d.value.interfaceCount;
        if end <= |wire| {
          InterfacesErrors(wire[start..end], d.value.interfaceCount);
        }
      }
    }
  }

  /** A message of the peer's program, whatever it says, is never taken for the peer's being out of step. */
  lemma {:induction false} HandlePduBlameless(s: Session, m: Message)
    requires Sound(s) && s.phase == Running
    ensures Blameless(HandlePdu(s, m).0, HandlePdu(s, m).1)
  {
    hide Sound, Core, Usbip.DecodeRequest, Usbip.DecodeReply, E.AcceptPdu, HandleEvents, E.Indexed, Usbip.IsControl;
    if Usbip.IsControl(m.body) {
      ControlErrors(m.body);
    } else {
      var (t, r) := E.AcceptPdu(s.table, m.body);
      SoundCore(s);
      AcceptKeeps(s.table, m.body);
      AcceptPduErrors(s.table, m.body);
      TableSound(s, t);
      SoundCore(s.(table := t));
      if r.Ok? {
        HandleBlameless(s.(table := t), r.value);
      }
    }
  }

  // ------------------------------------------------------------- the stream

  /** Two reassemblers in the middle of the same message, perhaps under different limits. */
  predicate SameContent(a: Buffer, b: Buffer) {
    a.active == b.active && a.lease == b.lease && a.total == b.total && a.fragments == b.fragments && a.held == b.held
  }

  // What stricter limits can change: a fragment is refused for its size or count, or taken just the same.
  lemma PushAlike(a: Buffer, b: Buffer, f: Fragment)
    requires Bounded(a) && Bounded(b) && SameContent(a, b)
    requires a.maxSize <= b.maxSize && a.maxFragments <= b.maxFragments
    requires Push(b, f).1.Ok?
    ensures Push(a, f).1 == Err(LimitExceeded)
         || (Push(a, f).1 == Push(b, f).1 && SameContent(Push(a, f).0, Push(b, f).0))
  {
  }

  /** A receiver that has taken in exactly what there is to read in the frames before. */
  ghost predicate Reading(s: Session, before: seq<bytes>) {
    var c := Collect(before);
    && c.ok
    && s.nextRx == |before| + 1
    && s.received == c.done
    && SameContent(s.buffer, c.buffer)
  }

  predicate Alive(p: Phase) {
    Rank(p) <= Rank(Running)
  }

  // The outcome of a frame: the receiver has read it too, or it has ended without reading past it.
  ghost predicate Advanced(s: Session, after: seq<bytes>) {
    && (Alive(s.phase) ==> Reading(s, after))
    && s.received <= Collect(after).done
  }

  // What two ends of one attachment have in common.
  predicate SameTokens(a: B.Hello, b: B.Hello) {
    a.sessionToken == b.sessionToken && a.leaseToken == b.leaseToken && a.attachmentToken == b.attachmentToken
  }

  lemma {:induction false} DeliverTakesIn(s: Session, m: Message)
    requires Sound(s) && Calm(s) && s.phase == Running && 0 < |m.body|
    ensures var (s', r) := Deliver(s, m);
      && Blameless(s', r) && s'.phase == Running && s'.nextRx == s.nextRx && s'.buffer == s.buffer
      && (s'.received == s.received + [m] || (s'.received == s.received && r.Err?))
  {
    hide Sound, HandlePdu, Deliver, B.ReserveReceive, LogGrows;
    DeliverEffect(s, m);
    AdmittingSound(s, m);
    ReceiveErrors(s.broker, |m.body|);
    if B.ReserveReceive(s.broker, |m.body|).1.Ok? {
      HandlePduBlameless(Admitting(s, m), m);
      HandlePduSound(Admitting(s, m), m);
    }
  }

  lemma ReceiveErrors(b: B.Broker, n: nat)
    ensures B.ReserveReceive(b, n).1.Err? ==> !Accuses(B.ReserveReceive(b, n).1.error)
  {
  }

  // The reading of one more data frame.
  lemma {:induction false} DataFrame(frame: bytes, hello: B.Hello, before: seq<bytes>, n: nat)
    requires Faithful(frame, hello, n) && DecodeFrame(frame).value.0.messageType == UsbIpData
    requires Collect(before).ok && Collect(before + [frame]).ok
    ensures var (h, p) := DecodeFrame(frame).value;
      DecodeFragment(p, h.flags).Ok? && DecodeFragment(p, h.flags).value.leaseToken == hello.leaseToken
    ensures var (h, p) := DecodeFrame(frame).value;
      var f := DecodeFragment(p, h.flags).value;
      var c, c' := Collect(before), Collect(before + [frame]);
      && Push(c.buffer, f).1.Ok?
      && c'.buffer == Push(c.buffer, f).0 && c'.done == c.done + Delivered(Push(c.buffer, f).1.value)
  {
    CollectOne(before, frame);
    hide Collect, DecodeFrame, DecodeFragment, Push;
  }

  // Deliver only ever gets whole, non-empty messages.
  lemma DeliveredNonEmpty(b: Buffer, f: Fragment)
    requires Bounded(b) && Push(b, f).1.Ok? && Push(b, f).1.value.Some?
    ensures 0 < |Push(b, f).1.value.value.body|
  {
  }

  lemma Prefix<T>(a: seq<T>, b: seq<T>)
    ensures a <= a + b
  {
  }

  // A fragment that continues what was read is read too, or refused for its size.
  lemma {:induction false} FragmentTakesIn(s: Session, payload: bytes, flags: u32, c: Stream, c': Stream)
    requires Sound(s) && Calm(s) && s.phase == Running && Bounded(c.buffer)
    requires c.buffer.maxSize == MAX_REASSEMBLY && c.buffer.maxFragments == MAX_FRAGMENTS
    requires s.received == c.done && SameContent(s.buffer, c.buffer)
    requires DecodeFragment(payload, flags).Ok? && DecodeFragment(payload, flags).value.leaseToken == s.hello.leaseToken
    requires var f := DecodeFragment(payload, flags).value;
      && Push(c.buffer, f).1.Ok?
      && c'.buffer == Push(c.buffer, f).0 && c'.done == c.done + Delivered(Push(c.buffer, f).1.value)
    ensures var (s', r) := ArriveData(s, payload, flags);
      && Blameless(s', r) && s'.phase == Running && s'.nextRx == s.nextRx
      && (r.Ok? ==> s'.received == c'.done && SameContent(s'.buffer, c'.buffer))
      && s'.received <= c'.done
  {
    hide Sound, DecodeFragment, Deliver, Bounded, Push;
    ReceiverLimits(s);
    var f := DecodeFragment(payload, flags).value;
    PushAlike(s.buffer, c.buffer, f);
    PushSound(s, f);
    var (b, r) := Push(s.buffer, f);
    Prefix(s.received, Delivered(Push(c.buffer, f).1.value));
    if r.Ok? {
      if r.value.Some? {
        DeliveredNonEmpty(s.buffer, f);
        DeliverTakesIn(s.(buffer := b), r.value.value);
      } else {
        assert s.received + [] == s.received;
      }
    }
  }

  lemma {:induction false} ArriveDataTakesIn(s: Session, frame: bytes, peer: B.Hello, before: seq<bytes>, n: nat)
    requires Sound(s) && Calm(s) && s.phase == Running
    requires Faithful(frame, peer, n) && SameTokens(s.hello, peer)
    requires DecodeFrame(frame).value.0.messageType == UsbIpData
    requires s.received == Collect(before).done && SameContent(s.buffer, Collect(before).buffer)
    requires Collect(before).ok && Collect(before + [frame]).ok
    ensures var (h, p) := DecodeFrame(frame).value;
      var (s', r) := ArriveData(s, p, h.flags);
      var c := Collect(before + [frame]);
      && Blameless(s', r) && s'.phase == Running && s'.nextRx == s.nextRx
      && (r.Ok? ==> s'.received == c.done && SameContent(s'.buffer, c.buffer))
      && s'.received <= c.done
  {
    DataFrame(frame, peer, before, n);
    CollectBounded(before);
    hide Sound, Collect, DecodeFrame, DecodeFragment, ArriveData, Push, Faithful;
    var (h, p) := DecodeFrame(frame).value;
    FragmentTakesIn(s, p, h.flags, Collect(before), Collect(before + [frame]));
  }

  lemma ReceiverLimits(s: Session)
    requires Sound(s)
    ensures Bounded(s.buffer) && s.buffer.maxSize <= MAX_REASSEMBLY && s.buffer.maxFragments <= MAX_FRAGMENTS
  {
  }

  // ------------------------------------------------------------- one frame

  // A faithful control frame is refused only for coming in the wrong phase.
  lemma ControlTakesIn(s: Session, h: FrameHeader, p: bytes, peer: B.Hello)
    requires Receiving(s.phase) && s.broker.state == B.Established
    requires h.messageType != UsbIpData && Content(h.messageType, h.flags, p, peer) && SameTokens(s.hello, peer)
    ensures var (s', r) := Arrive(s, h, p);
      && (r.Err? ==> r.error == InvalidState)
      && s'.received == s.received && s'.nextRx == s.nextRx
      && (Alive(s'.phase) ==> s'.buffer == s.buffer)
  {
    hide DecodeCapability, DecodeOpen, DecodeFragment;
  }

  // Everything but the numbering: a faithful frame that arrives in its turn.
  lemma {:induction false} ArriveTakesIn(s: Session, frame: bytes, peer: B.Hello, before: seq<bytes>, n: nat)
    requires Sound(s) && Calm(s) && Receiving(s.phase) && SameTokens(s.hello, peer) && Faithful(frame, peer, n)
    requires s.received == Collect(before).done && SameContent(s.buffer, Collect(before).buffer)
    requires Collect(before).ok && Collect(before + [frame]).ok
    ensures var (h, p) := DecodeFrame(frame).value;
      var (s', r) := Arrive(s, h, p);
      var c := Collect(before + [frame]);
      && Blameless(s', r) && s'.nextRx == s.nextRx
      && (r.Ok? && Alive(s'.phase) ==> s'.received == c.done && SameContent(s'.buffer, c.buffer))
      && s'.received <= c.done
  {
    EstablishedWhenReceiving(s);
    if DecodeFrame(frame).value.0.messageType == UsbIpData {
      if s.phase == Running {
        ArriveDataTakesIn(s, frame, peer, before, n);
      } else {
        DataFrame(frame, peer, before, n);
      }
      hide Sound, Collect, DecodeFrame, ArriveData, Faithful, Push, DecodeFragment, SameContent;
    } else {
      CollectOne(before, frame);
      AbsorbControl(Collect(before), frame);
      ControlTakesIn(s, DecodeFrame(frame).value.0, DecodeFrame(frame).value.1, peer);
      hide Sound, Collect, DecodeFrame, Absorb, Content, Arrive, SameContent;
    }
  }

  lemma EstablishedWhenReceiving(s: Session)
    requires Sound(s) && Receiving(s.phase)
    ensures s.broker.state == B.Established
  {
  }

  /**
   The next frame of a peer with the same tokens is never refused as out of
   sequence, as somebody else's, or as another protocol's; the receiver reads on,
   or it ends without having taken anything in out of order.
   */
  lemma {:induction false} AcceptNext(s: Session, frame: bytes, peer: B.Hello, before: seq<bytes>)
    requires Sound(s) && Calm(s) && Alive(s.phase) && Reading(s, before) && SameTokens(s.hello, peer)
    requires |before| + 1 < LAST && Faithful(frame, peer, |before| + 1) && Collect(before + [frame]).ok
    ensures var (s', r) := AcceptFrame(s, frame);
      && Blameless(s', r)
      && Advanced(s', before + [frame])
  {
    hide Sound, Calm, DecodeFrame, Arrive, Collect, SameContent, Content;
    if Receiving(s.phase) {
      EstablishedWhenReceiving(s);
      NumberedSound(s);
      var n := s.(nextRx := s.nextRx + 1);
      CalmIsRx(s, n);
      ArriveTakesIn(n, frame, peer, before, |before| + 1);
    } else {
      CollectGrows(before, frame);
    }
  }

  /** Reading on never unreads a message. */
  lemma CollectGrows(before: seq<bytes>, frame: bytes)
    ensures Collect(before).done <= Collect(before + [frame]).done
    ensures Collect(before + [frame]).ok ==> Collect(before).ok
  {
    CollectOne(before, frame);
    hide Collect, DecodeFrame, DecodeFragment, Push;
  }
}
