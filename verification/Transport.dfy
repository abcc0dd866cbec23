/**
 The session as the program runs it: an object over a broker session, an executor
 and a reassembler, with a queue of events its caller takes one by one. Each of its
 methods does to the object what the step of the same name does to a session value.
 */
module Transport {
  import opened Base
  import opened Endian
  import opened Wire
  import opened Reassembly
  import opened Session
  import opened SessionCalls
  import B = Broker
  import E = Execution
  import L = ExecutionLaws
  import Usbip

  class Transport {
    const role: Role
    var phase: Phase
    const hello: B.Hello
    const broker: B.BrokerSession
    const executor: E.Executor
    const reassembler: Reassembler
    var nextRx: u64
    var nextTx: u64
    var nextInternal: u64
    var reservations: map<u64, nat>
    var pending: seq<Message>
    var events: seq<Event>
    const maxReassembly: nat
    const maxFragments: nat

    // The history: the events the caller has taken, and all replies and messages so far.
    ghost var taken: seq<Event>
    ghost var produced: seq<bytes>
    ghost var sent: seq<Message>
    ghost var received: seq<Message>

    /** The object as a value: the log is what the caller has taken and what still waits for it. */
    ghost function Model(): Session
      reads this, broker, executor, reassembler
    {
      Session(role, phase, hello, broker.Model(), executor.Model(), reassembler.Model(), nextRx, nextTx, nextInternal,
              reservations, pending, maxReassembly, maxFragments, taken + events, produced, sent, received)
    }

    ghost predicate Valid()
      reads this, broker, executor, reassembler
    {
      Sound(Model()) && Calm(Model())
    }

    constructor (s: Session)
      requires Made(s)
      ensures Model() == s && Valid()
      ensures fresh(broker) && fresh(executor) && fresh(reassembler)
    {
      role, phase, hello := s.role, s.phase, s.hello;
      broker := new B.BrokerSession(s.broker);
      executor := new E.Executor(s.table);
      reassembler := new Reassembler(s.buffer.maxSize, s.buffer.maxFragments);
      nextRx, nextTx, nextInternal := s.nextRx, s.nextTx, s.nextInternal;
      reservations, pending, events := s.reservations, s.pending, s.log;
      maxReassembly, maxFragments := s.maxReassembly, s.maxFragments;
      taken, produced, sent, received := [], s.produced, s.sent, s.received;
      new;
      MadeSound(s);
    }

    /** A session for a configuration, or the reason there is none. */
    static method Create(c: Config) returns (r: Result<Transport>)
      ensures NewSession(c).Err? ==> r == Err(NewSession(c).error)
      ensures NewSession(c).Ok? ==> r.Ok? && fresh(r.value) && r.value.Model() == NewSession(c).value && r.value.Valid()
    {
      var s :- NewSession(c);
      var t := new Transport(s);
      return Ok(t);
    }

    /**
     What finishing a transfer would bring about, without doing it: for a completion
     of these lengths, true means replies, false means silence, and an error is the
     error finishing would give.
     */
    method CheckCompletion(token: u64, actualLength: u32, dataLength: nat) returns (r: Result<bool>)
      requires Valid()
      ensures phase != Running <==> r == Err(InvalidState)
      ensures forall c: E.Completion :: phase == Running && c.actualLength == actualLength && |c.data| == dataLength ==>
        var answer := E.Complete(executor.Model(), token, c).1;
        && (r == Ok(true) <==> answer.Ok? && answer.value != [])
        && (r == Ok(false) <==> answer == Ok([]))
        && (r.Err? ==> answer == Err(r.error))
    {
      if phase != Running {
        return Err(InvalidState);
      }
      r := E.ValidateCompletion(executor.Model(), token, actualLength, dataLength);
      SoundCore(Model());
      hide E.Complete, Sound, E.Indexed;
      forall c: E.Completion | c.actualLength == actualLength && |c.data| == dataLength
        ensures var answer := E.Complete(executor.Model(), token, c).1;
          && (r == Ok(true) <==> answer.Ok? && answer.value != [])
          && (r == Ok(false) <==> answer == Ok([]))
          && (r.Err? ==> answer == Err(r.error))
      {
        L.ValidationPredicts(executor.Model(), token, c);
      }
    }

    /** Taking the oldest event moves it out of the queue and not out of history. */
    method NextEvent() returns (e: Option<Event>)
      modifies this
      ensures Model() == old(Model())
      ensures old(events) == [] ==> e == None && events == []
      ensures old(events) != [] ==> e == Some(old(events)[0]) && events == old(events)[1..]
    {
      if events == [] {
        return None;
      }
      e := Some(events[0]);
      taken, events := taken + [events[0]], events[1..];
    }

    method PushEvent(e: Event)
      modifies this`events
      ensures Model() == Log(old(Model()), e)
    {
      events := events + [e];
      assert taken + events == old(taken + events) + [e];
    }

    // ---------------------------------------------------------------- frames

    method NumberFrame(kind: MessageType, flags: u32, payload: bytes) returns (r: Result<bytes>)
      modifies this`nextTx
      ensures (Model(), r) == MakeFrame(old(Model()), kind, flags, payload)
    {
      var sequence := nextTx;
      var next := NextSequence(sequence);
      if next.Err? {
        return Err(next.error);
      }
      nextTx := next.value;
      if |payload| > U32_MAX {
        return Err(LimitExceeded);
      }
      return EncodeFrame(FrameHeader(kind, flags, |payload|, hello.sessionToken, sequence), payload);
    }

    method QueueOutput(reservation: u64, kind: MessageType, flags: u32, payload: bytes) returns (r: Result<()>)
      modifies this`nextTx, this`events
      ensures (Model(), r) == QueueFrame(old(Model()), reservation, kind, flags, payload)
    {
      var frame := NumberFrame(kind, flags, payload);
      if frame.Err? {
        return Err(frame.error);
      }
      PushEvent(OutputFrame(reservation, frame.value));
      return Ok(());
    }

    /** Cutting a message into frames, in a loop over its offsets. */
    method CutAndQueue(m: Message) returns (r: Result<()>)
      modifies this`nextTx, this`events
      ensures (Model(), r) == FragmentAndQueue(old(Model()), m)
    {
      if m.body == [] || |m.body| > broker.maxPdu || |m.body| > maxReassembly {
        return Err(LimitExceeded);
      }
      if DivCeil(|m.body|, CHUNK) > maxFragments {
        return Err(LimitExceeded);
      }
      ghost var start := Model();
      var offset := 0;
      while offset < |m.body|
        invariant offset <= |m.body| <= U32_MAX
        invariant QueueFrom(start, m, 0) == QueueFrom(Model(), m, offset)
      {
        var end := Min(offset + CHUNK, |m.body|);
        var fragment := Fragment(hello.leaseToken, m.id, |m.body|, offset, m.body[offset..end], end != |m.body|);
        var payload := EncodeFragment(fragment);
        if payload.Err? {
          return Err(payload.error);
        }
        var queued := QueueOutput(m.id, UsbIpData, FlagsOf(fragment), payload.value);
        if queued.Err? {
          return queued;
        }
        offset := end;
      }
      return Ok(());
    }

    // -------------------------------------------------------------- messages

    method SendMessage(m: Message) returns (r: Result<()>)
      modifies this, broker
      ensures (Model(), r) == SendPdu(old(Model()), m)
      ensures old(Valid()) ==> Valid()
    {
      hide Sound, FragmentAndQueue, B.ReserveSend, B.AckSend;
      if Valid() {
        SendPduSound(Model(), m);
      }
      if phase != Running || m.id == 0 {
        return Err(InvalidState);
      }
      if m.id in reservations {
        return Err(Duplicate);
      }
      ghost var start := Model();
      r := broker.TakeSend(|m.body|);
      assert Model() == start.(broker := B.ReserveSend(start.broker, |m.body|).0);
      if r.Err? {
        return;
      }
      r := CutAndQueue(m);
      ghost var cut := Model();
      if r.Err? {
        var _ := broker.ReturnSend(|m.body|);
        assert Model() == cut.(broker := B.AckSend(cut.broker, |m.body|).0);
        return;
      }
      reservations := reservations[m.id := |m.body|];
      sent := sent + [m];
      assert Model() == cut.(reservations := cut.reservations[m.id := |m.body|], sent := cut.sent + [m]);
      return Ok(());
    }

    /** Sending waiting replies, oldest first, until one does not go. */
    method DrainPending() returns (r: Result<()>)
      modifies this, broker
      ensures (Model(), r) == Drain(old(Model()))
    {
      ghost var start := Model();
      while pending != []
        invariant Drain(start) == Drain(Model())
        decreases |pending|
      {
        ghost var before := Model();
        r := SendMessage(pending[0]);
        SendKeepsQueue(before, before.pending[0]);
        if r.Err? {
          if r.error == WindowExhausted {
            return Ok(());
          }
          return;
        }
        pending := pending[1..];
      }
      return Ok(());
    }

    method Acknowledge(reservation: u64) returns (r: Result<()>)
      requires Valid()
      modifies this, broker
      ensures (Model(), r) == AckOutput(old(Model()), reservation) && Valid()
    {
      hide Sound, Drain, B.AckSend;
      ghost var start := Model();
      AckOutputSound(start, reservation);
      if reservation == 0 {
        return Ok(());
      }
      if reservation !in reservations {
        return Err(NotFound);
      }
      var size := reservations[reservation];
      reservations := reservations - {reservation};
      r := broker.ReturnSend(size);
      assert Model() == start.(reservations := start.reservations - {reservation},
                               broker := B.AckSend(start.broker, size).0);
      if r.Err? {
        return;
      }
      r := DrainPending();
    }

    // -------------------------------------------------------------- executor

    /** What the executor reported: calls go to the caller at once, replies into the queue. */
    method HandleReports(reports: seq<E.ExecutorEvent>) returns (r: Result<()>)
      modifies this, broker
      ensures (Model(), r) == HandleEvents(old(Model()), reports)
    {
      produced := produced + RepliesIn(reports);
      ghost var start := Model();
      assert reports[0..] == reports;
      for i := 0 to |reports|
        invariant TakeEvents(start, reports) == TakeEvents(Model(), reports[i..])
      {
        assert reports[i..][0] == reports[i] && reports[i..][1..] == reports[i + 1..];
        match reports[i] {
          case SubmitEvent(token, request) => PushEvent(SubmitArrived(token, request));
          case CancelEvent(token, seqnum) => PushEvent(CancelArrived(token, seqnum));
          case ReplyEvent(pdu) =>
            if nextInternal == U64_MAX {
              return Err(LimitExceeded);
            }
            pending := pending + [Message(nextInternal, pdu)];
            nextInternal := nextInternal + 1;
        }
      }
      r := DrainPending();
    }

    method HandleMessage(m: Message) returns (r: Result<()>)
      modifies this, broker, executor
      ensures (Model(), r) == HandlePdu(old(Model()), m)
    {
      hide Usbip.DecodeRequest, Usbip.DecodeReply, E.AcceptPdu, HandleEvents;
      if Usbip.IsControl(m.body) {
        if role.Exporter? {
          var request := Usbip.DecodeRequest(m.body);
          if request.Err? {
            return Err(request.error);
          }
        } else {
          var reply := Usbip.DecodeReply(m.body);
          if reply.Err? {
            return Err(reply.error);
          }
        }
        PushEvent(OpaqueArrived(m));
        return Ok(());
      }
      ghost var start := Model();
      var reports := executor.AcceptWire(m.body);
      assert Model() == start.(table := E.AcceptPdu(start.table, m.body).0);
      if reports.Err? {
        return Err(reports.error);
      }
      r := HandleReports(reports.value);
    }

    method Finish(token: u64, completion: E.Completion) returns (r: Result<()>)
      requires Valid()
      modifies this, broker, executor
      ensures (Model(), r) == CompleteTransfer(old(Model()), token, completion) && Valid()
    {
      hide E.Complete, HandleEvents, Sound;
      ghost var start := Model();
      TransferCallsSound(start, token, completion, 0);
      if phase != Running {
        return Err(InvalidState);
      }
      var reports := executor.CompleteTransfer(token, completion);
      assert Model() == start.(table := E.Complete(start.table, token, completion).0);
      if reports.Err? {
        return Err(reports.error);
      }
      r := HandleReports(reports.value);
    }

    method FinishCancel(token: u64, status: i32) returns (r: Result<()>)
      requires Valid()
      modifies this, broker, executor
      ensures (Model(), r) == CompleteCancel(old(Model()), token, status) && Valid()
    {
      hide E.CompleteCancel, HandleEvents, Sound;
      ghost var start := Model();
      TransferCallsSound(start, token, E.CANCELLATION, status);
      if phase != Running {
        return Err(InvalidState);
      }
      var reports := executor.CancelTransfer(token, status);
      assert Model() == start.(table := E.CompleteCancel(start.table, token, status).0);
      if reports.Err? {
        return Err(reports.error);
      }
      r := HandleReports(reports.value);
    }

    // -------------------------------------------------------------- receiving

    method TakeCapability(payload: bytes) returns (r: Result<()>)
      modifies this`phase, this`events
      ensures (Model(), r) == ArriveCapability(old(Model()), payload)
    {
      hide DecodeCapability;
      var capability := DecodeCapability(payload);
      if capability.Err? {
        return Err(capability.error);
      }
      if capability.value.leaseToken != hello.leaseToken || capability.value.attachmentToken != hello.attachmentToken {
        return Err(TokenMismatch);
      }
      PushEvent(CapabilityArrived(capability.value));
      phase := AwaitOpen;
      return Ok(());
    }

    method TakeOpen(payload: bytes) returns (r: Result<()>)
      modifies this`phase, this`events
      ensures (Model(), r) == ArriveOpen(old(Model()), payload)
    {
      hide DecodeOpen;
      var open := DecodeOpen(payload);
      if open.Err? {
        return Err(open.error);
      }
      if open.value.leaseToken != hello.leaseToken || open.value.attachmentToken != hello.attachmentToken {
        return Err(TokenMismatch);
      }
      PushEvent(OpenArrived(open.value));
      phase := AwaitOpenReply;
      return Ok(());
    }

    method TakeReject(payload: bytes) returns (r: Result<()>)
      modifies this`phase, this`events
      ensures (Model(), r) == ArriveReject(old(Model()), payload)
    {
      if |payload| != 4 {
        return Err(Malformed);
      }
      phase := Closed;
      PushEvent(OpenRejected(GetU32Le(payload)));
      return Ok(());
    }

    method TakeClose(payload: bytes) returns (r: Result<()>)
      modifies this, broker, reassembler
      ensures (Model(), r) == ArriveClose(old(Model()), payload)
    {
      hide B.CloseBroker;
      if |payload| != 8 {
        return Err(Malformed);
      }
      if GetU64Le(payload) != hello.leaseToken {
        return Err(TokenMismatch);
      }
      ghost var start := Model();
      phase := Closed;
      r := broker.Close();
      assert Model() == start.(phase := Closed, broker := B.CloseBroker(start.broker).0);
      if r.Err? {
        return;
      }
      reassembler.Clear();
      PushEvent(ClosedEvent);
      return Ok(());
    }

    /** A whole message passes through the receive window while it is handled. */
    method TakeMessage(m: Message) returns (r: Result<()>)
      modifies this, broker, executor
      ensures (Model(), r) == Deliver(old(Model()), m)
    {
      hide HandlePdu, B.ReserveReceive, B.ConsumeReceive;
      ghost var start := Model();
      r := broker.TakeReceive(|m.body|);
      assert Model() == start.(broker := B.ReserveReceive(start.broker, |m.body|).0);
      if r.Err? {
        return;
      }
      received := received + [m];
      r := HandleMessage(m);
      ghost var handled := Model();
      var consumed := broker.ReturnReceive(|m.body|);
      assert Model() == handled.(broker := B.ConsumeReceive(handled.broker, |m.body|).0);
      if r.Ok? {
        r := consumed;
      }
    }

    method TakeData(payload: bytes, flags: u32) returns (r: Result<()>)
      modifies this, broker, executor, reassembler
      ensures (Model(), r) == ArriveData(old(Model()), payload, flags)
    {
      hide DecodeFragment, Push, Deliver;
      var fragment := DecodeFragment(payload, flags);
      if fragment.Err? {
        return Err(fragment.error);
      }
      if fragment.value.leaseToken != hello.leaseToken {
        return Err(TokenMismatch);
      }
      if fragment.value.totalLength > broker.maxPdu {
        return Err(LimitExceeded);
      }
      ghost var start := Model();
      var pushed := reassembler.PushFragment(fragment.value);
      assert Model() == start.(buffer := Push(start.buffer, fragment.value).0);
      if pushed.Err? {
        return Err(pushed.error);
      }
      if pushed.value.None? {
        return Ok(());
      }
      r := TakeMessage(pushed.value.value);
    }

    method Dispatch(h: FrameHeader, payload: bytes) returns (r: Result<()>)
      modifies this, broker, executor, reassembler
      ensures (Model(), r) == Arrive(old(Model()), h, payload)
    {
      hide ArriveCapability, ArriveOpen, ArriveReject, ArriveData, ArriveClose;
      if role.Importer? && phase.AwaitCapability? && h.messageType.CapabilityMsg? {
        r := TakeCapability(payload);
      } else if role.Exporter? && phase.AwaitOpen? && h.messageType.OpenMsg? {
        r := TakeOpen(payload);
      } else if role.Importer? && phase.AwaitOpenReply? && h.messageType.OpenOkMsg? {
        phase := Running;
        PushEvent(Opened);
        r := Ok(());
      } else if role.Importer? && phase.AwaitOpenReply? && h.messageType.OpenRejectMsg? {
        r := TakeReject(payload);
      } else if phase.Running? && h.messageType.UsbIpData? {
        r := TakeData(payload, h.flags);
      } else if h.messageType.CloseMsg? {
        r := TakeClose(payload);
      } else {
        r := Err(InvalidState);
      }
    }

    method TakeFrame(wire: bytes) returns (r: Result<()>)
      modifies this, broker, executor, reassembler
      ensures (Model(), r) == AcceptFrameInner(old(Model()), wire)
    {
      hide DecodeFrame, Arrive;
      if !Receiving(phase) || broker.state != B.Established {
        return Err(InvalidState);
      }
      var frame := DecodeFrame(wire);
      if frame.Err? {
        return Err(frame.error);
      }
      if frame.value.0.sessionToken != hello.sessionToken {
        return Err(TokenMismatch);
      }
      if frame.value.0.sequence != nextRx {
        return Err(SequenceError);
      }
      var next := NextSequence(nextRx);
      if next.Err? {
        return Err(next.error);
      }
      nextRx := next.value;
      r := Dispatch(frame.value.0, frame.value.1);
    }

    /** Any frame that is refused ends the session. */
    method ReceiveFrame(wire: bytes) returns (r: Result<()>)
      requires Valid()
      modifies this, broker, executor, reassembler
      ensures (Model(), r) == AcceptFrame(old(Model()), wire) && Valid()
    {
      hide AcceptFrameInner, Sound;
      AcceptFrameSound(Model(), wire);
      r := TakeFrame(wire);
      if r.Err? {
        phase := Failed;
        reassembler.Clear();
      }
    }

    // -------------------------------------------------------------- handshake

    method SayHello() returns (r: Result<()>)
      requires Valid()
      modifies this, broker
      ensures (Model(), r) == Start(old(Model())) && Valid()
    {
      hide B.EncodeHello, Sound;
      StartSound(Model());
      if phase != New {
        return Err(InvalidState);
      }
      r := broker.HelloWasSent();
      if r.Err? {
        return;
      }
      var wire := B.EncodeHello(hello);
      if wire.Err? {
        return Err(wire.error);
      }
      PushEvent(OutputHello(wire.value));
      phase := AwaitHello;
      return Ok(());
    }

    method HearHello(wire: bytes) returns (r: Result<()>)
      requires Valid()
      modifies this, broker
      ensures (Model(), r) == AcceptHello(old(Model()), wire) && Valid()
    {
      hide B.AcceptHello, Sound;
      AcceptHelloSound(Model(), wire);
      if phase != AwaitHello {
        return Err(InvalidState);
      }
      r := broker.Negotiate(wire);
      if r.Err? {
        return;
      }
      phase := AwaitCapability;
      return Ok(());
    }

    method OfferCapability(capability: Capability) returns (r: Result<()>)
      requires Valid()
      modifies this
      ensures (Model(), r) == SendCapability(old(Model()), capability) && Valid()
    {
      hide EncodeCapability, QueueFrame, Sound;
      SendCapabilitySound(Model(), capability);
      if !role.Exporter? || phase != AwaitCapability {
        return Err(InvalidState);
      }
      if capability.leaseToken != hello.leaseToken || capability.attachmentToken != hello.attachmentToken {
        return Err(TokenMismatch);
      }
      var payload := EncodeCapability(capability);
      if payload.Err? {
        return Err(payload.error);
      }
      r := QueueOutput(0, CapabilityMsg, 0, payload.value);
      if r.Err? {
        return;
      }
      phase := AwaitOpen;
      return Ok(());
    }

    method AskToOpen() returns (r: Result<()>)
      requires Valid()
      modifies this
      ensures (Model(), r) == SendOpen(old(Model())) && Valid()
    {
      hide EncodeOpen, QueueFrame, Sound;
      SendOpenSound(Model());
      if !role.Importer? || phase != AwaitOpen {
        return Err(InvalidState);
      }
      var payload := EncodeOpen(Open(hello.leaseToken, hello.attachmentToken));
      if payload.Err? {
        return Err(payload.error);
      }
      r := QueueOutput(0, OpenMsg, 0, payload.value);
      if r.Err? {
        return;
      }
      phase := AwaitOpenReply;
      return Ok(());
    }

    method AgreeToOpen() returns (r: Result<()>)
      requires Valid()
      modifies this
      ensures (Model(), r) == SendOpenOk(old(Model())) && Valid()
    {
      hide QueueFrame, Sound;
      SendOpenOkSound(Model());
      if !role.Exporter? || phase != AwaitOpenReply {
        return Err(InvalidState);
      }
      r := QueueOutput(0, OpenOkMsg, 0, []);
      if r.Err? {
        return;
      }
      phase := Running;
      PushEvent(Opened);
      return Ok(());
    }

    method RefuseToOpen(status: u32) returns (r: Result<()>)
      requires Valid()
      modifies this
      ensures (Model(), r) == SendOpenReject(old(Model()), status) && Valid()
    {
      hide QueueFrame, Sound;
      SendOpenRejectSound(Model(), status);
      if !role.Exporter? || phase != AwaitOpenReply || !(1 <= status <= 10) {
        return Err(InvalidState);
      }
      r := QueueOutput(0, OpenRejectMsg, 0, PutU32Le(status));
      if r.Err? {
        return;
      }
      phase := Closed;
      return Ok(());
    }

    // ---------------------------------------------------------------- closing

    method SayClose() returns (r: Result<()>)
      modifies this, broker, reassembler
      ensures (Model(), r) == FinishClose(old(Model()))
    {
      hide QueueFrame, B.CloseBroker;
      phase := Closing;
      r := QueueOutput(0, CloseMsg, 0, PutU64Le(hello.leaseToken));
      ghost var said := Model();
      if r.Err? {
        return;
      }
      r := broker.Close();
      assert Model() == said.(broker := B.CloseBroker(said.broker).0);
      if r.Err? {
        return;
      }
      reassembler.Clear();
      phase := Closed;
      PushEvent(ClosedEvent);
      return Ok(());
    }

    /** Closing answers everything pending, in whatever order its tokens are listed, then says CLOSE. */
    method Shutdown() returns (r: Result<()>, ghost order: seq<u64>)
      requires Valid()
      modifies this, broker, executor, reassembler
      ensures old(phase) == Running ==> E.Lists(order, old(executor.byToken).Keys)
      ensures (Model(), r) == Close(old(Model()), order) && Valid()
    {
      hide E.CloseAll, HandleEvents, FinishClose, Sound, E.Lists;
      ghost var start := Model();
      order := [];
      if phase.Closed? || phase.Failed? {
        return Ok(()), order;
      }
      if phase == Running {
        var reports;
        reports, order := executor.CloseTransfers();
        assert Model() == start.(table := E.CloseAll(start.table, order).0);
        CloseSound(start, order);
        r := HandleReports(reports);
        if r.Err? {
          return;
        }
      } else {
        CloseSound(start, order);
      }
      r := SayClose();
    }
  }

  /** Sending leaves the queue of waiting replies to its caller. */
  lemma SendKeepsQueue(s: Session, m: Message)
    ensures SendPdu(s, m).0.pending == s.pending
  {
    FragmentKeepsQueue(s.(broker := B.ReserveSend(s.broker, |m.body|).0), m);
    hide FragmentAndQueue, B.ReserveSend, B.AckSend;
  }

  lemma {:induction false} QueueFromKeepsQueue(s: Session, m: Message, offset: nat)
    requires offset <= |m.body| <= U32_MAX
    ensures QueueFrom(s, m, offset).0.pending == s.pending
    decreases |m.body| - offset
  {
    hide EncodeFragment, EncodeFrame, Piece;
    if offset < |m.body| {
      var f := Piece(s.hello.leaseToken, m, offset);
      if EncodeFragment(f).Ok? {
        var s' := QueueFrame(s, m.id, UsbIpData, FlagsOf(f), EncodeFragment(f).value).0;
        QueueFromKeepsQueue(s', m, Min(offset + CHUNK, |m.body|));
      }
    }
  }

  lemma FragmentKeepsQueue(s: Session, m: Message)
    ensures FragmentAndQueue(s, m).0.pending == s.pending
  {
    if |m.body| <= s.broker.maxPdu {
      QueueFromKeepsQueue(s, m, 0);
    }
    hide QueueFrom;
  }
}
