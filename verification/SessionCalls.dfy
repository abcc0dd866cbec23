/** The calls a program makes on a session, and the state every one of them keeps sound. */
module SessionCalls {
  import opened Base
  import opened Endian
  import opened Wire
  import opened Reassembly
  import opened Session
  import opened Frames
  import opened Streams
  import opened Sending
  import opened Traffic
  import B = Broker
  import E = Execution
  import R = ExecutionRuns
  import Usbip

  datatype Call =
    | CallStart
    | CallAcceptHello(hello: bytes)
    | CallSendCapability(capability: Capability)
    | CallSendOpen
    | CallSendOpenOk
    | CallSendOpenReject(status: u32)
    | CallSendPdu(message: Message)
    | CallAckOutput(reservation: u64)
    | CallAcceptFrame(frame: bytes)
    | CallComplete(token: u64, completion: E.Completion)
    | CallCancel(cancelToken: u64, cancelStatus: i32)
    | CallClose(order: seq<u64>)

  function Step(s: Session, c: Call): (Session, Result<()>) {
    match c
    case CallStart => Start(s)
    case CallAcceptHello(wire) => AcceptHello(s, wire)
    case CallSendCapability(capability) => SendCapability(s, capability)
    case CallSendOpen => SendOpen(s)
    case CallSendOpenOk => SendOpenOk(s)
    case CallSendOpenReject(status) => SendOpenReject(s, status)
    case CallSendPdu(m) => SendPdu(s, m)
    case CallAckOutput(id) => AckOutput(s, id)
    case CallAcceptFrame(wire) => AcceptFrame(s, wire)
    case CallComplete(token, completion) => CompleteTransfer(s, token, completion)
    case CallCancel(token, status) => CompleteCancel(s, token, status)
    case CallClose(order) => Close(s, order)
  }

  // The calls that lead up to a running session.
  predicate SetsUp(c: Call) {
    || c.CallStart? || c.CallAcceptHello? || c.CallSendCapability?
    || c.CallSendOpen? || c.CallSendOpenOk? || c.CallSendOpenReject?
  }

  // The one constraint: closing goes through exactly the transfers that are pending.
  ghost predicate Legal(s: Session, c: Call) {
    c.CallClose? && s.phase.Running? ==> E.Lists(c.order, s.table.byToken.Keys)
  }

  function Rank(p: Phase): nat {
    match p
    case New => 0
    case AwaitHello => 1
    case AwaitCapability => 2
    case AwaitOpen => 3
    case AwaitOpenReply => 4
    case Running => 5
    case Closing => 6
    case Closed => 7
    case Failed => 8
  }

  /** Frames are received only over an established broker session, and none is numbered before. */
  predicate Placed(s: Session) {
    && (Receiving(s.phase) ==> s.broker.state == B.Established)
    && (Rank(s.phase) <= Rank(AwaitHello) ==> s.broker.state != B.Established && s.nextRx == 1 && s.nextTx == 1)
  }

  /** Nothing is on its way, in either direction, before the session runs. */
  predicate Early(s: Session) {
    Rank(s.phase) < Rank(Running) ==>
      && s.pending == [] && s.reservations == map[] && s.broker.tx == B.NOTHING
      && s.produced == [] && s.sent == [] && s.received == []
      && Idle(s.buffer) && s.table.bySeqnum == map[]
  }

  /** The receive window is empty: a message passes through it within one call. */
  predicate Calm(s: Session) {
    s.broker.rx == B.NOTHING
  }

  lemma CalmIsRx(s: Session, s': Session)
    requires s'.broker.rx == s.broker.rx
    ensures Calm(s) == Calm(s')
  {
  }

  ghost predicate Sound(s: Session) {
    Core(s) && E.Indexed(s.table) && Bounded(s.buffer) && Placed(s) && Early(s)
  }

  // -------------------------------------------------------------- the traffic

  lemma TrafficSound(s: Session, s': Session)
    requires Sound(s) && Rank(s.phase) >= Rank(Running)
    requires OnlySent(s, s') && Core(s')
    ensures Sound(s') && (Calm(s) ==> Calm(s'))
  {
    hide Core, E.Indexed, LogGrows;
  }

  lemma TableSound(s: Session, t: E.Table)
    requires Sound(s) && s.phase == Running
    requires E.Indexed(t) && t.maxTransfer == s.table.maxTransfer
    ensures Sound(s.(table := t))
  {
    hide FramesIn, GapFree, InStep, E.Indexed, Total;
  }

  lemma SoundCore(s: Session)
    requires Sound(s)
    ensures Core(s) && E.Indexed(s.table) && Bounded(s.buffer) && Configured(s)
  {
  }

  lemma {:induction false} ExecutedSound(s: Session, t: E.Table, r: Result<seq<E.ExecutorEvent>>)
    requires Sound(s) && s.phase == Running
    requires E.Indexed(t) && t.maxTransfer == s.table.maxTransfer
    ensures Sound(Executed(s, t, r).0) && OnlySent(s.(table := t), Executed(s, t, r).0)
  {
    TableSound(s, t);
    SoundCore(s.(table := t));
    SameLog(s.log);
    hide Sound, Core, LogGrows, HandleEvents;
    if r.Ok? {
      HandleCore(s.(table := t), r.value);
      TrafficSound(s.(table := t), HandleEvents(s.(table := t), r.value).0);
    }
  }

  // Every action of the executor keeps its table sound.
  lemma ExecutorKeeps(t: E.Table, op: R.Op)
    requires E.Indexed(t) && R.Legal(t, op)
    ensures E.Indexed(R.Step(t, op).0) && R.Step(t, op).0.maxTransfer == t.maxTransfer
  {
    hide E.Indexed, R.Step, R.UnlinksBalanced, R.Keep, R.Legal;
    R.StepBalanced(t, op);
  }

  lemma AcceptKeeps(t: E.Table, wire: bytes)
    requires E.Indexed(t)
    ensures E.Indexed(E.AcceptPdu(t, wire).0) && E.AcceptPdu(t, wire).0.maxTransfer == t.maxTransfer
  {
    hide E.Indexed, E.AcceptPdu;
    ExecutorKeeps(t, R.Accept(wire));
  }

  lemma LogTraffic(s: Session, e: Event)
    requires Carried(e) && !e.OutputFrame?
    ensures OnlySent(s, Log(s, e)) && FramesIn(Log(s, e).log) == FramesIn(s.log)
  {
    FramesOne(s.log, e);
  }

  lemma {:induction false} HandlePduSound(s: Session, m: Message)
    requires Sound(s) && s.phase == Running
    ensures var s' := HandlePdu(s, m).0; Sound(s') && OnlySent(s.(table := s'.table), s')
  {
    hide Core, LogGrows, Usbip.DecodeRequest, Usbip.DecodeReply, E.AcceptPdu, E.Indexed, Executed, FramesIn;
    if Usbip.IsControl(m.body) {
      LogTraffic(s, OpaqueArrived(m));
      CoreOutside(s, Log(s, OpaqueArrived(m)));
      SameLog(s.log);
      TrafficSound(s, Log(s, OpaqueArrived(m)));
    } else {
      var (t, r) := E.AcceptPdu(s.table, m.body);
      AcceptKeeps(s.table, m.body);
      ExecutedSound(s, t, r);
    }
  }

  // -------------------------------------------------------------- receiving

  // What a message changes on its way in: the receive window and the record of what arrived.
  lemma ArrivingSound(s: Session, b: B.Broker, received: seq<Message>)
    requires Sound(s) && s.phase == Running && b == s.broker.(rx := b.rx)
    ensures Sound(s.(broker := b, received := received))
  {
    hide FramesIn, GapFree, InStep, E.Indexed, Total;
  }

  // A message that got into the empty receive window gets out, and leaves it empty.
  lemma Through(before: B.Broker, n: nat, after: B.Broker)
    requires before.rx == B.NOTHING && B.ReserveReceive(before, n).1.Ok?
    requires after.state == B.Established && after.rx == B.ReserveReceive(before, n).0.rx
    ensures B.ConsumeReceive(after, n) == (after.(rx := B.NOTHING), Ok(()))
  {
  }

  lemma Reserving(b: B.Broker, n: nat)
    ensures B.ReserveReceive(b, n).0 == b.(rx := B.ReserveReceive(b, n).0.rx)
    ensures B.ReserveReceive(b, n).1.Err? ==> B.ReserveReceive(b, n).0 == b
  {
  }

  // The session a message is handled in, once it is in the receive window.
  function Admitting(s: Session, m: Message): Session {
    s.(broker := B.ReserveReceive(s.broker, |m.body|).0, received := s.received + [m])
  }

  lemma AdmittingSound(s: Session, m: Message)
    requires Sound(s) && Calm(s) && s.phase == Running
    ensures Sound(Admitting(s, m)) && s.broker.state == B.Established
    ensures B.ReserveReceive(s.broker, |m.body|).1.Err? ==> s.(broker := B.ReserveReceive(s.broker, |m.body|).0) == s
  {
    Reserving(s.broker, |m.body|);
    ArrivingSound(s, B.ReserveReceive(s.broker, |m.body|).0, s.received + [m]);
    hide Core, B.ReserveReceive, E.Indexed;
  }

  // Handling a message leaves the receive window, the broker's state and the phase alone.
  lemma {:induction false} HandlingKeeps(s: Session, m: Message)
    requires Sound(s) && s.phase == Running
    ensures var s' := HandlePdu(s, m).0;
      && Sound(s') && s'.phase == Running && s'.buffer == s.buffer
      && s'.broker.rx == s.broker.rx && s'.broker.state == s.broker.state
  {
    HandlePduSound(s, m);
    hide LogGrows, HandlePdu, Sound;
  }

  lemma {:induction false} DeliverEffect(s: Session, m: Message)
    requires Sound(s) && Calm(s) && s.phase == Running
    ensures B.ReserveReceive(s.broker, |m.body|).1.Err? ==>
      Deliver(s, m) == (s, B.ReserveReceive(s.broker, |m.body|).1)
    ensures B.ReserveReceive(s.broker, |m.body|).1.Ok? ==>
      var (s', r) := HandlePdu(Admitting(s, m), m);
      Deliver(s, m) == (s'.(broker := s'.broker.(rx := B.NOTHING)), r)
  {
    hide Sound, HandlePdu, B.ReserveReceive, B.ConsumeReceive;
    AdmittingSound(s, m);
    Reserving(s.broker, |m.body|);
    if B.ReserveReceive(s.broker, |m.body|).1.Ok? {
      HandlingKeeps(Admitting(s, m), m);
      Through(s.broker, |m.body|, HandlePdu(Admitting(s, m), m).0.broker);
      var r := HandlePdu(Admitting(s, m), m).1;
      assert r.Ok? ==> r.value == ();
    }
  }

  /** A whole message passes through the receive window, which is empty again afterwards. */
  lemma {:induction false} DeliverSound(s: Session, m: Message)
    requires Sound(s) && Calm(s) && s.phase == Running
    ensures Sound(Deliver(s, m).0) && Calm(Deliver(s, m).0) && Deliver(s, m).0.phase == Running
  {
    hide Sound, HandlePdu, Deliver, B.ReserveReceive;
    DeliverEffect(s, m);
    AdmittingSound(s, m);
    if B.ReserveReceive(s.broker, |m.body|).1.Ok? {
      HandlingKeeps(Admitting(s, m), m);
      var s' := HandlePdu(Admitting(s, m), m).0;
      ArrivingSound(s', Deliver(s, m).0.broker, s'.received);
      assert s'.(broker := Deliver(s, m).0.broker, received := s'.received) == Deliver(s, m).0;
    }
  }

  lemma BufferSound(s: Session, b: Buffer)
    requires Sound(s) && s.phase == Running
    requires Bounded(b) && b.maxSize == s.buffer.maxSize && b.maxFragments == s.buffer.maxFragments
    ensures Sound(s.(buffer := b))
  {
    hide FramesIn, GapFree, InStep, E.Indexed, Total;
  }

  lemma {:induction false} PushSound(s: Session, f: Fragment)
    requires Sound(s) && s.phase == Running
    ensures Sound(s.(buffer := Push(s.buffer, f).0))
  {
    hide Push, Core;
    PushKeepsLimits(s.buffer, f);
    BufferSound(s, Push(s.buffer, f).0);
  }

  lemma {:induction false} ArriveDataSound(s: Session, payload: bytes, flags: u32)
    requires Sound(s) && Calm(s) && s.phase == Running
    ensures Sound(ArriveData(s, payload, flags).0) && Calm(ArriveData(s, payload, flags).0)
    ensures ArriveData(s, payload, flags).0.phase == Running
  {
    hide Sound, DecodeFragment, Push, Deliver;
    var f := DecodeFragment(payload, flags);
    if f.Ok? {
      PushSound(s, f.value);
      var (b, r) := Push(s.buffer, f.value);
      if r.Ok? && r.value.Some? {
        DeliverSound(s.(buffer := b), r.value.value);
      }
    }
  }

  // ------------------------------------------------------ control and phases

  /** A control frame goes out under the next number, or numbers have run out and nothing changes. */
  lemma {:induction false} ControlCore(s: Session, kind: MessageType, payload: bytes)
    requires Core(s) && kind != UsbIpData && |payload| <= MAX_PAYLOAD && Content(kind, 0, payload, s.hello)
    ensures var (s', r) := QueueFrame(s, 0, kind, 0, payload);
      && Core(s')
      && r == (if s.nextTx == LAST then Err(SequenceError) else Ok(()))
      && s' == (if s.nextTx == LAST then s
                else Log(s.(nextTx := s.nextTx + 1),
                         OutputFrame(0, FrameBytes(s.hello.sessionToken, s.nextTx, kind, 0, payload))))
      && (s.nextTx < LAST ==>
            DecodeFrame(FrameBytes(s.hello.sessionToken, s.nextTx, kind, 0, payload))
            == Ok((FrameHeader(kind, 0, |payload|, s.hello.sessionToken, s.nextTx), payload)))
  {
    assert Configured(s);
    ConfiguredFrames(s);
    if s.nextTx < LAST {
      ControlFaithful(s.hello, s.nextTx, kind, payload);
      QueueFrameEffect(s, 0, kind, 0, payload);
      ControlSent(s, FrameBytes(s.hello.sessionToken, s.nextTx, kind, 0, payload));
    } else {
      hide FrameBytes, Content, Core;
      assert Sendable(kind, 0, payload) by {
        ControlFaithful(s.hello, 1, kind, payload);
      }
      QueueFrameEffect(s, 0, kind, 0, payload);
    }
    hide Core, QueueFrame, FrameBytes, Content;
  }

  lemma ControlRead(frames: seq<bytes>, sent: seq<Message>, n: u64, frame: bytes)
    requires InStep(frames, sent, n) && n < LAST
    requires DecodeFrame(frame).Ok? && DecodeFrame(frame).value.0.messageType != UsbIpData
    ensures InStep(frames + [frame], sent, n + 1)
  {
    hide Collect, Absorb, DecodeFrame;
    CollectOne(frames, frame);
    AbsorbControl(Collect(frames), frame);
  }

  lemma ControlSent(s: Session, frame: bytes)
    requires Core(s) && s.nextTx < LAST && Faithful(frame, s.hello, s.nextTx)
    requires DecodeFrame(frame).Ok? && DecodeFrame(frame).value.0.messageType != UsbIpData
    ensures Core(Log(s.(nextTx := s.nextTx + 1), OutputFrame(0, frame)))
  {
    hide FramesIn, InStep, GapFree, Faithful, DecodeFrame, Conserved, Total, B.HelloOk;
    FramesOne(s.log, OutputFrame(0, frame));
    GapFreeNext(FramesIn(s.log), s.hello, s.nextTx, frame);
    ControlRead(FramesIn(s.log), s.sent, s.nextTx, frame);
    ConservedSame(s, Log(s.(nextTx := s.nextTx + 1), OutputFrame(0, frame)));
  }

  // What a call changes besides traffic: the phase, what is said to the caller, and the incoming side.
  lemma SideSound(s: Session, s': Session)
    requires Core(s) && E.Indexed(s.table) && Bounded(s.buffer)
    requires s' == s.(phase := s'.phase, log := s'.log, nextRx := s'.nextRx, buffer := s'.buffer)
    requires FramesIn(s'.log) == FramesIn(s.log) && (s'.nextRx == s.nextRx || 1 <= s'.nextRx <= LAST)
    requires s'.buffer == s.buffer || s'.buffer == Cleared(s.buffer)
    requires Placed(s') && Early(s')
    ensures Sound(s')
  {
    hide FramesIn, GapFree, InStep, E.Indexed, Total, Placed, Early;
  }

  lemma BrokerCore(s: Session, b: B.Broker)
    requires Core(s) && b == s.broker.(state := b.state, tx := b.tx, rx := b.rx)
    requires b.state != B.Established
    ensures Core(s.(broker := b))
  {
    hide FramesIn, GapFree, InStep;
  }

  lemma HelloSentCore(s: Session)
    requires Core(s) && B.MarkHelloSent(s.broker).1.Ok?
    ensures Core(s.(broker := B.MarkHelloSent(s.broker).0)) && B.EncodeHello(s.hello).Ok?
    ensures B.MarkHelloSent(s.broker).0 == s.broker.(state := B.HelloSent)
  {
    hide FramesIn, GapFree, InStep;
  }

  lemma {:induction false} StartSound(s: Session)
    requires Sound(s) && Calm(s)
    ensures Sound(Start(s).0) && Calm(Start(s).0)
  {
    SoundCore(s);
    if s.phase == New && B.MarkHelloSent(s.broker).1.Ok? {
      HelloSentCore(s);
      hide Core, FramesIn, E.Indexed, B.EncodeHello, B.MarkHelloSent;
      FramesOne(s.log, OutputHello(B.EncodeHello(s.hello).value));
      SideSound(s.(broker := s.broker.(state := B.HelloSent)), Start(s).0);
    } else {
      hide Sound, B.EncodeHello;
      assert Start(s).0 == s;
    }
  }

  lemma PeerHelloOk(wire: bytes)
    requires B.DecodeHello(wire).Ok?
    ensures B.HelloOk(B.DecodeHello(wire).value)
  {
  }

  // Agreement only lowers the limits.
  lemma NegotiatedCore(s: Session, wire: bytes)
    requires Core(s) && s.reservations == map[] && s.broker.tx == B.NOTHING && s.broker.state != B.Established
    ensures Core(s.(broker := B.AcceptHello(s.broker, wire).0))
    ensures B.AcceptHello(s.broker, wire).1.Ok? ==> B.AcceptHello(s.broker, wire).0.state == B.Established
    ensures B.AcceptHello(s.broker, wire).1.Err? ==> B.AcceptHello(s.broker, wire).0.state != B.Established
    ensures B.AcceptHello(s.broker, wire).0.rx == s.broker.rx && B.AcceptHello(s.broker, wire).0.tx == s.broker.tx
  {
    hide FramesIn, GapFree, InStep, AllZero, B.DecodeHello, B.SameIdentity;
    if B.DecodeHello(wire).Ok? {
      PeerHelloOk(wire);
    }
  }

  // Before the peer's HELLO nothing is out, and its answer moves the phase with the broker.
  lemma HelloPlaced(s: Session, b: B.Broker, p: Phase)
    requires Sound(s) && s.phase == AwaitHello && b.tx == s.broker.tx && (p == AwaitHello || p == AwaitCapability)
    requires b.state == B.Established <==> p == AwaitCapability
    ensures Placed(s.(broker := b, phase := p)) && Early(s.(broker := b, phase := p))
  {
    hide Core, E.Indexed;
  }

  lemma HelloSilent(s: Session)
    requires Sound(s) && s.phase == AwaitHello
    ensures s.reservations == map[] && s.broker.tx == B.NOTHING && s.broker.state != B.Established
    ensures Core(s) && E.Indexed(s.table) && Bounded(s.buffer)
  {
    hide Core, E.Indexed;
  }

  lemma {:induction false} AcceptHelloSound(s: Session, wire: bytes)
    requires Sound(s) && Calm(s)
    ensures Sound(AcceptHello(s, wire).0) && Calm(AcceptHello(s, wire).0)
  {
    hide Sound, Core, FramesIn, E.Indexed, Bounded, Placed, Early, B.AcceptHello;
    if s.phase == AwaitHello {
      HelloSilent(s);
      NegotiatedCore(s, wire);
      var s' := AcceptHello(s, wire).0;
      HelloPlaced(s, s'.broker, s'.phase);
      assert s.(broker := s'.broker, phase := s'.phase) == s';
      SideSound(s.(broker := s'.broker), s');
    }
  }

  // A control frame, and the phase it leads to.
  lemma {:induction false} ControlSound(s: Session, kind: MessageType, payload: bytes, p: Phase)
    requires Sound(s) && kind != UsbIpData && |payload| <= MAX_PAYLOAD && Content(kind, 0, payload, s.hello)
    requires Rank(AwaitHello) < Rank(s.phase) && (p == s.phase || Rank(s.phase) < Rank(p))
    requires Receiving(p) ==> Receiving(s.phase)
    ensures var (s', r) := QueueFrame(s, 0, kind, 0, payload);
      Sound(s'.(phase := p)) && (r.Err? ==> s' == s) && s'.broker == s.broker && s'.phase == s.phase
  {
    hide Core, FramesIn, E.Indexed, Content, FrameBytes, DecodeFrame, QueueFrame;
    ControlCore(s, kind, payload);
    var s' := QueueFrame(s, 0, kind, 0, payload).0;
    SideSound(s', s'.(phase := p));
  }

  lemma CapabilityContent(c: Capability, hello: B.Hello)
    requires c.leaseToken == hello.leaseToken && c.attachmentToken == hello.attachmentToken
    requires EncodeCapability(c).Ok?
    ensures |EncodeCapability(c).value| <= MAX_PAYLOAD && Content(CapabilityMsg, 0, EncodeCapability(c).value, hello)
  {
    CapabilityAlwaysFits(c);
    hide DecodeCapability, CapabilityLength;
    CapabilityRoundTrip(c);
  }

  lemma OpenContent(hello: B.Hello)
    requires hello.leaseToken != 0 && hello.attachmentToken != 0
    ensures var payload := EncodeOpen(Open(hello.leaseToken, hello.attachmentToken));
      payload.Ok? && |payload.value| <= MAX_PAYLOAD && Content(OpenMsg, 0, payload.value, hello)
  {
    hide EncodeOpen, DecodeOpen;
    OpenRoundTrip(Open(hello.leaseToken, hello.attachmentToken));
  }

  lemma RejectContent(status: u32, hello: B.Hello)
    requires 1 <= status <= 10
    ensures Content(OpenRejectMsg, 0, PutU32Le(status), hello)
  {
    U32Le(status);
  }

  lemma CloseContent(hello: B.Hello)
    ensures Content(CloseMsg, 0, PutU64Le(hello.leaseToken), hello)
  {
    U64Le(hello.leaseToken);
  }

  lemma SendCapabilitySound(s: Session, c: Capability)
    requires Sound(s) && Calm(s)
    ensures Sound(SendCapability(s, c).0) && Calm(SendCapability(s, c).0)
  {
    hide Sound, QueueFrame, EncodeCapability, Content;
    if s.phase == AwaitCapability && TokensMatch(s, c.leaseToken, c.attachmentToken) && EncodeCapability(c).Ok? {
      CapabilityContent(c, s.hello);
      ControlSound(s, CapabilityMsg, EncodeCapability(c).value, AwaitOpen);
    }
  }

  lemma SoundHello(s: Session)
    requires Sound(s)
    ensures B.HelloOk(s.hello)
  {
  }

  lemma SendOpenSound(s: Session)
    requires Sound(s) && Calm(s)
    ensures Sound(SendOpen(s).0) && Calm(SendOpen(s).0)
  {
    hide Sound, QueueFrame, EncodeOpen, Content;
    SoundHello(s);
    if s.phase == AwaitOpen {
      OpenContent(s.hello);
      ControlSound(s, OpenMsg, EncodeOpen(Open(s.hello.leaseToken, s.hello.attachmentToken)).value, AwaitOpenReply);
    }
  }

  // Telling the caller something that is no frame.
  lemma TellSound(s: Session, e: Event)
    requires Sound(s) && !e.OutputFrame?
    ensures Sound(Log(s, e))
  {
    FramesOne(s.log, e);
    hide Core, FramesIn, E.Indexed;
    SideSound(s, Log(s, e));
  }

  lemma SendOpenOkSound(s: Session)
    requires Sound(s) && Calm(s)
    ensures Sound(SendOpenOk(s).0) && Calm(SendOpenOk(s).0)
  {
    hide Sound, QueueFrame;
    if s.role.Exporter? && s.phase == AwaitOpenReply {
      ControlSound(s, OpenOkMsg, [], Running);
      var (s', r) := QueueFrame(s, 0, OpenOkMsg, 0, []);
      if r.Ok? {
        TellSound(s'.(phase := Running), Opened);
      }
    }
  }

  lemma SendOpenRejectSound(s: Session, status: u32)
    requires Sound(s) && Calm(s)
    ensures Sound(SendOpenReject(s, status).0) && Calm(SendOpenReject(s, status).0)
  {
    hide Sound, QueueFrame, Content;
    if s.phase == AwaitOpenReply && 1 <= status <= 10 {
      RejectContent(status, s.hello);
      ControlSound(s, OpenRejectMsg, PutU32Le(status), Closed);
    }
  }

  // Moving to an ending phase, perhaps dropping a message under way.
  lemma EndingSound(s: Session, p: Phase, b: Buffer)
    requires Sound(s) && Rank(p) > Rank(Running) && (b == s.buffer || b == Cleared(s.buffer))
    ensures Sound(s.(phase := p, buffer := b))
  {
    hide Core, FramesIn, E.Indexed;
    SideSound(s, s.(phase := p, buffer := b));
  }

  lemma BrokerClosedSound(s: Session)
    requires Sound(s) && Calm(s) && Rank(s.phase) > Rank(Running)
    ensures var s' := s.(broker := B.CloseBroker(s.broker).0); Sound(s') && Calm(s')
  {
    var b := B.CloseBroker(s.broker).0;
    hide Core, E.Indexed;
    if b != s.broker {
      BrokerCore(s, b);
    } else {
      assert s.(broker := b) == s;
    }
  }

  lemma {:induction false} FinishCloseSound(s: Session)
    requires Sound(s) && Calm(s)
    ensures Sound(FinishClose(s).0) && Calm(FinishClose(s).0)
  {
    hide Sound, QueueFrame, Content, B.CloseBroker;
    var c := s.(phase := Closing);
    EndingSound(s, Closing, s.buffer);
    CloseContent(c.hello);
    ControlSound(c, CloseMsg, PutU64Le(c.hello.leaseToken), Closing);
    var (s', r) := QueueFrame(c, 0, CloseMsg, 0, PutU64Le(c.hello.leaseToken));
    if r.Ok? {
      assert s'.(phase := Closing) == s';
      BrokerClosedSound(s');
      var b := s'.(broker := B.CloseBroker(s'.broker).0);
      EndingSound(b, Closed, Cleared(b.buffer));
      TellSound(b.(phase := Closed, buffer := Cleared(b.buffer)), ClosedEvent);
    }
  }

  lemma CloseAllKeeps(t: E.Table, order: seq<u64>)
    requires E.Indexed(t) && E.Lists(order, t.byToken.Keys)
    ensures E.Indexed(E.CloseAll(t, order).0) && E.CloseAll(t, order).0.maxTransfer == t.maxTransfer
  {
    hide E.Indexed, E.CloseAll, E.Lists;
    ExecutorKeeps(t, R.Shut(order));
  }

  lemma {:induction false} CloseSound(s: Session, order: seq<u64>)
    requires Sound(s) && Calm(s) && (s.phase.Running? ==> E.Lists(order, s.table.byToken.Keys))
    ensures Sound(Close(s, order).0) && Calm(Close(s, order).0)
  {
    hide Sound, Core, E.CloseAll, E.Lists, FinishClose, HandleEvents, E.Indexed, LogGrows;
    SoundCore(s);
    if s.phase == Running {
      var (t, events) := E.CloseAll(s.table, order);
      CloseAllKeeps(s.table, order);
      ExecutedSound(s, t, Ok(events));
      var (s', r) := HandleEvents(s.(table := t), events);
      assert Executed(s, t, Ok(events)).0 == s';
      if r.Ok? {
        FinishCloseSound(s');
      }
    } else if !(s.phase.Closed? || s.phase.Failed?) {
      FinishCloseSound(s);
    }
  }

  // An action of the executor, handled.
  lemma {:induction false} ActionSound(s: Session, op: R.Op)
    requires Sound(s) && Calm(s) && s.phase == Running && R.Legal(s.table, op)
    ensures var (t, r) := R.Step(s.table, op); Sound(Executed(s, t, r).0) && Calm(Executed(s, t, r).0)
  {
    hide Sound, Core, R.Step, R.Legal, Executed, E.Indexed, LogGrows;
    SoundCore(s);
    ExecutorKeeps(s.table, op);
    ExecutedSound(s, R.Step(s.table, op).0, R.Step(s.table, op).1);
  }

  lemma {:induction false} TransferCallsSound(s: Session, token: u64, c: E.Completion, status: i32)
    requires Sound(s) && Calm(s)
    ensures Sound(CompleteTransfer(s, token, c).0) && Calm(CompleteTransfer(s, token, c).0)
    ensures Sound(CompleteCancel(s, token, status).0) && Calm(CompleteCancel(s, token, status).0)
  {
    hide Sound, Calm, E.Complete, E.CompleteCancel, Executed;
    if s.phase == Running {
      ActionSound(s, R.Finish(token, c));
      ActionSound(s, R.Cancel(token, status));
    }
  }

  lemma {:induction false} SendPduSound(s: Session, m: Message)
    requires Sound(s) && Calm(s)
    ensures Sound(SendPdu(s, m).0) && Calm(SendPdu(s, m).0)
  {
    SoundCore(s);
    if s.phase == Running {
      SendCore(s, m);
      hide Sound, Core, SendPdu, LogGrows, E.Indexed;
      TrafficSound(s, SendPdu(s, m).0);
    }
  }

  lemma {:induction false} AckOutputSound(s: Session, id: u64)
    requires Sound(s) && Calm(s)
    ensures Sound(AckOutput(s, id).0) && Calm(AckOutput(s, id).0)
  {
    SoundCore(s);
    if Rank(s.phase) >= Rank(Running) {
      hide Sound, Core, AckOutput, LogGrows, E.Indexed;
      AckCore(s, id);
      TrafficSound(s, AckOutput(s, id).0);
    }
  }

  // -------------------------------------------------------------- any frame

  lemma PhaseOnlySound(s: Session, p: Phase)
    requires Sound(s) && Rank(AwaitHello) < Rank(s.phase) <= Rank(p) && (Receiving(p) ==> Receiving(s.phase))
    ensures Sound(s.(phase := p))
  {
    hide Core, FramesIn, E.Indexed;
    SideSound(s, s.(phase := p));
  }

  lemma {:induction false} ArriveControlSound(s: Session, h: FrameHeader, payload: bytes)
    requires Sound(s) && Calm(s) && Receiving(s.phase) && h.messageType != UsbIpData && h.messageType != CloseMsg
    ensures Sound(Arrive(s, h, payload).0) && Calm(Arrive(s, h, payload).0)
  {
    hide Sound, DecodeCapability, DecodeOpen;
    var s' := Arrive(s, h, payload).0;
    if s' != s {
      var e := s'.log[|s.log|];
      TellSound(s, e);
      PhaseOnlySound(Log(s, e), s'.phase);
    }
  }

  lemma {:induction false} ArriveCloseSound(s: Session, payload: bytes)
    requires Sound(s) && Calm(s) && Receiving(s.phase)
    ensures Sound(ArriveClose(s, payload).0) && Calm(ArriveClose(s, payload).0)
  {
    hide Sound, B.CloseBroker;
    if |payload| == 8 && GetU64Le(payload) == s.hello.leaseToken {
      PhaseOnlySound(s, Closed);
      BrokerClosedSound(s.(phase := Closed));
      var c := s.(phase := Closed, broker := B.CloseBroker(s.broker).0);
      EndingSound(c, Closed, Cleared(c.buffer));
      TellSound(c.(buffer := Cleared(c.buffer)), ClosedEvent);
    }
  }

  lemma {:induction false} ArriveSound(s: Session, h: FrameHeader, payload: bytes)
    requires Sound(s) && Calm(s) && Receiving(s.phase)
    ensures Sound(Arrive(s, h, payload).0) && Calm(Arrive(s, h, payload).0)
  {
    hide Sound, ArriveData, ArriveClose, ArriveCapability, ArriveOpen, ArriveReject;
    if h.messageType == UsbIpData {
      if s.phase.Running? {
        ArriveDataSound(s, payload, h.flags);
      }
    } else if h.messageType == CloseMsg {
      ArriveCloseSound(s, payload);
    } else {
      ArriveControlSound(s, h, payload);
    }
  }

  // A frame accepted for its number: the next one is expected.
  lemma NumberedSound(s: Session)
    requires Sound(s) && Receiving(s.phase) && NextSequence(s.nextRx).Ok?
    ensures Sound(s.(nextRx := s.nextRx + 1))
  {
    hide Core, FramesIn, E.Indexed;
    SideSound(s, s.(nextRx := s.nextRx + 1));
  }

  lemma {:induction false} AcceptFrameSound(s: Session, wire: bytes)
    requires Sound(s) && Calm(s)
    ensures Sound(AcceptFrame(s, wire).0) && Calm(AcceptFrame(s, wire).0)
  {
    hide Sound, DecodeFrame, Arrive;
    var d := DecodeFrame(wire);
    if Receiving(s.phase) && d.Ok? && NextSequence(s.nextRx).Ok? {
      NumberedSound(s);
      ArriveSound(s.(nextRx := s.nextRx + 1), d.value.0, d.value.1);
    }
    var s' := AcceptFrameInner(s, wire).0;
    assert Sound(s') && Calm(s');
    EndingSound(s', Failed, Cleared(s'.buffer));
  }

  /** Every call keeps a session sound, whatever it answers. */
  lemma {:induction false} CallSound(s: Session, c: Call)
    requires Sound(s) && Calm(s) && Legal(s, c)
    ensures Sound(Step(s, c).0) && Calm(Step(s, c).0)
  {
    hide Sound, Calm, Start, AcceptHello, SendCapability, SendOpen, SendOpenOk, SendOpenReject, SendPdu, AckOutput,
         AcceptFrame, CompleteTransfer, CompleteCancel, Close, E.Lists;
    match c
    case CallStart => StartSound(s);
    case CallAcceptHello(wire) => AcceptHelloSound(s, wire);
    case CallSendCapability(capability) => SendCapabilitySound(s, capability);
    case CallSendOpen => SendOpenSound(s);
    case CallSendOpenOk => SendOpenOkSound(s);
    case CallSendOpenReject(status) => SendOpenRejectSound(s, status);
    case CallSendPdu(m) => SendPduSound(s, m);
    case CallAckOutput(id) => AckOutputSound(s, id);
    case CallAcceptFrame(wire) => AcceptFrameSound(s, wire);
    case CallComplete(token, completion) => TransferCallsSound(s, token, completion, 0);
    case CallCancel(token, status) => TransferCallsSound(s, token, E.CANCELLATION, status);
    case CallClose(order) => CloseSound(s, order);
  }

  // ------------------------------------------------------------- whole runs

  function After(s: Session, calls: seq<Call>): Session {
    if calls == [] then s else Step(After(s, calls[..|calls| - 1]), calls[|calls| - 1]).0
  }

  ghost predicate LegalRun(s: Session, calls: seq<Call>) {
    calls == [] ||
    (LegalRun(s, calls[..|calls| - 1]) && Legal(After(s, calls[..|calls| - 1]), calls[|calls| - 1]))
  }

  // A session as it is made.
  ghost predicate Made(s: Session) {
    exists c: Config :: NewSession(c) == Ok(s)
  }

  lemma {:induction false} MadeSound(s: Session)
    requires Made(s)
    ensures Sound(s) && Calm(s)
  {
    assert Collect([]) == START;
    assert FramesIn([]) == [];
    assert Total(map[]) == 0;
    hide FramesIn, Collect, Total;
  }

  /** Every run of calls leaves a session sound. */
  lemma {:induction false} AlwaysSound(s: Session, calls: seq<Call>)
    requires Made(s) && LegalRun(s, calls)
    ensures Sound(After(s, calls)) && Calm(After(s, calls))
  {
    hide Sound, Calm, Step, Legal, Made;
    if calls == [] {
      MadeSound(s);
    } else {
      AlwaysSound(s, calls[..|calls| - 1]);
      CallSound(After(s, calls[..|calls| - 1]), calls[|calls| - 1]);
    }
  }
}
