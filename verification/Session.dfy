/**
 One endpoint of a session, as a value: the handshake, the frames it sends and
 accepts, and the transfers it forwards, one step per call of its program.
 */
module Session {
  import opened Base
  import opened Endian
  import opened Wire
  import opened Reassembly
  import B = Broker
  import E = Execution
  import Pdu
  import Usbip

  datatype Role = Exporter | Importer

  datatype Phase =
    | New
    | AwaitHello
    | AwaitCapability
    | AwaitOpen
    | AwaitOpenReply
    | Running
    | Closing
    | Closed
    | Failed

  datatype Event =
    | OutputHello(hello: bytes)
    | OutputFrame(reservation: u64, frame: bytes)
    | CapabilityArrived(capability: Capability)
    | OpenArrived(open: Open)
    | Opened
    | OpenRejected(status: u32)
    | SubmitArrived(token: u64, request: Pdu.SubmitRequest)
    | CancelArrived(cancelToken: u64, unlinkSeqnum: u32)
    | OpaqueArrived(message: Message)
    | ClosedEvent

  datatype Config = Config(
    role: Role,
    hello: B.Hello,
    txWindowBytes: u64,
    txWindowPdus: u32,
    rxWindowBytes: u64,
    rxWindowPdus: u32,
    maxReassembly: nat,
    maxFragments: nat,
    maxTransfer: nat)

  /**
   The state of an endpoint. The last four fields are its history: every event
   ever queued, every reply its executor ever produced, every message it queued
   in full, and every message it reassembled and handed on.
   */
  datatype Session = Session(
    role: Role,
    phase: Phase,
    hello: B.Hello,
    broker: B.Broker,
    table: E.Table,
    buffer: Buffer,
    nextRx: u64,
    nextTx: u64,
    nextInternal: u64,
    reservations: map<u64, nat>,
    pending: seq<Message>,
    maxReassembly: nat,
    maxFragments: nat,
    log: seq<Event>,
    produced: seq<bytes>,
    sent: seq<Message>,
    received: seq<Message>)

  const FIRST_INTERNAL: u64 := 0x8000_0000_0000_0000

  function NewSession(c: Config): Result<Session> {
    if c.maxReassembly > c.hello.maxPdu
       || c.maxTransfer == 0
       || c.maxTransfer + Pdu.HEADER_SIZE > c.maxReassembly then Err(InvalidArgument)
    else if !LimitsOk(c.maxReassembly, c.maxFragments) then Err(InvalidArgument)
    else
      var table :- E.NewTable(c.hello.maxInflight, c.maxTransfer);
      var broker :- B.NewBroker(c.hello, c.txWindowBytes, c.txWindowPdus, c.rxWindowBytes, c.rxWindowPdus);
      Ok(Session(c.role, New, c.hello, broker, table, Empty(c.maxReassembly, c.maxFragments), 1, 1, FIRST_INTERNAL,
                 map[], [], c.maxReassembly, c.maxFragments, [], [], [], []))
  }

  // ------------------------------------------------------------------- frames

  function NextSequence(n: u64): Result<u64> {
    if n + 1 >= U64_MAX then Err(SequenceError) else Ok(n + 1)
  }

  function Log(s: Session, e: Event): Session {
    s.(log := s.log + [e])
  }

  function MakeFrame(s: Session, kind: MessageType, flags: u32, payload: bytes): (Session, Result<bytes>) {
    var next := NextSequence(s.nextTx);
    if next.Err? then (s, Err(next.error))
    else
      var s' := s.(nextTx := next.value);
      if |payload| > U32_MAX then (s', Err(LimitExceeded))
      else (s', EncodeFrame(FrameHeader(kind, flags, |payload|, s.hello.sessionToken, s.nextTx), payload))
  }

  function QueueFrame(s: Session, reservation: u64, kind: MessageType, flags: u32, payload: bytes): (Session,
      Result<()>) {
    var (s', frame) := MakeFrame(s, kind, flags, payload);
    if frame.Err? then (s', Err(frame.error)) else (Log(s', OutputFrame(reservation, frame.value)), Ok(()))
  }

  /** Cutting a message from an offset on: one frame per fragment, until one cannot be numbered. */
  function QueueFrom(s: Session, m: Message, offset: nat): (Session, Result<()>)
    requires offset <= |m.body| <= U32_MAX
    decreases |m.body| - offset
  {
    if offset == |m.body| then (s, Ok(()))
    else
      var f := Piece(s.hello.leaseToken, m, offset);
      var payload := EncodeFragment(f);
      if payload.Err? then (s, Err(payload.error))
      else
        var (s', r) := QueueFrame(s, m.id, UsbIpData, FlagsOf(f), payload.value);
        if r.Err? then (s', r) else QueueFrom(s', m, Min(offset + CHUNK, |m.body|))
  }

  function FragmentAndQueue(s: Session, m: Message): (Session, Result<()>) {
    if m.body == [] || |m.body| > s.broker.maxPdu || |m.body| > s.maxReassembly then (s, Err(LimitExceeded))
    else if DivCeil(|m.body|, CHUNK) > s.maxFragments then (s, Err(LimitExceeded))
    else QueueFrom(s, m, 0)
  }

  // ----------------------------------------------------------------- messages

  function SendPdu(s: Session, m: Message): (Session, Result<()>) {
    if s.phase != Running || m.id == 0 then (s, Err(InvalidState))
    else if m.id in s.reservations then (s, Err(Duplicate))
    else
      var (b, r) := B.ReserveSend(s.broker, |m.body|);
      if r.Err? then (s.(broker := b), r)
      else
        var (s', q) := FragmentAndQueue(s.(broker := b), m);
        if q.Err? then (s'.(broker := B.AckSend(s'.broker, |m.body|).0), q)
        else (s'.(reservations := s'.reservations[m.id := |m.body|], sent := s'.sent + [m]), Ok(()))
  }

  /** Replies go out in order until the window is full; a reply leaves the queue only once it is out. */
  function Drain(s: Session): (Session, Result<()>)
    decreases |s.pending|
  {
    if s.pending == [] then (s, Ok(()))
    else
      var (s', r) := SendPdu(s, s.pending[0]);
      if r.Ok? then Drain(s'.(pending := s.pending[1..]))
      else if r.error == WindowExhausted then (s', Ok(()))
      else (s', r)
  }

  function AckOutput(s: Session, id: u64): (Session, Result<()>) {
    if id == 0 then (s, Ok(()))
    else if id !in s.reservations then (s, Err(NotFound))
    else
      var (b, r) := B.AckSend(s.broker, s.reservations[id]);
      var s' := s.(reservations := s.reservations - {id}, broker := b);
      if r.Err? then (s', r) else Drain(s')
  }

  // ----------------------------------------------------------------- executor

  function RepliesIn(events: seq<E.ExecutorEvent>): seq<bytes> {
    if events == [] then []
    else (if events[0].ReplyEvent? then [events[0].pdu] else []) + RepliesIn(events[1..])
  }

  // One executor event: to the caller, or, if it is a reply, into the queue under the next internal id.
  function TakeEvent(s: Session, e: E.ExecutorEvent): (Session, Result<()>) {
    match e
    case SubmitEvent(token, request) => (Log(s, SubmitArrived(token, request)), Ok(()))
    case CancelEvent(token, seqnum) => (Log(s, CancelArrived(token, seqnum)), Ok(()))
    case ReplyEvent(pdu) =>
      if s.nextInternal == U64_MAX then (s, Err(LimitExceeded))
      else (s.(nextInternal := s.nextInternal + 1, pending := s.pending + [Message(s.nextInternal, pdu)]), Ok(()))
  }

  function TakeEvents(s: Session, events: seq<E.ExecutorEvent>): (Session, Result<()>)
    decreases |events|
  {
    if events == [] then (s, Ok(()))
    else
      var (s', r) := TakeEvent(s, events[0]);
      if r.Err? then (s', r) else TakeEvents(s', events[1..])
  }

  function HandleEvents(s: Session, events: seq<E.ExecutorEvent>): (Session, Result<()>) {
    var (s', r) := TakeEvents(s.(produced := s.produced + RepliesIn(events)), events);
    if r.Err? then (s', r) else Drain(s')
  }

  function Executed(s: Session, t: E.Table, r: Result<seq<E.ExecutorEvent>>): (Session, Result<()>) {
    if r.Err? then (s.(table := t), Err(r.error)) else HandleEvents(s.(table := t), r.value)
  }

  function HandlePdu(s: Session, m: Message): (Session, Result<()>) {
    if Usbip.IsControl(m.body) then
      if s.role.Exporter? && Usbip.DecodeRequest(m.body).Err? then (s, Err(Usbip.DecodeRequest(m.body).error))
      else if s.role.Importer? && Usbip.DecodeReply(m.body).Err? then (s, Err(Usbip.DecodeReply(m.body).error))
      else (Log(s, OpaqueArrived(m)), Ok(()))
    else
      var (t, r) := E.AcceptPdu(s.table, m.body);
      Executed(s, t, r)
  }

  // ---------------------------------------------------------------- arrivals

  predicate TokensMatch(s: Session, lease: u64, attachment: u64) {
    lease == s.hello.leaseToken && attachment == s.hello.attachmentToken
  }

  function ArriveCapability(s: Session, payload: bytes): (Session, Result<()>) {
    var c := DecodeCapability(payload);
    if c.Err? then (s, Err(c.error))
    else if !TokensMatch(s, c.value.leaseToken, c.value.attachmentToken) then (s, Err(TokenMismatch))
    else (Log(s, CapabilityArrived(c.value)).(phase := AwaitOpen), Ok(()))
  }

  function ArriveOpen(s: Session, payload: bytes): (Session, Result<()>) {
    var o := DecodeOpen(payload);
    if o.Err? then (s, Err(o.error))
    else if !TokensMatch(s, o.value.leaseToken, o.value.attachmentToken) then (s, Err(TokenMismatch))
    else (Log(s, OpenArrived(o.value)).(phase := AwaitOpenReply), Ok(()))
  }

  function ArriveReject(s: Session, payload: bytes): (Session, Result<()>) {
    if |payload| != 4 then (s, Err(Malformed))
    else (Log(s, OpenRejected(GetU32Le(payload))).(phase := Closed), Ok(()))
  }

  // A whole message: it passes through the receive window while it is handled.
  function Deliver(s: Session, m: Message): (Session, Result<()>) {
    var (b, r) := B.ReserveReceive(s.broker, |m.body|);
    if r.Err? then (s.(broker := b), r)
    else
      var (s', handled) := HandlePdu(s.(broker := b, received := s.received + [m]), m);
      var (b', consumed) := B.ConsumeReceive(s'.broker, |m.body|);
      (s'.(broker := b'), if handled.Err? then handled else consumed)
  }

  function ArriveData(s: Session, payload: bytes, flags: u32): (Session, Result<()>) {
    var f := DecodeFragment(payload, flags);
    if f.Err? then (s, Err(f.error))
    else if f.value.leaseToken != s.hello.leaseToken then (s, Err(TokenMismatch))
    else if f.value.totalLength > s.broker.maxPdu then (s, Err(LimitExceeded))
    else
      var (b, r) := Push(s.buffer, f.value);
      var s' := s.(buffer := b);
      if r.Err? then (s', Err(r.error))
      else if r.value.None? then (s', Ok(()))
      else Deliver(s', r.value.value)
  }

  function ArriveClose(s: Session, payload: bytes): (Session, Result<()>) {
    if |payload| != 8 then (s, Err(Malformed))
    else if GetU64Le(payload) != s.hello.leaseToken then (s, Err(TokenMismatch))
    else
      var (b, r) := B.CloseBroker(s.broker);
      var s' := s.(phase := Closed, broker := b);
      if r.Err? then (s', r)
      else (Log(s'.(buffer := Cleared(s'.buffer)), ClosedEvent), Ok(()))
  }

  predicate Receiving(p: Phase) {
    p.AwaitCapability? || p.AwaitOpen? || p.AwaitOpenReply? || p.Running?
  }

  // A well-numbered frame, by what this side expects in its phase.
  function Arrive(s: Session, h: FrameHeader, payload: bytes): (Session, Result<()>) {
    match h.messageType
    case CapabilityMsg =>
      if s.role.Importer? && s.phase.AwaitCapability? then ArriveCapability(s, payload) else (s, Err(InvalidState))
    case OpenMsg =>
      if s.role.Exporter? && s.phase.AwaitOpen? then ArriveOpen(s, payload) else (s, Err(InvalidState))
    case OpenOkMsg =>
      if s.role.Importer? && s.phase.AwaitOpenReply? then (Log(s.(phase := Running), Opened), Ok(()))
      else (s, Err(InvalidState))
    case OpenRejectMsg =>
      if s.role.Importer? && s.phase.AwaitOpenReply? then ArriveReject(s, payload) else (s, Err(InvalidState))
    case UsbIpData =>
      if s.phase.Running? then ArriveData(s, payload, h.flags) else (s, Err(InvalidState))
    case CloseMsg => ArriveClose(s, payload)
  }

  function AcceptFrameInner(s: Session, wire: bytes): (Session, Result<()>) {
    if !Receiving(s.phase) || s.broker.state != B.Established then (s, Err(InvalidState))
    else
      var d := DecodeFrame(wire);
      if d.Err? then (s, Err(d.error))
      else
        var (h, payload) := d.value;
        if h.sessionToken != s.hello.sessionToken then (s, Err(TokenMismatch))
        else if h.sequence != s.nextRx then (s, Err(SequenceError))
        else
          var next := NextSequence(s.nextRx);
          if next.Err? then (s, Err(next.error)) else Arrive(s.(nextRx := next.value), h, payload)
  }

  /** Any refusal of a frame ends the session. */
  function AcceptFrame(s: Session, wire: bytes): (Session, Result<()>) {
    var (s', r) := AcceptFrameInner(s, wire);
    if r.Err? then (s'.(phase := Failed, buffer := Cleared(s'.buffer)), r) else (s', r)
  }

  // ---------------------------------------------------------- calls by the host

  function Start(s: Session): (Session, Result<()>) {
    if s.phase != New then (s, Err(InvalidState))
    else
      var (b, r) := B.MarkHelloSent(s.broker);
      if r.Err? then (s.(broker := b), r)
      else
        var hello := B.EncodeHello(s.hello);
        if hello.Err? then (s.(broker := b), Err(hello.error))
        else (Log(s.(broker := b, phase := AwaitHello), OutputHello(hello.value)), Ok(()))
  }

  function AcceptHello(s: Session, wire: bytes): (Session, Result<()>) {
    if s.phase != AwaitHello then (s, Err(InvalidState))
    else
      var (b, r) := B.AcceptHello(s.broker, wire);
      if r.Err? then (s.(broker := b), r) else (s.(broker := b, phase := AwaitCapability), Ok(()))
  }

  function SendCapability(s: Session, c: Capability): (Session, Result<()>) {
    if !s.role.Exporter? || s.phase != AwaitCapability then (s, Err(InvalidState))
    else if !TokensMatch(s, c.leaseToken, c.attachmentToken) then (s, Err(TokenMismatch))
    else
      var payload := EncodeCapability(c);
      if payload.Err? then (s, Err(payload.error))
      else
        var (s', r) := QueueFrame(s, 0, CapabilityMsg, 0, payload.value);
        if r.Err? then (s', r) else (s'.(phase := AwaitOpen), Ok(()))
  }

  function SendOpen(s: Session): (Session, Result<()>) {
    if !s.role.Importer? || s.phase != AwaitOpen then (s, Err(InvalidState))
    else
      var payload := EncodeOpen(Open(s.hello.leaseToken, s.hello.attachmentToken));
      if payload.Err? then (s, Err(payload.error))
      else
        var (s', r) := QueueFrame(s, 0, OpenMsg, 0, payload.value);
        if r.Err? then (s', r) else (s'.(phase := AwaitOpenReply), Ok(()))
  }

  function SendOpenOk(s: Session): (Session, Result<()>) {
    if !s.role.Exporter? || s.phase != AwaitOpenReply then (s, Err(InvalidState))
    else
      var (s', r) := QueueFrame(s, 0, OpenOkMsg, 0, []);
      if r.Err? then (s', r) else (Log(s'.(phase := Running), Opened), Ok(()))
  }

  function SendOpenReject(s: Session, status: u32): (Session, Result<()>) {
    if !s.role.Exporter? || s.phase != AwaitOpenReply || !(1 <= status <= 10) then (s, Err(InvalidState))
    else
      var (s', r) := QueueFrame(s, 0, OpenRejectMsg, 0, PutU32Le(status));
      if r.Err? then (s', r) else (s'.(phase := Closed), Ok(()))
  }

  function CompleteTransfer(s: Session, token: u64, c: E.Completion): (Session, Result<()>) {
    if s.phase != Running then (s, Err(InvalidState))
    else
      var (t, r) := E.Complete(s.table, token, c);
      Executed(s, t, r)
  }

  function CompleteCancel(s: Session, token: u64, status: i32): (Session, Result<()>) {
    if s.phase != Running then (s, Err(InvalidState))
    else
      var (t, r) := E.CompleteCancel(s.table, token, status);
      Executed(s, t, r)
  }

  // Saying CLOSE, and with that being closed.
  function FinishClose(s: Session): (Session, Result<()>) {
    var (s', r) := QueueFrame(s.(phase := Closing), 0, CloseMsg, 0, PutU64Le(s.hello.leaseToken));
    if r.Err? then (s', r)
    else
      var (b, closed) := B.CloseBroker(s'.broker);
      if closed.Err? then (s'.(broker := b), closed)
      else (Log(s'.(broker := b, buffer := Cleared(s'.buffer), phase := Closed), ClosedEvent), Ok(()))
  }

  /** Closing answers everything pending first, in the order the table lists it, then says CLOSE. */
  function Close(s: Session, order: seq<u64>): (Session, Result<()>) {
    if s.phase.Closed? || s.phase.Failed? then (s, Ok(()))
    else if s.phase.Running? then
      var (t, events) := E.CloseAll(s.table, order);
      var (s', r) := HandleEvents(s.(table := t), events);
      if r.Err? then (s', r) else FinishClose(s')
    else FinishClose(s)
  }
}
