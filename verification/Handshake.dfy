/** An exporter and an importer: the handshake never crosses, no frame finds its receiver unprepared. */
module Handshake {
  import opened Base
  import opened Endian
  import opened Wire
  import opened Reassembly
  import opened Session
  import opened Frames
  import opened Streams
  import opened Traffic
  import opened SessionCalls
  import opened SessionRuns
  import opened SessionLaws
  import opened Outcomes
  import opened Closing
  import opened Peers
  import opened TwoParty
  import B = Broker
  import E = Execution
  import R = ExecutionRuns

  function KindOf(frame: bytes): MessageType {
    if DecodeFrame(frame).Ok? then DecodeFrame(frame).value.0.messageType else CloseMsg
  }

  /** The script of each role: what its first frames may be; CLOSE may come at any time. */
  predicate InScript(role: Role, i: nat, kind: MessageType) {
    || kind == CloseMsg
    || match role
       case Exporter =>
         if i == 0 then kind == CapabilityMsg
         else if i == 1 then kind == OpenOkMsg || kind == OpenRejectMsg
         else kind == UsbIpData
       case Importer => if i == 0 then kind == OpenMsg else kind == UsbIpData
  }

  /** How many frames a session has accepted by the time it may send its i-th frame, unless that is CLOSE. */
  function Heard(role: Role, i: nat): nat {
    match role
    case Exporter => if i == 0 then 0 else 1
    case Importer => if i == 0 then 1 else 2
  }

  // How many frames a session has sent in a phase of the handshake.
  predicate SentSoFar(role: Role, p: Phase, n: nat) {
    match role
    case Exporter =>
      && (Rank(p) <= Rank(AwaitCapability) ==> n == 0)
      && (p.AwaitOpen? || p.AwaitOpenReply? ==> n == 1)
      && (p.Running? ==> n >= 2)
    case Importer =>
      && (Rank(p) <= Rank(AwaitOpen) ==> n == 0)
      && (p.AwaitOpenReply? ==> n == 1)
      && (p.Running? ==> n >= 1)
  }

  // Which frame a session expects next in a phase of the handshake, counting from 1.
  predicate HeardSoFar(role: Role, p: Phase, nextRx: nat) {
    match role
    case Exporter =>
      && (Rank(p) <= Rank(AwaitOpen) ==> nextRx == 1)
      && (p.AwaitOpenReply? ==> nextRx == 2)
      && (p.Running? ==> nextRx >= 2)
    case Importer =>
      && (Rank(p) <= Rank(AwaitCapability) ==> nextRx == 1)
      && (p.AwaitOpen? || p.AwaitOpenReply? ==> nextRx == 2)
      && (p.Running? ==> nextRx >= 3)
  }

  /** Every frame sent follows the script, and none before enough was heard. */
  ghost predicate Lines(role: Role, frames: seq<bytes>, nextRx: nat) {
    forall i :: 0 <= i < |frames| ==>
      InScript(role, i, KindOf(frames[i])) && (KindOf(frames[i]) != CloseMsg ==> Heard(role, i) < nextRx)
  }

  ghost predicate OnScript(s: Session) {
    && Lines(s.role, FramesIn(s.log), s.nextRx)
    && SentSoFar(s.role, s.phase, |FramesIn(s.log)|)
    && HeardSoFar(s.role, s.phase, s.nextRx)
  }

  lemma LinesNext(role: Role, frames: seq<bytes>, nextRx: nat, frame: bytes)
    requires Lines(role, frames, nextRx) && InScript(role, |frames|, KindOf(frame))
    requires KindOf(frame) != CloseMsg ==> Heard(role, |frames|) < nextRx
    ensures Lines(role, frames + [frame], nextRx)
  {
    hide KindOf, InScript, Heard;
  }

  lemma {:induction false} CarriedFrames(events: seq<Event>)
    requires forall i :: 0 <= i < |events| ==> Carried(events[i])
    ensures forall i :: 0 <= i < |FramesIn(events)| ==> KindOf(FramesIn(events)[i]) == UsbIpData
  {
    if events != [] {
      CarriedFrames(events[..|events| - 1]);
      assert Carried(events[|events| - 1]);
      hide DecodeFrame;
    }
  }

  lemma {:induction false} LinesOfData(role: Role, frames: seq<bytes>, more: seq<bytes>, nextRx: nat)
    requires Lines(role, frames, nextRx) && |frames| >= (if role.Exporter? then 2 else 1) &&
        nextRx > (if role.Exporter? then 1 else 2)
    requires forall i :: 0 <= i < |more| ==> KindOf(more[i]) == UsbIpData
    ensures Lines(role, frames + more, nextRx)
  {
    hide KindOf;
  }

  // A history that grew by traffic grew by data frames.
  lemma {:induction false} DataFramesFollow(log: seq<Event>, log': seq<Event>)
    requires LogGrows(log, log')
    ensures FramesIn(log) <= FramesIn(log')
    ensures forall i :: |FramesIn(log)| <= i < |FramesIn(log')| ==> KindOf(FramesIn(log')[i]) == UsbIpData
  {
    hide FramesIn, KindOf, Carried;
    Extends(log, log');
    var more := log'[|log|..];
    FramesConcat(log, more);
    CarriedFrames(more);
  }

  /** Traffic is in everybody's script once the session runs. */
  lemma {:induction false} TrafficOnScript(s: Session, t: E.Table, s': Session)
    requires OnScript(s) && s.phase == Running && OnlySent(s.(table := t), s')
    ensures OnScript(s')
  {
    hide FramesIn, KindOf, Lines, LogGrows;
    DataFramesFollow(s.log, s'.log);
    Extends(FramesIn(s.log), FramesIn(s'.log));
    LinesOfData(s.role, FramesIn(s.log), FramesIn(s'.log)[|FramesIn(s.log)|..], s.nextRx);
  }

  // A control frame, queued in its place.
  lemma {:induction false} ControlOnScript(s: Session, kind: MessageType, payload: bytes)
    requires Core(s) && kind != UsbIpData && |payload| <= MAX_PAYLOAD && Content(kind, 0, payload, s.hello)
    requires Lines(s.role, FramesIn(s.log), s.nextRx)
    requires InScript(s.role, |FramesIn(s.log)|, kind)
    requires kind != CloseMsg ==> Heard(s.role, |FramesIn(s.log)|) < s.nextRx
    ensures var (s', r) := QueueFrame(s, 0, kind, 0, payload);
      && Lines(s.role, FramesIn(s'.log), s.nextRx)
      && s' == s.(nextTx := s'.nextTx, log := s'.log)
      && (r.Err? ==> s' == s)
      && (r.Ok? ==> |FramesIn(s'.log)| == |FramesIn(s.log)| + 1)
  {
    hide Core, QueueFrame, Content, DecodeFrame, FrameBytes, Lines, InScript, Heard, FramesIn;
    ControlCore(s, kind, payload);
    var s' := QueueFrame(s, 0, kind, 0, payload).0;
    if s.nextTx < LAST {
      var frame := FrameBytes(s.hello.sessionToken, s.nextTx, kind, 0, payload);
      FramesOne(s.log, OutputFrame(0, frame));
      LinesNext(s.role, FramesIn(s.log), s.nextRx, frame);
    }
  }

  lemma SendCapabilityOnScript(s: Session, c: Capability)
    requires Sound(s) && OnScript(s)
    ensures OnScript(SendCapability(s, c).0)
  {
    hide Sound, Core, QueueFrame, EncodeCapability, Content, FramesIn, Lines;
    SoundCore(s);
    if s.role.Exporter? && s.phase == AwaitCapability && TokensMatch(s, c.leaseToken, c.attachmentToken) &&
        EncodeCapability(c).Ok? {
      CapabilityContent(c, s.hello);
      ControlOnScript(s, CapabilityMsg, EncodeCapability(c).value);
      var (s', r) := QueueFrame(s, 0, CapabilityMsg, 0, EncodeCapability(c).value);
      assert SendCapability(s, c).0 == if r.Ok? then s'.(phase := AwaitOpen) else s';
    }
  }

  lemma SendOpenOnScript(s: Session)
    requires Sound(s) && OnScript(s)
    ensures OnScript(SendOpen(s).0)
  {
    hide Sound, Core, QueueFrame, EncodeOpen, Content, FramesIn, Lines;
    SoundCore(s);
    SoundHello(s);
    if s.role.Importer? && s.phase == AwaitOpen {
      OpenContent(s.hello);
      ControlOnScript(s, OpenMsg, EncodeOpen(Open(s.hello.leaseToken, s.hello.attachmentToken)).value);
      var (s', r) := QueueFrame(s, 0, OpenMsg, 0, EncodeOpen(Open(s.hello.leaseToken, s.hello.attachmentToken)).value);
      assert SendOpen(s).0 == if r.Ok? then s'.(phase := AwaitOpenReply) else s';
    }
  }

  lemma TellOnScript(s: Session, e: Event)
    requires OnScript(s) && !e.OutputFrame?
    ensures OnScript(Log(s, e))
  {
    hide FramesIn, Lines;
    FramesOne(s.log, e);
    assert FramesIn(s.log) + [] == FramesIn(s.log);
  }

  lemma SendOpenOkOnScript(s: Session)
    requires Sound(s) && OnScript(s)
    ensures OnScript(SendOpenOk(s).0)
  {
    hide Sound, Core, QueueFrame, FramesIn, Lines;
    SoundCore(s);
    if s.role.Exporter? && s.phase == AwaitOpenReply {
      ControlOnScript(s, OpenOkMsg, []);
      var (s', r) := QueueFrame(s, 0, OpenOkMsg, 0, []);
      if r.Ok? {
        TellOnScript(s'.(phase := Running), Opened);
      }
    }
  }

  lemma SendOpenRejectOnScript(s: Session, status: u32)
    requires Sound(s) && OnScript(s)
    ensures OnScript(SendOpenReject(s, status).0)
  {
    hide Sound, Core, QueueFrame, Content, FramesIn, Lines;
    SoundCore(s);
    if s.role.Exporter? && s.phase == AwaitOpenReply && 1 <= status <= 10 {
      RejectContent(status, s.hello);
      ControlOnScript(s, OpenRejectMsg, PutU32Le(status));
    }
  }

  lemma EndingOnScript(s: Session, s': Session)
    requires OnScript(s) && s'.role == s.role && s'.nextRx == s.nextRx && Rank(s'.phase) > Rank(Running)
    requires Lines(s.role, FramesIn(s'.log), s.nextRx)
    ensures OnScript(s')
  {
    hide FramesIn, Lines;
  }

  // CLOSE is in everybody's script at any time.
  lemma CloseFrameOnScript(s: Session)
    requires Core(s) && Lines(s.role, FramesIn(s.log), s.nextRx)
    ensures var (s', r) := QueueFrame(s, 0, CloseMsg, 0, PutU64Le(s.hello.leaseToken));
      && s' == s.(nextTx := s'.nextTx, log := s'.log)
      && Lines(s.role, FramesIn(s'.log), s.nextRx)
  {
    hide Core, QueueFrame, Content, FramesIn, Lines;
    CloseContent(s.hello);
    ControlOnScript(s, CloseMsg, PutU64Le(s.hello.leaseToken));
  }

  lemma NoFrame(log: seq<Event>, e: Event)
    requires !e.OutputFrame?
    ensures FramesIn(log + [e]) == FramesIn(log)
  {
    hide FramesIn;
    FramesOne(log, e);
    assert FramesIn(log) + [] == FramesIn(log);
  }

  lemma FinishCloseOnScript(s: Session)
    requires Sound(s) && OnScript(s)
    ensures OnScript(FinishClose(s).0)
  {
    hide Sound, QueueFrame, B.CloseBroker, Core, FramesIn, Lines, SentSoFar, HeardSoFar;
    var c := s.(phase := Closing);
    EndingSound(s, Closing, s.buffer);
    assert s.(phase := Closing, buffer := s.buffer) == c;
    SoundCore(c);
    CloseFrameOnScript(c);
    NoFrame(QueueFrame(c, 0, CloseMsg, 0, PutU64Le(c.hello.leaseToken)).0.log, ClosedEvent);
    EndingOnScript(s, FinishClose(s).0);
  }

  lemma HelloOnScript(s: Session, c: Call)
    requires OnScript(s) && (c.CallStart? || c.CallAcceptHello?)
    ensures OnScript(Step(s, c).0)
  {
    hide B.AcceptHello, B.EncodeHello, FramesIn, Lines;
    if c.CallStart? && B.EncodeHello(s.hello).Ok? {
      FramesOne(s.log, OutputHello(B.EncodeHello(s.hello).value));
    }
  }

  // ------------------------------------------------------------ other calls

  lemma LinesHeardMore(role: Role, frames: seq<bytes>, a: nat, b: nat)
    requires Lines(role, frames, a) && a <= b
    ensures Lines(role, frames, b)
  {
    hide KindOf, InScript, Heard;
  }

  lemma {:induction false} SendingOnScript(s: Session, m: Message, id: u64)
    requires Sound(s) && OnScript(s)
    ensures OnScript(SendPdu(s, m).0) && OnScript(AckOutput(s, id).0)
  {
    SoundCore(s);
    if s.phase == Running {
      hide Sound, Core, SendPdu, AckOutput, OnlySent, OnScript, E.Indexed;
      assert s.(table := s.table) == s;
      SendCore(s, m);
      TrafficOnScript(s, s.table, SendPdu(s, m).0);
      AckCore(s, id);
      TrafficOnScript(s, s.table, AckOutput(s, id).0);
    } else {
      IdleAck(s, id);
      hide Sound, Core, AckOutput, Lines, FramesIn, E.Indexed, B.AckSend;
    }
  }

  lemma {:induction false} ExecutedOnScript(s: Session, op: R.Op)
    requires Sound(s) && OnScript(s) && s.phase == Running && R.Legal(s.table, op)
    ensures var (t, r) := R.Step(s.table, op); OnScript(Executed(s, t, r).0)
  {
    hide Sound, R.Legal, R.Step, E.Indexed, Executed, OnlySent, OnScript;
    var (t, r) := R.Step(s.table, op);
    SoundCore(s);
    ExecutorKeeps(s.table, op);
    ExecutedSound(s, t, r);
    TrafficOnScript(s, t, Executed(s, t, r).0);
  }

  lemma {:induction false} TransferOnScript(s: Session, token: u64, c: E.Completion, status: i32)
    requires Sound(s) && OnScript(s)
    ensures OnScript(CompleteTransfer(s, token, c).0) && OnScript(CompleteCancel(s, token, status).0)
  {
    hide Sound, E.Complete, E.CompleteCancel, Executed, E.Lists, OnScript;
    if s.phase == Running {
      ExecutedOnScript(s, R.Finish(token, c));
      ExecutedOnScript(s, R.Cancel(token, status));
    }
  }

  lemma {:induction false} CloseOnScript(s: Session, order: seq<u64>)
    requires Sound(s) && Calm(s) && OnScript(s) && (s.phase.Running? ==> E.Lists(order, s.table.byToken.Keys))
    ensures OnScript(Close(s, order).0)
  {
    hide Sound, E.CloseAll, E.Lists, FinishClose, HandleEvents, OnScript;
    if s.phase.Running? {
      ExecutedOnScript(s, R.Shut(order));
      var (t, events) := E.CloseAll(s.table, order);
      var (s', r) := HandleEvents(s.(table := t), events);
      assert Executed(s, t, Ok(events)).0 == s';
      if r.Ok? {
        SoundCore(s);
        CloseAllKeeps(s.table, order);
        ExecutedSound(s, t, Ok(events));
        FinishCloseOnScript(s');
      }
    } else if !(s.phase.Closed? || s.phase.Failed?) {
      FinishCloseOnScript(s);
    }
  }

  lemma SideOnScript(s: Session, s': Session)
    requires OnScript(s) && s'.role == s.role && s'.phase == s.phase && s'.nextRx == s.nextRx && s'.log == s.log
    ensures OnScript(s')
  {
    hide Lines, FramesIn;
  }

  lemma {:induction false} DeliverOnScript(s: Session, m: Message)
    requires Sound(s) && Calm(s) && OnScript(s) && s.phase == Running
    ensures OnScript(Deliver(s, m).0)
  {
    hide Sound, HandlePdu, Deliver, B.ReserveReceive, OnlySent, OnScript;
    DeliverEffect(s, m);
    AdmittingSound(s, m);
    if B.ReserveReceive(s.broker, |m.body|).1.Ok? {
      SideOnScript(s, Admitting(s, m));
      HandlePduSound(Admitting(s, m), m);
      var s' := HandlePdu(Admitting(s, m), m).0;
      TrafficOnScript(Admitting(s, m), s'.table, s');
      SideOnScript(s', Deliver(s, m).0);
    }
  }

  lemma {:induction false} ArriveDataOnScript(s: Session, payload: bytes, flags: u32)
    requires Sound(s) && Calm(s) && OnScript(s) && s.phase == Running
    ensures OnScript(ArriveData(s, payload, flags).0)
  {
    hide Sound, OnScript, DecodeFragment, Push, Deliver;
    var f := DecodeFragment(payload, flags);
    if f.Ok? {
      PushSound(s, f.value);
      var (b, r) := Push(s.buffer, f.value);
      SideOnScript(s, s.(buffer := b));
      if r.Ok? && r.value.Some? {
        DeliverOnScript(s.(buffer := b), r.value.value);
      }
    }
  }

  // A frame accepted in its turn: the script goes on, or the session ends.
  ghost predicate PlaysOn(s: Session, r: Result<()>) {
    && Lines(s.role, FramesIn(s.log), s.nextRx)
    && (r.Ok? ==> OnScript(s))
  }

  // What a control frame does in its turn, as far as the script goes.
  predicate TurnTaken(s: Session, s': Session, r: Result<()>) {
    && s'.role == s.role && s'.nextRx == s.nextRx + 1
    && (s'.log == s.log || (|s'.log| == |s.log| + 1 && s'.log == s.log + [s'.log[|s.log|]] &&
        !s'.log[|s.log|].OutputFrame?))
    && (r.Ok? ==>
          || Rank(s'.phase) > Rank(Running)
          || (s.role.Importer? && s.phase.AwaitCapability? && s'.phase.AwaitOpen?)
          || (s.role.Importer? && s.phase.AwaitOpenReply? && s'.phase.Running?)
          || (s.role.Exporter? && s.phase.AwaitOpen? && s'.phase.AwaitOpenReply?))
  }

  lemma ControlTakesTurn(s: Session, h: FrameHeader, payload: bytes)
    requires Receiving(s.phase) && h.messageType != UsbIpData && s.nextRx < LAST
    ensures var n := s.(nextRx := s.nextRx + 1); TurnTaken(s, Arrive(n, h, payload).0, Arrive(n, h, payload).1)
  {
    hide DecodeCapability, DecodeOpen, B.CloseBroker;
  }

  lemma {:induction false} TurnOnScript(s: Session, s': Session, r: Result<()>)
    requires OnScript(s) && TurnTaken(s, s', r)
    ensures PlaysOn(s', r)
  {
    hide FramesIn, Lines;
    LinesHeardMore(s.role, FramesIn(s.log), s.nextRx, s.nextRx + 1);
    if s'.log != s.log {
      NoFrame(s.log, s'.log[|s.log|]);
    }
  }

  lemma {:induction false} ArriveControlOnScript(s: Session, h: FrameHeader, payload: bytes)
    requires OnScript(s) && Receiving(s.phase) && h.messageType != UsbIpData && s.nextRx < LAST
    ensures var n := s.(nextRx := s.nextRx + 1); PlaysOn(Arrive(n, h, payload).0, Arrive(n, h, payload).1)
  {
    hide OnScript, PlaysOn, Arrive, TurnTaken;
    var n := s.(nextRx := s.nextRx + 1);
    ControlTakesTurn(s, h, payload);
    TurnOnScript(s, Arrive(n, h, payload).0, Arrive(n, h, payload).1);
  }

  lemma RunningHeardMore(s: Session)
    requires OnScript(s) && s.phase == Running && s.nextRx < LAST
    ensures OnScript(s.(nextRx := s.nextRx + 1))
  {
    hide FramesIn, Lines;
    LinesHeardMore(s.role, FramesIn(s.log), s.nextRx, s.nextRx + 1);
  }

  lemma HeardOne(s: Session)
    requires OnScript(s) && s.nextRx < LAST
    ensures Lines(s.role, FramesIn(s.log), s.nextRx + 1)
  {
    hide FramesIn, Lines;
    LinesHeardMore(s.role, FramesIn(s.log), s.nextRx, s.nextRx + 1);
  }

  lemma OnScriptLines(s: Session)
    requires OnScript(s)
    ensures Lines(s.role, FramesIn(s.log), s.nextRx)
  {
  }

  lemma {:induction false} ArriveOnScript(s: Session, h: FrameHeader, payload: bytes)
    requires Sound(s) && Calm(s) && OnScript(s) && Receiving(s.phase) && NextSequence(s.nextRx).Ok?
    ensures var n := s.(nextRx := s.nextRx + 1); PlaysOn(Arrive(n, h, payload).0, Arrive(n, h, payload).1)
  {
    hide Sound, OnScript, ArriveData, ArriveCapability, ArriveOpen, ArriveReject, ArriveClose, Lines, FramesIn, Calm;
    var n := s.(nextRx := s.nextRx + 1);
    if h.messageType != UsbIpData {
      ArriveControlOnScript(s, h, payload);
    } else if s.phase == Running {
      NumberedSound(s);
      RunningHeardMore(s);
      CalmIsRx(s, n);
      ArriveDataOnScript(n, payload, h.flags);
      OnScriptLines(ArriveData(n, payload, h.flags).0);
    } else {
      HeardOne(s);
    }
  }

  lemma FailedOnScript(s: Session)
    requires Lines(s.role, FramesIn(s.log), s.nextRx)
    ensures OnScript(s.(phase := Failed, buffer := Cleared(s.buffer)))
  {
    hide FramesIn, Lines;
  }

  lemma {:induction false} AcceptFrameOnScript(s: Session, wire: bytes)
    requires Sound(s) && Calm(s) && OnScript(s)
    ensures OnScript(AcceptFrame(s, wire).0)
  {
    hide Sound, Calm, DecodeFrame, Arrive, OnScript, Lines, FramesIn;
    var d := DecodeFrame(wire);
    OnScriptLines(s);
    if Receiving(s.phase) && d.Ok? && NextSequence(s.nextRx).Ok? {
      ArriveOnScript(s, d.value.0, d.value.1);
    }
    var (s', r) := AcceptFrameInner(s, wire);
    if r.Err? {
      FailedOnScript(s');
    }
  }

  /** Every call keeps a session on its script. */
  lemma {:induction false} CallOnScript(s: Session, c: Call)
    requires Sound(s) && Calm(s) && Legal(s, c) && OnScript(s)
    ensures OnScript(Step(s, c).0)
  {
    hide Sound, Calm, OnScript, Start, AcceptHello, SendCapability, SendOpen, SendOpenOk, SendOpenReject, SendPdu,
         AckOutput, AcceptFrame, CompleteTransfer, CompleteCancel, Close, E.Lists;
    match c
    case CallSendCapability(capability) => SendCapabilityOnScript(s, capability);
    case CallSendOpen => SendOpenOnScript(s);
    case CallSendOpenOk => SendOpenOkOnScript(s);
    case CallSendOpenReject(status) => SendOpenRejectOnScript(s, status);
    case CallSendPdu(m) => SendingOnScript(s, m, 0);
    case CallAckOutput(id) => SendingOnScript(s, Message(0, []), id);
    case CallAcceptFrame(wire) => AcceptFrameOnScript(s, wire);
    case CallComplete(token, completion) => TransferOnScript(s, token, completion, 0);
    case CallCancel(token, status) => TransferOnScript(s, token, E.CANCELLATION, status);
    case CallClose(order) => CloseOnScript(s, order);
    case _ => HelloOnScript(s, c);
  }

  // ------------------------------------------------------------ two parties

  /** What a session is prepared for in its phase; CLOSE always. */
  predicate Expected(s: Session, kind: MessageType) {
    match kind
    case CapabilityMsg => s.role.Importer? && s.phase.AwaitCapability?
    case OpenMsg => s.role.Exporter? && s.phase.AwaitOpen?
    case OpenOkMsg => s.role.Importer? && s.phase.AwaitOpenReply?
    case OpenRejectMsg => s.role.Importer? && s.phase.AwaitOpenReply?
    case UsbIpData => s.phase.Running?
    case CloseMsg => true
  }

  /** The next frame on its way is one its receiver is prepared for, and accepts unless it is data. */
  ghost predicate Welcome(from: Session, to: Session, got: nat) {
    Receiving(to.phase) && got < |FramesIn(from.log)| ==>
      var frame := FramesIn(from.log)[got];
      && Expected(to, KindOf(frame))
      && (KindOf(frame) != UsbIpData ==> AcceptFrame(to, frame).1.Ok?)
  }

  lemma {:induction false} ArriveKeepsNumber(s: Session, h: FrameHeader, payload: bytes)
    requires Sound(s) && Calm(s) && Receiving(s.phase)
    ensures Arrive(s, h, payload).0.nextRx == s.nextRx
  {
    hide Sound, Calm, Deliver, Push, DecodeFragment, DecodeCapability, DecodeOpen, B.CloseBroker;
    if h.messageType == UsbIpData && s.phase == Running && DecodeFragment(payload, h.flags).Ok? {
      var f := DecodeFragment(payload, h.flags).value;
      PushSound(s, f);
      var (b, r) := Push(s.buffer, f);
      if r.Ok? && r.value.Some? {
        CalmIsRx(s, s.(buffer := b));
        DeliverKeepsNumber(s.(buffer := b), r.value.value);
      }
    }
  }

  lemma {:induction false} DeliverKeepsNumber(s: Session, m: Message)
    requires Sound(s) && Calm(s) && s.phase == Running
    ensures Deliver(s, m).0.nextRx == s.nextRx
  {
    hide Sound, HandlePdu, Deliver, B.ReserveReceive, LogGrows;
    DeliverEffect(s, m);
    AdmittingSound(s, m);
    if B.ReserveReceive(s.broker, |m.body|).1.Ok? {
      HandlePduSound(Admitting(s, m), m);
    }
  }

  lemma {:induction false} AcceptFrameNumber(s: Session, frame: bytes)
    requires Sound(s) && Calm(s)
    ensures AcceptFrame(s, frame).0.nextRx <= s.nextRx + 1
  {
    hide Sound, Calm, DecodeFrame, Arrive;
    var d := DecodeFrame(frame);
    if Receiving(s.phase) && d.Ok? && NextSequence(s.nextRx).Ok? {
      NumberedSound(s);
      CalmIsRx(s, s.(nextRx := s.nextRx + 1));
      ArriveKeepsNumber(s.(nextRx := s.nextRx + 1), d.value.0, d.value.1);
    }
  }

  // An exporter on the left, an importer on the right, each on its script.
  ghost predicate Playing(y: System) {
    && InTouch(y) && y.left.role.Exporter? && y.right.role.Importer?
    && OnScript(y.left) && OnScript(y.right)
    && y.left.nextRx <= y.leftGot + 1 && y.right.nextRx <= y.rightGot + 1
  }

  lemma RoleStays(s: Session, c: Call)
    requires Sound(s) && Calm(s) && Legal(s, c)
    ensures Step(s, c).0.role == s.role
  {
    hide Sound, Step, Calm, Legal, GrowsInOrder;
    PhasesNeverGoBack(s, c);
  }

  lemma {:induction false} CallPlays(s: Session, c: Call)
    requires Steady(s) && OnScript(s) && Legal(s, c) && !c.CallAcceptFrame?
    ensures var s' := Step(s, c).0;
      OnScript(s') && s'.role == s.role && s'.nextRx == s.nextRx
  {
    hide Sound, OnScript, Step, Calm, Legal;
    SteadySound(s);
    RoleStays(s, c);
    CallOnScript(s, c);
    CallKeepsIncoming(s, c);
  }

  lemma {:induction false} AcceptPlays(s: Session, frame: bytes)
    requires Steady(s) && OnScript(s)
    ensures var s' := AcceptFrame(s, frame).0;
      OnScript(s') && s'.role == s.role && s'.nextRx <= s.nextRx + 1
  {
    hide Sound, OnScript, AcceptFrame, Calm, GrowsInOrder;
    SteadySound(s);
    AcceptFrameOnScript(s, frame);
    AcceptFrameNumber(s, frame);
    AcceptFrameOnward(s, frame);
  }

  lemma {:induction false} FramePlays(s: Session, got: nat, frames: seq<bytes>)
    requires Steady(s) && OnScript(s) && s.nextRx <= got + 1
    ensures var (s', got') := Hand(s, got, frames);
      OnScript(s') && s'.role == s.role && s'.nextRx <= got' + 1
  {
    hide Steady, OnScript, AcceptFrame;
    if got < |frames| {
      AcceptPlays(s, frames[got]);
    }
  }

  lemma TouchingIsSteady(y: System)
    requires InTouch(y)
    ensures Steady(y.left) && Steady(y.right)
  {
    hide Steady, Link;
  }

  lemma {:induction false} NextPlaying(y: System, m: Move)
    requires Playing(y) && Allowed(y, m)
    ensures Playing(Next(y, m))
  {
    hide Steady, InTouch, Legal, Step, Hand, FramesIn, OnScript;
    NextInTouch(y, m);
    TouchingIsSteady(y);
    match m
    case LeftCalls(c) => CallPlays(y.left, c);
    case RightCalls(c) => CallPlays(y.right, c);
    case FrameToLeft => FramePlays(y.left, y.leftGot, FramesIn(y.right.log));
    case FrameToRight => FramePlays(y.right, y.rightGot, FramesIn(y.left.log));
  }

  lemma MadeOnScript(s: Session)
    requires Made(s)
    ensures OnScript(s) && s.nextRx == 1
  {
    assert FramesIn([]) == [];
    hide FramesIn, KindOf;
  }

  lemma {:induction false} AlwaysPlaying(y: System, moves: seq<Move>)
    requires Attached(y) && AllowedRun(y, moves) && y.left.role.Exporter? && y.right.role.Importer?
    ensures Playing(RunSystem(y, moves))
  {
    hide InTouch, Made, Next, Allowed, OnScript;
    if moves == [] {
      AlwaysInTouch(y, moves);
      MadeOnScript(y.left);
      MadeOnScript(y.right);
    } else {
      AlwaysPlaying(y, moves[..|moves| - 1]);
      NextPlaying(RunSystem(y, moves[..|moves| - 1]), moves[|moves| - 1]);
    }
  }

  // A control frame its receiver is prepared for is accepted.
  lemma ControlWelcome(s: Session, frame: bytes, peer: B.Hello)
    requires Receiving(s.phase) && s.broker.state == B.Established && s.nextRx < LAST
    requires Faithful(frame, peer, s.nextRx) && SameTokens(s.hello, peer)
    requires KindOf(frame) != UsbIpData && Expected(s, KindOf(frame))
    ensures AcceptFrame(s, frame).1.Ok?
  {
    hide DecodeFrame, DecodeCapability, DecodeOpen, DecodeFragment;
  }

  lemma AcceptedSoFar(from: Session, to: Session, got: nat)
    requires Link(from, to, got) && Alive(to.phase)
    ensures to.nextRx == got + 1
  {
    hide Collect, SameContent, FramesIn;
  }

  // The frame an importer finds next, by what the exporter must have heard before sending it.
  lemma {:induction false} ToImporter(from: Session, to: Session, got: nat, back: nat)
    requires OnScript(from) && OnScript(to) && from.role.Exporter? && to.role.Importer?
    requires Receiving(to.phase) && to.nextRx == got + 1 && got < |FramesIn(from.log)|
    requires from.nextRx <= back + 1 && back <= |FramesIn(to.log)|
    ensures Expected(to, KindOf(FramesIn(from.log)[got]))
  {
    hide KindOf, FramesIn;
  }

  // The frame an exporter finds next, by what the importer must have heard before sending it.
  lemma {:induction false} ToExporter(from: Session, to: Session, got: nat, back: nat)
    requires OnScript(from) && OnScript(to) && from.role.Importer? && to.role.Exporter?
    requires Receiving(to.phase) && to.nextRx == got + 1 && got < |FramesIn(from.log)|
    requires from.nextRx <= back + 1 && back <= |FramesIn(to.log)|
    ensures Expected(to, KindOf(FramesIn(from.log)[got]))
  {
    hide KindOf, FramesIn;
  }

  lemma LinkCount(from: Session, to: Session, got: nat)
    requires Link(from, to, got)
    ensures got <= |FramesIn(from.log)|
  {
    hide Advanced, FramesIn;
  }

  // What is known of a receiver and the frame that comes next.
  lemma {:induction false} ComingNext(from: Session, to: Session, got: nat)
    requires Steady(from) && Steady(to) && Link(from, to, got) && Receiving(to.phase) && got < |FramesIn(from.log)|
    ensures to.nextRx == got + 1 && to.nextRx < LAST && to.broker.state == B.Established
    ensures Faithful(FramesIn(from.log)[got], from.hello, to.nextRx)
  {
    hide Link, Faithful, FramesIn, Sound, Calm, Collect;
    SteadyFrames(from);
    AcceptedSoFar(from, to, got);
    EstablishedWhenReceiving(to);
  }

  lemma {:induction false} Welcomes(from: Session, to: Session, got: nat, back: nat)
    requires Steady(from) && Steady(to) && SameTokens(from.hello, to.hello)
    requires Link(from, to, got) && Link(to, from, back)
    requires OnScript(from) && OnScript(to) && from.nextRx <= back + 1
    requires from.role != to.role
    ensures Welcome(from, to, got)
  {
    hide Steady, Link, OnScript, KindOf, Expected, AcceptFrame, Faithful, FramesIn;
    if Receiving(to.phase) && got < |FramesIn(from.log)| {
      ComingNext(from, to, got);
      LinkCount(to, from, back);
      if from.role.Exporter? {
        ToImporter(from, to, got, back);
      } else {
        ToExporter(from, to, got, back);
      }
      if KindOf(FramesIn(from.log)[got]) != UsbIpData {
        ControlWelcome(to, FramesIn(from.log)[got], from.hello);
      }
    }
  }

  /**
   The handshake never crosses. However the two programs interleave their calls and
   the frames on their way, every frame finds its receiver in a phase that is
   prepared for it, and every control frame is accepted, as long as the receiver is
   past its HELLO and has not ended.
   */
  lemma HandshakeNeverCrosses(y: System, moves: seq<Move>)
    requires Attached(y) && AllowedRun(y, moves) && y.left.role.Exporter? && y.right.role.Importer?
    ensures var z := RunSystem(y, moves);
      Welcome(z.left, z.right, z.rightGot) && Welcome(z.right, z.left, z.leftGot)
  {
    hide Steady, Link, Made, Next, Allowed, Attached, AllowedRun, RunSystem, OnScript, Welcome;
    AlwaysPlaying(y, moves);
    var z := RunSystem(y, moves);
    Welcomes(z.left, z.right, z.rightGot, z.leftGot);
    Welcomes(z.right, z.left, z.leftGot, z.rightGot);
  }

  // ------------------------------------------------------ what is understood

  /** Two sessions of which the second expects the first's next frame. */
  ghost predicate Listening(from: Session, to: Session) {
    && Sound(from) && Sound(to) && SameTokens(from.hello, to.hello)
    && Receiving(to.phase) && to.nextRx == from.nextTx < LAST
  }

  // A control frame sent and accepted, up to what its kind brings about.
  lemma {:induction false} ControlArrives(from: Session, to: Session, kind: MessageType, payload: bytes)
    requires Listening(from, to) && kind != UsbIpData
    requires |payload| <= MAX_PAYLOAD && Content(kind, 0, payload, from.hello)
    ensures var frame := FrameBytes(from.hello.sessionToken, from.nextTx, kind, 0, payload);
      var h := FrameHeader(kind, 0, |payload|, from.hello.sessionToken, from.nextTx);
      var (t, r) := Arrive(to.(nextRx := to.nextRx + 1), h, payload);
      && QueueFrame(from, 0, kind, 0, payload) == (Log(from.(nextTx := from.nextTx + 1), OutputFrame(0, frame)), Ok(()))
      && (r.Ok? ==> AcceptFrame(to, frame) == (t, r))
  {
    hide Sound, Core, QueueFrame, DecodeFrame, FrameBytes, Content, Arrive;
    SoundCore(from);
    EstablishedWhenReceiving(to);
    ControlCore(from, kind, payload);
    var r := QueueFrame(from, 0, kind, 0, payload).1;
    assert r.value == ();
  }

  /** The importer is told of exactly the capability the exporter sent. */
  lemma {:induction false} CapabilityTravels(from: Session, to: Session, c: Capability)
    requires Listening(from, to) && from.role.Exporter? && from.phase == AwaitCapability
    requires TokensMatch(from, c.leaseToken, c.attachmentToken) && EncodeCapability(c).Ok?
    requires to.role.Importer? && to.phase == AwaitCapability
    ensures var (s, r) := SendCapability(from, c);
      && r.Ok? && s.phase == AwaitOpen && |s.log| == |from.log| + 1 && s.log[|from.log|].OutputFrame?
      && var (t, q) := AcceptFrame(to, s.log[|from.log|].frame);
         q.Ok? && t.phase == AwaitOpen && t.log == to.log + [CapabilityArrived(c)]
  {
    hide Sound, QueueFrame, EncodeCapability, DecodeCapability, FrameBytes, AcceptFrame, Content;
    CapabilityContent(c, from.hello);
    CapabilityReads(c);
    ControlArrives(from, to, CapabilityMsg, EncodeCapability(c).value);
  }

  lemma CapabilityReads(c: Capability)
    requires EncodeCapability(c).Ok?
    ensures DecodeCapability(EncodeCapability(c).value) == Ok(c)
  {
    CapabilityAlwaysFits(c);
    hide DecodeCapability, CapabilityLength;
    CapabilityRoundTrip(c);
  }

  /** The exporter is told of an OPEN with the tokens both share. */
  lemma {:induction false} OpenTravels(from: Session, to: Session)
    requires Listening(from, to) && from.role.Importer? && from.phase == AwaitOpen
    requires to.role.Exporter? && to.phase == AwaitOpen
    ensures var (s, r) := SendOpen(from);
      && r.Ok? && s.phase == AwaitOpenReply && |s.log| == |from.log| + 1 && s.log[|from.log|].OutputFrame?
      && var (t, q) := AcceptFrame(to, s.log[|from.log|].frame);
         && q.Ok? && t.phase == AwaitOpenReply
         && t.log == to.log + [OpenArrived(Open(to.hello.leaseToken, to.hello.attachmentToken))]
  {
    hide Sound, QueueFrame, EncodeOpen, DecodeOpen, FrameBytes, AcceptFrame, Content;
    SoundHello(from);
    OpenContent(from.hello);
    OpenRoundTrip(Open(from.hello.leaseToken, from.hello.attachmentToken));
    ControlArrives(from, to, OpenMsg, EncodeOpen(Open(from.hello.leaseToken, from.hello.attachmentToken)).value);
  }

  /** Agreeing opens the session on both sides. */
  lemma {:induction false} OpenOkTravels(from: Session, to: Session)
    requires Listening(from, to) && from.role.Exporter? && from.phase == AwaitOpenReply
    requires to.role.Importer? && to.phase == AwaitOpenReply
    ensures var (s, r) := SendOpenOk(from);
      && r.Ok? && s.phase == Running && |s.log| == |from.log| + 2
      && s.log[|from.log|].OutputFrame? && s.log[|from.log| + 1] == Opened
      && var (t, q) := AcceptFrame(to, s.log[|from.log|].frame);
         q.Ok? && t.phase == Running && t.log == to.log + [Opened]
  {
    hide Sound, QueueFrame, FrameBytes, AcceptFrame;
    ControlArrives(from, to, OpenOkMsg, []);
  }

  /** Refusing closes it on both, and the importer is told the status the exporter gave. */
  lemma {:induction false} OpenRejectTravels(from: Session, to: Session, status: u32)
    requires Listening(from, to) && from.role.Exporter? && from.phase == AwaitOpenReply && 1 <= status <= 10
    requires to.role.Importer? && to.phase == AwaitOpenReply
    ensures var (s, r) := SendOpenReject(from, status);
      && r.Ok? && s.phase == Closed && |s.log| == |from.log| + 1 && s.log[|from.log|].OutputFrame?
      && var (t, q) := AcceptFrame(to, s.log[|from.log|].frame);
         q.Ok? && t.phase == Closed && t.log == to.log + [OpenRejected(status)]
  {
    hide Sound, QueueFrame, FrameBytes, AcceptFrame, Content, PutU32Le, GetU32Le;
    RejectContent(status, from.hello);
    U32Le(status);
    ControlArrives(from, to, OpenRejectMsg, PutU32Le(status));
  }

  // A CLOSE frame accepted: the receiver closes.
  lemma {:induction false} CloseArrives(from: Session, to: Session)
    requires Sound(from) && Rank(from.phase) <= Rank(Closing) && FinishClose(from).1.Ok?
    requires Sound(to) && SameTokens(from.hello, to.hello) && Receiving(to.phase) && to.nextRx == from.nextTx < LAST
    ensures var (t, q) := AcceptFrame(to, CloseFrame(from.hello, from.nextTx));
      q.Ok? && t.phase == Closed && t.log == to.log + [ClosedEvent] && t.broker.state == B.Closed
  {
    hide Sound, QueueFrame, FrameBytes, AcceptFrame, Content, PutU64Le, GetU64Le, Core;
    EstablishedWhenReceiving(to);
    var c := from.(phase := Closing);
    EndingSound(from, Closing, from.buffer);
    assert from.(phase := Closing, buffer := from.buffer) == c;
    CloseContent(c.hello);
    U64Le(c.hello.leaseToken);
    ControlArrives(c, to, CloseMsg, PutU64Le(c.hello.leaseToken));
  }

  /**
   A call to close that succeeds, in any phase, ends with CLOSE, and a peer that has
   accepted everything before it is closed by it. When it succeeds is foretold above.
   */
  lemma {:induction false} CloseTravels(from: Session, to: Session, order: seq<u64>)
    requires Sound(from) && !from.phase.Closed? && !from.phase.Failed? && Close(from, order).1.Ok?
    requires from.phase.Running? ==> E.Lists(order, from.table.byToken.Keys)
    requires Sound(to) && SameTokens(from.hello, to.hello) && Receiving(to.phase)
    requires to.nextRx + 1 == Close(from, order).0.nextTx
    ensures var s := Close(from, order).0;
      && SaidGoodbye(s) && s.hello == from.hello
      && var (t, q) := AcceptFrame(to, CloseFrame(s.hello, s.nextTx - 1));
         q.Ok? && t.phase == Closed && t.log == to.log + [ClosedEvent] && t.broker.state == B.Closed
  {
    hide Sound, AcceptFrame, Close, FinishClose, SaidGoodbye, E.Lists, CloseFrame;
    var m := ClosedFrom(from, order);
    FinishCloseVerdict(m);
    SoundCore(m);
    NumbersInRange(m);
    CloseArrives(m, to);
  }

  // ---------------------------------------------------------------------- HELLO

  lemma StartedNew(s: Session)
    requires Made(s)
    ensures var (s', r) := Start(s);
      && r.Ok? && s'.phase == AwaitHello && s'.log == [OutputHello(B.PutHello(s.hello))]
      && B.Awaiting(s'.broker) && s'.broker.expected == s.hello && s'.hello == s.hello
  {
    hide B.PutHello, B.HelloOk;
  }

  /**
   Two sessions started and handed each other's HELLO both get past it exactly when
   they were made for the same session with the same limits. Otherwise at least one
   of them is left waiting with a failed broker.
   */
  lemma HelloTravels(from: Session, to: Session)
    requires Made(from) && Made(to)
    ensures var (a, b) := (Start(from).0, Start(to).0);
      && a.log == [OutputHello(B.PutHello(from.hello))] && b.log == [OutputHello(B.PutHello(to.hello))]
      && var ((a', ra), (b', rb)) := (AcceptHello(a, b.log[0].hello), AcceptHello(b, a.log[0].hello));
         && (ra.Ok? && rb.Ok? <==> from.hello == to.hello)
         && (ra.Ok? <==> a'.phase == AwaitCapability && a'.broker.state == B.Established)
         && (rb.Ok? <==> b'.phase == AwaitCapability && b'.broker.state == B.Established)
         && (from.hello != to.hello ==>
               || (a'.phase == AwaitHello && a'.broker.state == B.Failed)
               || (b'.phase == AwaitHello && b'.broker.state == B.Failed))
  {
    hide Made, Start, B.PutHello, B.AcceptHello, B.Awaiting;
    StartedNew(from);
    StartedNew(to);
    var (a, b) := (Start(from).0, Start(to).0);
    B.HelloAgreement(a.broker, b.broker);
    AwaitingHello(a.broker);
    AwaitingHello(b.broker);
    B.HelloVerdict(a.broker, to.hello);
    B.HelloVerdict(b.broker, from.hello);
  }

  lemma AwaitingHello(b: B.Broker)
    requires B.Awaiting(b)
    ensures B.HelloOk(b.expected)
  {
  }
}
