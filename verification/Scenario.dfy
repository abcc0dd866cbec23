/** A run that leads an exporter to one message out and one transfer pending, whatever number was negotiated. */
module Scenario {
  import opened Base
  import Endian
  import opened Wire
  import opened Reassembly
  import opened Session
  import opened Frames
  import opened Sending
  import opened Traffic
  import opened SessionCalls
  import opened SessionRuns
  import opened Outcomes
  import B = Broker
  import E = Execution
  import L = ExecutionLaws
  import Pdu
  import Usbip

  lemma OneMoreCall(s: Session, calls: seq<Call>, c: Call)
    requires LegalRun(s, calls) && Legal(After(s, calls), c)
    ensures LegalRun(s, calls + [c]) && After(s, calls + [c]) == Step(After(s, calls), c).0
  {
    hide Step, Legal;
    assert (calls + [c])[..|calls|] == calls;
  }

  lemma NoCalls(s: Session)
    ensures LegalRun(s, []) && After(s, []) == s
  {
  }

  // ------------------------------------------------------------- the two sides

  const ONES: B.Uuid := [1, 1, 1, 1, 1, 1, 1, 1, 1, 1, 1, 1, 1, 1, 1, 1]

  // How many messages both sides agree may be out at a time.
  type Limit = n: u32 | 1 <= n <= B.MAX_INFLIGHT witness 1

  function HelloFor(n: Limit): B.Hello {
    B.Hello(ONES, 1, 1, 1, 1, ONES, 4096, n, false)
  }

  // The window itself has room for one message, whatever was agreed.
  function ConfigFor(n: Limit): Config {
    Config(Exporter, HelloFor(n), 0, 1, 0, 0, 4096, 16, 1024)
  }

  const CAPABILITY := Capability(1, 1, 0, 0, 0, 0, 0, 0, [1], [1], [])
  const MESSAGE := Message(1, [0])

  // The smallest SUBMIT there is, in one fragment.
  function Submitted(): (f: Fragment)
    ensures FragmentOk(f)
  {
    Fragment(1, 1, |Pdu.PutSubmit(L.Tiny())|, 0, Pdu.PutSubmit(L.Tiny()), false)
  }

  function OpenFrame(): bytes {
    FrameBytes(1, 1, OpenMsg, 0, Endian.PutU64Le(1) + Endian.PutU64Le(1))
  }

  // Its frame under a number.
  function SubmitFrame(sequence: u64): bytes {
    PieceFrame(1, sequence, Submitted())
  }

  function Fresh(n: Limit): Session {
    Session(Exporter, New, HelloFor(n), FreshBroker(n), E.Table(n, 1024, 1, map[], map[], {}), Empty(4096, 16), 1, 1,
            FIRST_INTERNAL, map[], [], 4096, 16, [], [], [], [])
  }

  function FreshBroker(n: Limit): B.Broker {
    B.Broker(HelloFor(n), B.New, false, 4096, n, B.MAX_WINDOW_BYTES, 1, B.MAX_WINDOW_BYTES, B.MAX_INFLIGHT,
             B.NOTHING, B.NOTHING)
  }

  function AgreedBroker(n: Limit): B.Broker {
    FreshBroker(n).(state := B.Established, nonceConsumed := true)
  }

  // The session in a phase of its handshake, its history aside.
  predicate InHandshake(s: Session, n: Limit, p: Phase, b: B.Broker, nextRx: u64, nextTx: u64) {
    s == Fresh(n).(phase := p, broker := b, nextRx := nextRx, nextTx := nextTx, log := s.log)
  }

  lemma GoodHello(n: Limit)
    ensures B.HelloOk(HelloFor(n))
  {
    assert ONES[0] == 1;
  }

  lemma FreshIsMade(n: Limit)
    ensures Made(Fresh(n)) && InHandshake(Fresh(n), n, New, FreshBroker(n), 1, 1)
  {
    GoodHello(n);
    assert NewSession(ConfigFor(n)) == Ok(Fresh(n));
  }

  lemma AgreesOnHello(n: Limit, s: Session)
    requires InHandshake(s, n, AwaitHello, FreshBroker(n).(state := B.HelloSent), 1, 1)
    ensures InHandshake(AcceptHello(s, B.PutHello(HelloFor(n))).0, n, AwaitCapability, AgreedBroker(n), 1, 1)
  {
    GoodHello(n);
    B.HelloRoundTrip(HelloFor(n));
    hide B.PutHello, B.DecodeHello, AllZero;
  }

  lemma GoodCapability(n: Limit)
    ensures EncodeCapability(CAPABILITY).Ok? && |EncodeCapability(CAPABILITY).value| <= MAX_PAYLOAD
    ensures Content(CapabilityMsg, 0, EncodeCapability(CAPABILITY).value, HelloFor(n))
  {
    CapabilityAlwaysFits(CAPABILITY);
    assert CapabilityOk(CAPABILITY);
    hide CapabilityOk, EncodeCapability, Content;
    CapabilityContent(CAPABILITY, HelloFor(n));
  }

  lemma OffersCapability(n: Limit, s: Session)
    requires Sound(s) && InHandshake(s, n, AwaitCapability, AgreedBroker(n), 1, 1)
    ensures InHandshake(SendCapability(s, CAPABILITY).0, n, AwaitOpen, AgreedBroker(n), 1, 2)
  {
    hide Sound, Core, QueueFrame, EncodeCapability, Content, FrameBytes, DecodeFrame;
    GoodCapability(n);
    SoundCore(s);
    ControlCore(s, CapabilityMsg, EncodeCapability(CAPABILITY).value);
  }

  // A frame that reads as its header and payload, in its turn.
  lemma {:induction false} FrameTaken(s: Session, kind: MessageType, flags: u32, payload: bytes)
    requires Receiving(s.phase) && s.broker.state == B.Established && s.hello.sessionToken != 0
    requires 1 <= s.nextRx < LAST && Sendable(kind, flags, payload)
    ensures var h := FrameHeader(kind, flags, |payload|, s.hello.sessionToken, s.nextRx);
      var (t, r) := Arrive(s.(nextRx := s.nextRx + 1), h, payload);
      r.Ok? ==> AcceptFrame(s, FrameBytes(s.hello.sessionToken, s.nextRx, kind, flags, payload)) == (t, r)
  {
    hide DecodeFrame, FrameBytes, Sendable, Arrive;
    FrameReads(s.hello.sessionToken, s.nextRx, kind, flags, payload);
  }

  lemma HearsOpen(n: Limit, s: Session)
    requires InHandshake(s, n, AwaitOpen, AgreedBroker(n), 1, 2)
    ensures InHandshake(AcceptFrame(s, OpenFrame()).0, n, AwaitOpenReply, AgreedBroker(n), 2, 2)
  {
    var payload := Endian.PutU64Le(1) + Endian.PutU64Le(1);
    OpenRoundTrip(Open(1, 1));
    assert EncodeOpen(Open(1, 1)) == Ok(payload);
    hide DecodeOpen, Endian.PutU64Le, FrameBytes, AcceptFrame;
    assert Sendable(OpenMsg, 0, payload);
    FrameTaken(s, OpenMsg, 0, payload);
  }

  lemma AgreesToOpen(n: Limit, s: Session)
    requires Sound(s) && InHandshake(s, n, AwaitOpenReply, AgreedBroker(n), 2, 2)
    ensures InHandshake(SendOpenOk(s).0, n, Running, AgreedBroker(n), 2, 3)
  {
    hide Sound, Core, QueueFrame, FrameBytes, DecodeFrame;
    SoundCore(s);
    ControlCore(s, OpenOkMsg, []);
  }

  // The session running with one message out and nothing else going on.
  predicate OneMessageOut(s: Session, n: Limit, t: E.Table, nextRx: u64) {
    && s.role == Exporter && s.phase == Running && s.hello == HelloFor(n) && s.table == t
    && s.nextRx == nextRx && s.nextTx == 4
    && s.broker == AgreedBroker(n).(tx := B.Window(1, 1), rx := s.broker.rx) && s.pending == [] && s.produced == []
    && s.nextInternal == FIRST_INTERNAL && s.buffer == Empty(4096, 16)
    && s.maxReassembly == 4096 && s.maxFragments == 16
  }

  lemma OneFits(n: Limit, s: Session)
    requires InHandshake(s, n, Running, AgreedBroker(n), 2, 3)
    ensures DivCeil(|MESSAGE.body|, CHUNK) == 1 && Fits(s, MESSAGE) && B.ReserveSend(s.broker, 1).1.Ok?
  {
  }

  lemma SendsOne(n: Limit, s: Session)
    requires Sound(s) && InHandshake(s, n, Running, AgreedBroker(n), 2, 3)
    ensures SendPdu(s, MESSAGE).1.Ok? && OneMessageOut(SendPdu(s, MESSAGE).0, n, Fresh(n).table, 2)
  {
    OneFits(n, s);
    hide Sound, Core, SendPdu, Configured, Fits, DivCeil, LogGrows, B.ReserveSend;
    SoundCore(s);
    SendVerdict(s, MESSAGE);
    SendCore(s, MESSAGE);
    SentIsOneOut(s, MESSAGE);
  }

  lemma TinyEncodes()
    ensures Pdu.EncodeSubmit(L.Tiny()) == Ok(Pdu.PutSubmit(L.Tiny()))
    ensures !Usbip.IsControl(Pdu.PutSubmit(L.Tiny()))
  {
    hide Pdu.DecodeRequest, Pdu.PutSubmit;
    Pdu.RequestRoundTrip(Pdu.Submit(L.Tiny()));
    Usbip.KindsAreDisjoint(Pdu.PutSubmit(L.Tiny()));
  }

  function Admitted(n: Limit): E.Table {
    E.Admit(Fresh(n).table, L.Tiny())
  }

  lemma ExecutorAdmits(n: Limit)
    ensures E.AcceptPdu(Fresh(n).table, Pdu.PutSubmit(L.Tiny())) == (Admitted(n), Ok([E.SubmitEvent(1, L.Tiny())]))
  {
    TinyEncodes();
    L.SubmitIsHandedOver(Fresh(n).table, L.Tiny());
    hide Pdu.PutSubmit, Pdu.EncodeSubmit;
    Pdu.RequestRoundTrip(Pdu.Submit(L.Tiny()));
  }

  lemma TellsOne(s: Session, token: u64, request: Pdu.SubmitRequest)
    requires s.pending == []
    ensures HandleEvents(s, [E.SubmitEvent(token, request)]) == (Log(s, SubmitArrived(token, request)), Ok(()))
  {
    var e := E.SubmitEvent(token, request);
    assert [e][1..] == [] && RepliesIn([]) == [];
    assert RepliesIn([e]) == [] + [];
    assert s.produced + [] == s.produced;
    assert TakeEvents(s, [e]) == (Log(s, SubmitArrived(token, request)), Ok(()));
  }

  lemma AdmitsTiny(n: Limit, s: Session)
    requires OneMessageOut(s, n, Fresh(n).table, 3)
    ensures var (s', r) := HandlePdu(s, Message(1, Pdu.PutSubmit(L.Tiny())));
      r.Ok? && OneMessageOut(s', n, Admitted(n), 3) && s'.broker == s.broker
  {
    hide Pdu.PutSubmit, E.AcceptPdu, Usbip.IsControl, HandleEvents, Admitted, Fresh;
    TinyEncodes();
    ExecutorAdmits(n);
    TellsOne(s.(table := Admitted(n)), 1, L.Tiny());
  }

  lemma PushesAlone(b: Buffer)
    requires b == Empty(4096, 16)
    ensures Push(b, Submitted()) == (b, Ok(Some(Message(1, Pdu.PutSubmit(L.Tiny())))))
  {
    hide Pdu.PutSubmit;
    assert [] + Pdu.PutSubmit(L.Tiny()) == Pdu.PutSubmit(L.Tiny());
  }

  lemma DeliversTiny(n: Limit, s: Session)
    requires Sound(s) && Calm(s) && OneMessageOut(s, n, Fresh(n).table, 3)
    ensures var (s', r) := Deliver(s, Message(1, Pdu.PutSubmit(L.Tiny())));
      r.Ok? && OneMessageOut(s', n, Admitted(n), 3)
  {
    hide Sound, HandlePdu, Deliver, Pdu.PutSubmit, B.ReserveReceive;
    var m := Message(1, Pdu.PutSubmit(L.Tiny()));
    DeliverEffect(s, m);
    ReservesTiny(n, s.broker, |m.body|);
    Reserving(s.broker, |m.body|);
    AdmitsTiny(n, Admitting(s, m));
  }

  lemma ReservesTiny(n: Limit, b: B.Broker, size: nat)
    requires b == AgreedBroker(n).(tx := B.Window(1, 1), rx := b.rx) && b.rx == B.NOTHING && size == 48
    ensures B.ReserveReceive(b, size).1.Ok?
  {
  }

  lemma OutFacts(n: Limit, s: Session, t: E.Table)
    requires OneMessageOut(s, n, t, 3)
    ensures s.hello.leaseToken == 1 && s.broker.maxPdu == 4096 && s.phase == Running && s.buffer == Empty(4096, 16)
  {
  }

  lemma TakesTiny(n: Limit, s: Session)
    requires Sound(s) && Calm(s) && OneMessageOut(s, n, Fresh(n).table, 3)
    ensures var (s', r) := ArriveData(s, PutFragment(Submitted()), 0); r.Ok? && OneMessageOut(s', n, Admitted(n), 3)
  {
    hide Sound, Calm, Pdu.PutSubmit, FragmentOk, PutFragment, DecodeFragment, Deliver, Push, Admitted,
         OneMessageOut, Submitted;
    var f := Submitted();
    FragmentRoundTrip(f);
    OutFacts(n, s, Fresh(n).table);
    PushesAlone(s.buffer);
    DeliversTiny(n, s);
    SmallFragment(f);
    assert s.(buffer := s.buffer) == s;
  }

  lemma SmallFragment(f: Fragment)
    requires f == Submitted()
    ensures f.totalLength == 48 && f.leaseToken == 1 && FlagsOf(f) == 0
  {
    hide Pdu.PutSubmit;
  }

  lemma HearsSubmit(n: Limit, s: Session)
    requires Sound(s) && Calm(s) && OneMessageOut(s, n, Fresh(n).table, 2)
    ensures OneMessageOut(AcceptFrame(s, SubmitFrame(2)).0, n, Admitted(n), 3)
  {
    hide Sound, Pdu.PutSubmit, FragmentOk, PutFragment, FrameBytes, AcceptFrame, ArriveData, Admitted,
         Sendable, Submitted;
    TinyEncodes();
    var f := Submitted();
    SmallFragment(f);
    FragmentSendable(f);
    var t := s.(nextRx := 3);
    NumberedSound(s);
    FrameTaken(s, UsbIpData, 0, PutFragment(f));
    TakesTiny(n, t);
  }

  function Run(n: Limit): seq<Call> {
    [CallStart, CallAcceptHello(B.PutHello(HelloFor(n))), CallSendCapability(CAPABILITY),
                           CallAcceptFrame(OpenFrame()), CallSendOpenOk, CallSendPdu(MESSAGE)]
  }

  // The run, one call after another, up to the message sent.
  lemma {:induction false} RunsToOneOut(n: Limit)
    ensures LegalRun(Fresh(n), Run(n)) && OneMessageOut(After(Fresh(n), Run(n)), n, Fresh(n).table, 2)
  {
    hide Made, After, LegalRun, Sound, Calm, InHandshake, OneMessageOut, Start, AcceptHello, SendCapability,
         AcceptFrame, SendOpenOk, SendPdu, B.PutHello, OpenFrame, Fresh;
    FreshIsMade(n);
    var s, run := Fresh(n), Run(n);
    NoCalls(s);
    OneMoreCall(s, [], run[0]);
    assert [] + [run[0]] == run[..1];
    StartsFresh(n);
    OneMoreCall(s, run[..1], run[1]);
    assert run[..1] + [run[1]] == run[..2];
    AgreesOnHello(n, After(s, run[..1]));
    OneMoreCall(s, run[..2], run[2]);
    assert run[..2] + [run[2]] == run[..3];
    AlwaysSound(s, run[..2]);
    OffersCapability(n, After(s, run[..2]));
    OneMoreCall(s, run[..3], run[3]);
    assert run[..3] + [run[3]] == run[..4];
    HearsOpen(n, After(s, run[..3]));
    OneMoreCall(s, run[..4], run[4]);
    assert run[..4] + [run[4]] == run[..5];
    AlwaysSound(s, run[..4]);
    AgreesToOpen(n, After(s, run[..4]));
    OneMoreCall(s, run[..5], run[5]);
    assert run[..5] + [run[5]] == run;
    AlwaysSound(s, run[..5]);
    SendsOne(n, After(s, run[..5]));
  }

  lemma StartsFresh(n: Limit)
    ensures InHandshake(Start(Fresh(n)).0, n, AwaitHello, FreshBroker(n).(state := B.HelloSent), 1, 1)
  {
    hide B.PutHello;
    GoodHello(n);
  }

  lemma FrameStep(s: Session, wire: bytes)
    ensures Legal(s, CallAcceptFrame(wire)) && Step(s, CallAcceptFrame(wire)) == AcceptFrame(s, wire)
  {
    hide AcceptFrame;
  }

  // The run goes on to the one transfer admitted.
  function ToOnePending(n: Limit): seq<Call> {
    Run(n) + [CallAcceptFrame(SubmitFrame(2))]
  }

  /** From a session as made, the run leaves one message out and one transfer pending, and its caller is polite. */
  lemma {:induction false} RunsToOnePending(n: Limit)
    ensures Made(Fresh(n)) && LegalRun(Fresh(n), ToOnePending(n)) && PoliteRun(ToOnePending(n))
    ensures OneMessageOut(After(Fresh(n), ToOnePending(n)), n, Admitted(n), 3)
  {
    hide Made, After, LegalRun, Sound, Calm, SubmitFrame, Fresh, Run, OneMessageOut, Admitted, Step, Legal, AcceptFrame,
         PoliteRun;
    FreshIsMade(n);
    RunsToOneOut(n);
    PoliteToOnePending(n);
    var s := After(Fresh(n), Run(n));
    AlwaysSound(Fresh(n), Run(n));
    HearsSubmit(n, s);
    FrameStep(s, SubmitFrame(2));
    OneMoreCall(Fresh(n), Run(n), CallAcceptFrame(SubmitFrame(2)));
  }

  lemma PoliteToOnePending(n: Limit)
    ensures PoliteRun(ToOnePending(n))
  {
    hide SubmitFrame, B.PutHello, OpenFrame;
  }
}
