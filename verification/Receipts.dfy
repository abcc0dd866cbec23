/** What accepting a frame answers, told from the state before it, when the frame completes a message. */
module Receipts {
  import opened Base
  import opened Wire
  import opened Reassembly
  import opened Session
  import opened Frames
  import opened Traffic
  import opened ReplyQueue
  import opened SessionCalls
  import opened SessionRuns
  import opened SessionLaws
  import opened Outcomes
  import B = Broker
  import E = Execution
  import R = ExecutionRuns
  import Usbip

  // ------------------------------------------------------- which frame completes

  // The header a running session expects on its next frame.
  predicate InTurn(s: Session, h: FrameHeader) {
    h.sessionToken == s.hello.sessionToken && h.sequence == s.nextRx && NextSequence(s.nextRx).Ok?
  }

  // The fragment a data payload carries, if this session may take it.
  function FragmentFor(s: Session, payload: bytes, flags: u32): Option<Fragment> {
    var f := DecodeFragment(payload, flags);
    if f.Err? || f.value.leaseToken != s.hello.leaseToken || f.value.totalLength > s.broker.maxPdu then None
    else Some(f.value)
  }

  /** The message that a frame completes, if it does. */
  function Completed(s: Session, wire: bytes): Option<Message> {
    var d := DecodeFrame(wire);
    if s.phase != Running || s.broker.state != B.Established || d.Err? then None
    else
      var (h, payload) := d.value;
      if h.messageType != UsbIpData || !InTurn(s, h) then None
      else
        var f := FragmentFor(s, payload, h.flags);
        if f.None? then None
        else
          var r := Push(s.buffer, f.value).1;
          if r.Ok? then r.value else None
  }

  // The session in which the message is delivered.
  function Completing(s: Session, wire: bytes): Session
    requires Completed(s, wire).Some?
  {
    var (h, payload) := DecodeFrame(wire).value;
    s.(nextRx := s.nextRx + 1, buffer := Push(s.buffer, FragmentFor(s, payload, h.flags).value).0)
  }

  lemma CompletedDelivers(s: Session, wire: bytes)
    requires Completed(s, wire).Some?
    ensures AcceptFrameInner(s, wire) == Deliver(Completing(s, wire), Completed(s, wire).value)
  {
    hide DecodeFrame, DecodeFragment, Push, Deliver;
  }

  lemma {:induction false} CompletedFits(s: Session, wire: bytes)
    requires Sound(s) && Calm(s) && Completed(s, wire).Some?
    ensures 0 < |Completed(s, wire).value.body| <= s.broker.maxPdu
    ensures Sound(Completing(s, wire)) && Calm(Completing(s, wire)) && Completing(s, wire).phase == Running
  {
    hide DecodeFrame, DecodeFragment, Push, Sound, Bounded;
    var (h, payload) := DecodeFrame(wire).value;
    var f := FragmentFor(s, payload, h.flags).value;
    SoundBuffer(s);
    PushAccepted(s.buffer, f);
    PositiveLength(f);
    NumberedSound(s);
    var n := s.(nextRx := s.nextRx + 1);
    PushSound(n, f);
    CalmIsRx(s, Completing(s, wire));
  }

  lemma PositiveLength(f: Fragment)
    requires FragmentOk(f)
    ensures f.totalLength > 0
  {
  }

  lemma SoundBuffer(s: Session)
    requires Sound(s)
    ensures Bounded(s.buffer)
  {
    hide Core, E.Indexed, Bounded;
  }

  // ----------------------------------------------------------- what is answered

  /** A whole message finds room in the receive window, which is empty between calls. */
  predicate FindsRoom(s: Session, m: Message) {
    |m.body| <= s.broker.rxWindowBytes && s.broker.rxWindowPdus > 0
  }

  /** What a running session answers to a whole message, told from the state before its last frame. */
  function MessageVerdict(s: Session, m: Message): Result<()> {
    if !FindsRoom(s, m) then Err(WindowExhausted)
    else if Usbip.IsControl(m.body) then
      match s.role
      case Exporter =>
        var d := Usbip.DecodeRequest(m.body);
        if d.Err? then Err(d.error) else Ok(())
      case Importer =>
        var d := Usbip.DecodeReply(m.body);
        if d.Err? then Err(d.error) else Ok(())
    else
      var r := E.AcceptPdu(s.table, m.body).1;
      if r.Err? then Err(r.error) else Foretold(s, RepliesIn(r.value))
  }

  /** The message reaches the executor, and it takes it. */
  predicate ExecutorTakes(s: Session, m: Message) {
    FindsRoom(s, m) && !Usbip.IsControl(m.body) && E.AcceptPdu(s.table, m.body).1.Ok?
  }

  /** What the executor has made of a message it took: its part stands, and the replies that fit are out. */
  ghost predicate Stands(s: Session, s': Session, m: Message, r: Result<()>) {
    var (t, reported) := E.AcceptPdu(s.table, m.body);
    reported.Ok? &&
    var replies := RepliesIn(reported.value);
    && s'.table == t && s'.produced == s.produced + replies
    && (|s'.produced| <= CAPACITY && r != Err(SequenceError) ==> LeftInLine(s, s', replies))
  }

  // Nothing that has to do with transfers or replies moved.
  predicate Untouched(s: Session, s': Session) {
    s'.table == s.table && s'.produced == s.produced && s'.pending == s.pending && s'.sent == s.sent
  }

  lemma RoomInWindow(s: Session, n: nat)
    requires Sound(s) && Calm(s) && s.phase == Running && 0 < n <= s.broker.maxPdu
    ensures B.ReserveReceive(s.broker, n).1
         == if n <= s.broker.rxWindowBytes && s.broker.rxWindowPdus > 0 then Ok(()) else Err(WindowExhausted)
  {
    SoundRunning(s);
    CoreAgreed(s);
    hide Sound, Core;
  }

  lemma CoreAgreed(s: Session)
    requires Sound(s)
    ensures s.broker.maxInflight >= 1
  {
    SoundCore(s);
    CoreConfigured(s);
    hide Core, Sound;
  }

  // The receive window has no part in what is sent.
  lemma SameForetold(s: Session, a: Session, replies: seq<bytes>)
    requires a.broker == s.broker.(rx := a.broker.rx) && a.maxFragments == s.maxFragments && a.nextTx == s.nextTx
    requires a.pending == s.pending && a.produced == s.produced
    ensures Line(a, replies) == Line(s, replies) && Leaving(a, Line(s, replies)) == Leaving(s, Line(s, replies))
    ensures Foretold(a, replies) == Foretold(s, replies)
  {
    hide Longest, Answer, Leaving, Bodies;
    var line := Line(s, replies);
    var j := Leaving(a, line);
    SameWindow(s, a, line, j);
    LongestIsUnique(s, line, j, Leaving(s, line));
    LongestInside(s, line, j);
  }

  lemma SameLeft(s: Session, a: Session, h: Session, s': Session, replies: seq<bytes>)
    requires a.broker == s.broker.(rx := a.broker.rx) && a.maxFragments == s.maxFragments && a.nextTx == s.nextTx
    requires a.pending == s.pending && a.produced == s.produced && LeftInLine(a, h, replies)
    requires s' == h.(broker := s'.broker, phase := s'.phase, buffer := s'.buffer)
    requires s'.broker == h.broker.(rx := s.broker.rx)
    ensures LeftInLine(s, s', replies)
  {
    SameForetold(s, a, replies);
    hide Foretold, Leaving, Bodies, FrameCount;
  }

  lemma {:induction false} ControlVerdict(s: Session, a: Session, m: Message)
    requires Usbip.IsControl(m.body) && FindsRoom(s, m) && a.role == s.role
    ensures HandlePdu(a, m).1 == MessageVerdict(s, m) && Untouched(a, HandlePdu(a, m).0)
  {
    hide Usbip.IsControl, Usbip.DecodeRequest, Usbip.DecodeReply;
  }

  lemma AdmittingSame(s: Session, m: Message)
    ensures var a := Admitting(s, m);
      && a.broker == s.broker.(rx := a.broker.rx)
      && a == s.(broker := a.broker, received := s.received + [m])
  {
    hide B.ReserveReceive;
    Reserving(s.broker, |m.body|);
  }

  // Handing the executor a message, told from the state before the frame.
  lemma {:induction false} TransferVerdict(s: Session, a: Session, m: Message)
    requires Sound(a) && Kept(a) && a.phase == Running && |a.produced| <= CAPACITY && !Usbip.IsControl(m.body)
    requires a == s.(broker := a.broker, received := a.received, nextRx := a.nextRx, buffer := a.buffer)
    requires a.broker == s.broker.(rx := a.broker.rx) && FindsRoom(s, m)
    ensures var (h, r) := HandlePdu(a, m);
      && r == MessageVerdict(s, m)
      && (E.AcceptPdu(s.table, m.body).1.Err? ==> h == a)
      && (E.AcceptPdu(s.table, m.body).1.Ok? ==> Stands(a, h, m, r))
  {
    hide Sound, Kept, E.AcceptPdu, Executed, HandlePdu, Foretold, LeftInLine, RepliesIn, Usbip.IsControl;
    CallsAreActions(a, 0, E.CANCELLATION, 0, m);
    ExecutedForetold(a, R.Accept(m.body));
    var reported := E.AcceptPdu(s.table, m.body).1;
    if reported.Ok? {
      SameForetold(s, a, RepliesIn(reported.value));
    }
  }

  lemma {:induction false} StandsBefore(s: Session, a: Session, h: Session, s': Session, m: Message, r: Result<()>)
    requires a == s.(broker := a.broker, received := a.received, nextRx := a.nextRx, buffer := a.buffer)
    requires a.broker == s.broker.(rx := a.broker.rx) && Stands(a, h, m, r)
    requires s' == h.(broker := s'.broker, phase := s'.phase, buffer := s'.buffer)
    requires s'.broker == h.broker.(rx := s.broker.rx)
    ensures Stands(s, s', m, r)
  {
    hide E.AcceptPdu, LeftInLine, RepliesIn;
    var replies := RepliesIn(E.AcceptPdu(s.table, m.body).1.value);
    if LeftInLine(a, h, replies) {
      SameLeft(s, a, h, s', replies);
    }
  }

  // A whole message delivered, told from the state before the frame that completed it.
  lemma {:induction false} DeliveryForetold(s: Session, n: Session, m: Message)
    requires Sound(n) && Calm(n) && Kept(n) && n.phase == Running && |n.produced| <= CAPACITY
    requires n == s.(nextRx := n.nextRx, buffer := n.buffer) && 0 < |m.body| <= s.broker.maxPdu
    ensures var (s', r) := Deliver(n, m);
      && r == MessageVerdict(s, m)
      && s'.received == (if FindsRoom(s, m) then s.received + [m] else s.received)
      && (ExecutorTakes(s, m) ==> Stands(s, s', m, r))
      && (!ExecutorTakes(s, m) ==> Untouched(s, s'))
  {
    hide Sound, Kept, HandlePdu, Deliver, B.ReserveReceive, MessageVerdict, Stands, Usbip.IsControl, E.AcceptPdu;
    DeliverEffect(n, m);
    RoomInWindow(n, |m.body|);
    Unroomed(s, m);
    if FindsRoom(s, m) {
      var a := Admitting(n, m);
      AdmittingSame(n, m);
      AdmittingSound(n, m);
      SoundEarly(n);
      RxKept(n, a.broker, a.received);
      HandlingKeeps(a, m);
      HandledReceived(a, m);
      var (h, r) := HandlePdu(a, m);
      var s' := Deliver(n, m).0;
      if Usbip.IsControl(m.body) {
        ControlVerdict(s, a, m);
      } else {
        TransferVerdict(s, a, m);
        if E.AcceptPdu(s.table, m.body).1.Ok? {
          StandsBefore(s, a, h, s', m, r);
        }
      }
    }
  }

  lemma Unroomed(s: Session, m: Message)
    ensures !FindsRoom(s, m) ==> MessageVerdict(s, m) == Err(WindowExhausted)
  {
    hide Usbip.IsControl, Usbip.DecodeRequest, Usbip.DecodeReply, E.AcceptPdu, Foretold;
  }

  lemma {:induction false} HandledReceived(s: Session, m: Message)
    requires Sound(s) && s.phase == Running
    ensures HandlePdu(s, m).0.received == s.received
  {
    hide Sound, HandlePdu, LogGrows;
    HandlePduSound(s, m);
  }

  lemma NumberedKept(s: Session, n: Session)
    requires Sound(s) && Kept(s) && n == s.(nextRx := n.nextRx, buffer := n.buffer)
    ensures Kept(n)
  {
    hide Sound, Kept, Early, QuietStep;
    SoundEarly(s);
    InsideQuiet(s, n);
    QuietKept(s, n);
  }

  /**
   What accepting a frame answers and does, told from the state before it. A frame
   that completes a message answers what that message meets: no room in the receive
   window, the refusal of the control decoder or of the executor, or what sending
   the waiting replies answers, and any error leaves the session failed. A message
   the executor took stands even so. A frame that completes none moves no transfer
   and no reply.
   */
  lemma {:induction false} FrameForetold(s: Session, wire: bytes)
    requires Sound(s) && Calm(s) && Kept(s) && |s.produced| <= CAPACITY
    ensures var (s', r) := AcceptFrame(s, wire);
      match Completed(s, wire)
      case None => Untouched(s, s') && s'.received == s.received && (r.Err? ==> s'.phase == Failed)
      case Some(m) =>
        && r == MessageVerdict(s, m)
        && s'.phase == (if r.Ok? then Running else Failed)
        && s'.received == (if FindsRoom(s, m) then s.received + [m] else s.received)
        && (ExecutorTakes(s, m) ==> Stands(s, s', m, r))
        && (!ExecutorTakes(s, m) ==> Untouched(s, s'))
  {
    hide Sound, Calm, Kept, MessageVerdict, Stands, FindsRoom, ExecutorTakes, Completed, Completing, AcceptFrameInner,
         Deliver;
    if Completed(s, wire).Some? {
      var m, n := Completed(s, wire).value, Completing(s, wire);
      CompletedDelivers(s, wire);
      CompletedFits(s, wire);
      CompletingSame(s, wire);
      NumberedKept(s, n);
      DeliveryForetold(s, n, m);
      DeliverSound(n, m);
      StandsEnded(s, Deliver(n, m).0, AcceptFrame(s, wire).0, m, Deliver(n, m).1);
    } else {
      NotCompleted(s, wire);
    }
  }

  lemma CompletingSame(s: Session, wire: bytes)
    requires Completed(s, wire).Some?
    ensures var n := Completing(s, wire); n == s.(nextRx := n.nextRx, buffer := n.buffer)
  {
    hide DecodeFrame, FragmentFor, Push;
  }

  lemma StandsEnded(s: Session, m': Session, s': Session, m: Message, r: Result<()>)
    requires s' == m'.(phase := s'.phase, buffer := s'.buffer)
    ensures Stands(s, m', m, r) ==> Stands(s, s', m, r)
  {
    hide E.AcceptPdu, RepliesIn, Leaving, Bodies, FrameCount;
  }

  lemma {:induction false} NotCompleted(s: Session, wire: bytes)
    requires Completed(s, wire).None?
    ensures var (s', r) := AcceptFrameInner(s, wire); Untouched(s, s') && s'.received == s.received
  {
    hide DecodeFrame, DecodeFragment, Push, Deliver, DecodeCapability, DecodeOpen, B.CloseBroker;
  }

  // ------------------------------------------------- ended by its own replies

  /**
   Exactly when a message of the peer that the executor takes ends the session that
   received it: with room for the largest reply, and ids and numbers lasting, when
   the replies that fit bring the messages out to the number negotiated, and some
   are left. The transfer is admitted and told to the program even so.
   */
  lemma {:induction false} AdmittedMessageEndsSession(s: Session, wire: bytes)
    requires Sound(s) && Calm(s) && Kept(s) && AdmitsReplies(s)
    requires Completed(s, wire).Some? && ExecutorTakes(s, Completed(s, wire).value)
    requires var replies := RepliesIn(E.AcceptPdu(s.table, Completed(s, wire).value.body).1.value);
      && |s.produced| + |replies| <= CAPACITY && s.nextTx + FrameCount(Line(s, replies)) <= LAST
    ensures var m := Completed(s, wire).value;
      var (t, reported) := E.AcceptPdu(s.table, m.body);
      var line := Line(s, RepliesIn(reported.value));
      var (s', r) := AcceptFrame(s, wire);
      && (s'.phase == Failed <==> Leaving(s, line) < |line|
                                  && s.broker.tx.pdusInFlight + Leaving(s, line) == s.broker.maxInflight)
      && r == (if s'.phase == Failed then Err(LimitExceeded) else Ok(()))
      && s'.table == t
  {
    hide Sound, Calm, Kept, AdmitsReplies, Leaving, FrameCount, AcceptFrame, Foretold, RepliesIn, LeftInLine, Line,
         AllReplySized, E.AcceptPdu, R.Balanced, E.Indexed;
    var m := Completed(s, wire).value;
    var replies := RepliesIn(E.AcceptPdu(s.table, m.body).1.value);
    FrameForetold(s, wire);
    CompletedRuns(s, wire);
    SoundTable(s);
    ExecutorReports(s.table, R.Accept(m.body));
    FailsAtNegotiatedNumber(s, replies);
  }

  lemma CompletedRuns(s: Session, wire: bytes)
    requires Completed(s, wire).Some?
    ensures s.phase == Running
  {
    hide DecodeFrame, FragmentFor, Push;
  }

  lemma SoundTable(s: Session)
    requires Sound(s)
    ensures E.Indexed(s.table)
  {
    hide Core, E.Indexed;
  }
}
