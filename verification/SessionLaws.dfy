/** What a program that drives a session can rely on, over every run of calls. */
module SessionLaws {
  import opened Base
  import opened Wire
  import opened Reassembly
  import opened Session
  import opened Frames
  import opened Streams
  import opened Sending
  import opened Traffic
  import opened ReplyQueue
  import opened SessionCalls
  import opened SessionRuns
  import B = Broker
  import E = Execution
  import R = ExecutionRuns

  // -------------------------------------------------------- phases and history

  /** The direction of time: the same endpoint, no earlier phase, and no event unsaid. */
  ghost predicate Onward(s: Session, s': Session) {
    && s'.role == s.role && s'.hello == s.hello
    && GrowsInOrder(s.log, s'.log, s.phase, s'.phase)
  }

  lemma QuietOnward(s: Session, s': Session)
    requires QuietStep(s, s')
    ensures Onward(s, s')
  {
    hide Carried, IsClose;
  }

  lemma TrafficOnward(s: Session, t: E.Table, s': Session)
    requires OnlySent(s.(table := t), s') && (s.phase == Running || s'.log == s.log)
    ensures Onward(s, s') && s'.phase == s.phase
  {
    forall e | Carried(e)
      ensures !IsClose(e) && e != ClosedEvent
    {
      CarriedIsNotClose(e);
    }
    hide Carried, IsClose;
  }

  lemma {:induction false} ExecutedOnward(s: Session, op: R.Op)
    requires Sound(s) && s.phase == Running && R.Legal(s.table, op)
    ensures var (t, r) := R.Step(s.table, op); Onward(s, Executed(s, t, r).0) && Executed(s, t, r).0.phase == Running
  {
    hide Sound, R.Legal, R.Step, E.Indexed, Executed, OnlySent, Onward;
    var (t, r) := R.Step(s.table, op);
    SoundCore(s);
    ExecutorKeeps(s.table, op);
    ExecutedSound(s, t, r);
    TrafficOnward(s, t, Executed(s, t, r).0);
  }

  lemma {:induction false} DeliverOnward(s: Session, m: Message)
    requires Sound(s) && Calm(s) && s.phase == Running
    ensures Onward(s, Deliver(s, m).0)
  {
    hide Sound, HandlePdu, Deliver, B.ReserveReceive, OnlySent;
    DeliverEffect(s, m);
    AdmittingSound(s, m);
    if B.ReserveReceive(s.broker, |m.body|).1.Ok? {
      HandlePduSound(Admitting(s, m), m);
      TrafficOnward(Admitting(s, m), HandlePdu(Admitting(s, m), m).0.table, HandlePdu(Admitting(s, m), m).0);
    }
  }

  lemma {:induction false} ArriveOnward(s: Session, h: FrameHeader, payload: bytes)
    requires Sound(s) && Calm(s) && Receiving(s.phase)
    ensures Onward(s, Arrive(s, h, payload).0)
  {
    hide Sound, ArriveClose, ArriveCapability, ArriveOpen, ArriveReject, QuietStep, Deliver, Push, DecodeFragment;
    if h.messageType != UsbIpData {
      ArriveQuiet(s, h, payload);
      QuietOnward(s, Arrive(s, h, payload).0);
    } else if s.phase == Running && DecodeFragment(payload, h.flags).Ok? {
      var f := DecodeFragment(payload, h.flags).value;
      PushSound(s, f);
      var (b, r) := Push(s.buffer, f);
      if r.Ok? && r.value.Some? {
        DeliverOnward(s.(buffer := b), r.value.value);
      }
    }
  }

  lemma RankFailed(p: Phase)
    ensures Rank(p) <= Rank(Failed)
  {
  }

  lemma {:induction false} AcceptFrameOnward(s: Session, wire: bytes)
    requires Sound(s) && Calm(s)
    ensures Onward(s, AcceptFrame(s, wire).0)
  {
    hide Sound, DecodeFrame, Arrive;
    var d := DecodeFrame(wire);
    if Receiving(s.phase) && d.Ok? && NextSequence(s.nextRx).Ok? {
      NumberedSound(s);
      ArriveOnward(s.(nextRx := s.nextRx + 1), d.value.0, d.value.1);
    }
    RankFailed(s.phase);
  }

  // What a session says in one call, said in two parts while it runs.
  lemma OnwardTwice(s: Session, m: Session, s': Session)
    requires Onward(s, m) && Onward(m, s') && s.phase == Running && m.phase == Running
    requires forall i :: |s.log| <= i < |m.log| ==> !IsClose(m.log[i]) && m.log[i] != ClosedEvent
    ensures Onward(s, s')
  {
    hide Carried, IsClose;
    assert forall i :: 0 <= i < |m.log| ==> s'.log[i] == m.log[i];
  }

  // Answering everything pending says nothing of closing.
  lemma {:induction false} ShutOnward(s: Session, order: seq<u64>)
    requires Sound(s) && s.phase == Running && E.Lists(order, s.table.byToken.Keys)
    ensures var (t, events) := E.CloseAll(s.table, order);
      var m := HandleEvents(s.(table := t), events).0;
      && Sound(m) && m.phase == Running && Onward(s, m)
      && forall i :: |s.log| <= i < |m.log| ==> !IsClose(m.log[i]) && m.log[i] != ClosedEvent
  {
    hide Sound, E.CloseAll, E.Lists, HandleEvents, Onward, E.Indexed, Carried, IsClose;
    SoundCore(s);
    var (t, events) := E.CloseAll(s.table, order);
    CloseAllKeeps(s.table, order);
    ExecutedOnward(s, R.Shut(order));
    ExecutedSound(s, t, Ok(events));
    var m := HandleEvents(s.(table := t), events).0;
    assert Executed(s, t, Ok(events)).0 == m;
    forall i | |s.log| <= i < |m.log|
      ensures !IsClose(m.log[i]) && m.log[i] != ClosedEvent
    {
      CarriedIsNotClose(m.log[i]);
    }
  }

  lemma {:induction false} CloseOnward(s: Session, order: seq<u64>)
    requires Sound(s) && Calm(s) && (s.phase.Running? ==> E.Lists(order, s.table.byToken.Keys))
    ensures Onward(s, Close(s, order).0)
  {
    hide Sound, E.CloseAll, E.Lists, FinishClose, HandleEvents, QuietStep, Onward, IsClose;
    StillOnward(s);
    if s.phase.Running? {
      ShutOnward(s, order);
      var (t, events) := E.CloseAll(s.table, order);
      var (m, r) := HandleEvents(s.(table := t), events);
      if r.Ok? {
        FinishCloseQuiet(m);
        QuietOnward(m, FinishClose(m).0);
        OnwardTwice(s, m, FinishClose(m).0);
      }
    } else if !(s.phase.Closed? || s.phase.Failed?) {
      FinishCloseQuiet(s);
      QuietOnward(s, FinishClose(s).0);
    }
  }

  lemma {:induction false} SendingOnward(s: Session, m: Message, id: u64)
    requires Sound(s)
    ensures Onward(s, SendPdu(s, m).0) && Onward(s, AckOutput(s, id).0)
  {
    SoundCore(s);
    if s.phase == Running {
      hide Sound, Core, SendPdu, AckOutput, OnlySent, Onward, E.Indexed;
      assert s.(table := s.table) == s;
      SendCore(s, m);
      TrafficOnward(s, s.table, SendPdu(s, m).0);
      AckCore(s, id);
      TrafficOnward(s, s.table, AckOutput(s, id).0);
    } else {
      IdleAck(s, id);
      hide Sound, Core, AckOutput, Onward, E.Indexed, B.AckSend;
      StillOnward(s);
      SideOnward(s, AckOutput(s, id).0);
    }
  }

  lemma SideOnward(s: Session, s': Session)
    requires s' == s.(reservations := s'.reservations, broker := s'.broker)
    ensures Onward(s, s')
  {
    hide Carried, IsClose;
  }

  lemma StillOnward(s: Session)
    ensures Onward(s, s)
  {
  }

  lemma {:induction false} TransferOnward(s: Session, token: u64, c: E.Completion, status: i32)
    requires Sound(s)
    ensures Onward(s, CompleteTransfer(s, token, c).0) && Onward(s, CompleteCancel(s, token, status).0)
  {
    hide Sound, E.Complete, E.CompleteCancel, Executed, E.Lists, Onward;
    StillOnward(s);
    if s.phase == Running {
      ExecutedOnward(s, R.Finish(token, c));
      ExecutedOnward(s, R.Cancel(token, status));
    }
  }

  lemma {:induction false} QuietCallOnward(s: Session, c: Call)
    requires Sound(s)
    requires SetsUp(c)
    ensures Onward(s, Step(s, c).0)
  {
    hide Sound, QuietStep, Onward, Start, AcceptHello, SendCapability, SendOpen, SendOpenOk, SendOpenReject;
    match c {
      case CallSendCapability(capability) => SendCapabilityQuiet(s, capability);
      case CallSendOpen => SendOpenQuiet(s);
      case CallSendOpenOk => SendOpenOkQuiet(s);
      case CallSendOpenReject(status) => SendOpenRejectQuiet(s, status);
      case _ => HandshakeQuiet(s, c);
    }
    QuietOnward(s, Step(s, c).0);
  }

  /** No call takes a session back to an earlier phase, changes who it is, or unsays an event. */
  lemma {:induction false} PhasesNeverGoBack(s: Session, c: Call)
    requires Sound(s) && Calm(s) && Legal(s, c)
    ensures Onward(s, Step(s, c).0)
  {
    match c
    case CallAcceptFrame(wire) =>
      hide Sound, AcceptFrame, Calm, Onward;
      AcceptFrameOnward(s, wire);
    case CallClose(order) =>
      hide Sound, Close, Calm, E.Lists, Onward;
      CloseOnward(s, order);
    case CallSendPdu(m) =>
      hide Sound, SendPdu, Calm, Onward;
      SendingOnward(s, m, 0);
    case CallAckOutput(id) =>
      hide Sound, AckOutput, Calm, Onward;
      SendingOnward(s, Message(0, []), id);
    case CallComplete(token, completion) =>
      hide Sound, CompleteTransfer, Calm, Onward;
      TransferOnward(s, token, completion, 0);
    case CallCancel(token, status) =>
      hide Sound, CompleteCancel, Calm, Onward;
      TransferOnward(s, token, E.CANCELLATION, status);
    case _ =>
      hide Sound, Step, Calm, Onward;
      QuietCallOnward(s, c);
  }

  lemma MadeOrdered(s: Session)
    requires Made(s)
    ensures Ordered(s.log, s.phase)
  {
    hide Carried, IsClose;
  }

  lemma OrderedOnward(s: Session, s': Session)
    requires Ordered(s.log, s.phase) && Onward(s, s')
    ensures Ordered(s'.log, s'.phase)
  {
    hide Ordered, GrowsInOrder;
    OrderedGrows(s.log, s'.log, s.phase, s'.phase);
  }

  /**
   In every history traffic comes only after the session opened, and CLOSED comes
   at most once, last of all. The endpoint stays who it was.
   */
  lemma {:induction false} TrafficOnlyWhileOpen(s: Session, calls: seq<Call>)
    requires Made(s) && LegalRun(s, calls)
    ensures Ordered(After(s, calls).log, After(s, calls).phase)
    ensures After(s, calls).role == s.role && After(s, calls).hello == s.hello
  {
    hide Sound, Calm, Step, Legal, Made, Ordered, GrowsInOrder;
    if calls == [] {
      MadeOrdered(s);
    } else {
      var front := calls[..|calls| - 1];
      TrafficOnlyWhileOpen(s, front);
      AlwaysSound(s, front);
      PhasesNeverGoBack(After(s, front), calls[|calls| - 1]);
      OrderedOnward(After(s, front), After(s, calls));
    }
  }

  /**
   A session that closed or failed has ended: no call makes it say, send, receive
   or answer anything more. Between the two it may still move from closed to failed.
   */
  lemma EndedStaysEnded(s: Session, c: Call)
    requires s.phase.Closed? || s.phase.Failed?
    ensures var s' := Step(s, c).0;
      && (s'.phase.Closed? || s'.phase.Failed?)
      && s'.log == s.log && s'.sent == s.sent && s'.received == s.received && s'.produced == s.produced
      && s'.table == s.table
    ensures c.CallAcceptFrame? ==> Step(s, c).0.phase == Failed
  {
    hide B.AckSend, DecodeFrame;
    if c.CallAckOutput? {
      IdleAck(s, c.reservation);
    }
  }

  /** Over any further calls: what an ended session has not answered it never will. */
  lemma {:induction false} EndedForGood(s: Session, calls: seq<Call>)
    requires s.phase.Closed? || s.phase.Failed?
    ensures var s' := After(s, calls);
      && (s'.phase.Closed? || s'.phase.Failed?)
      && s'.log == s.log && s'.sent == s.sent && s'.received == s.received && s'.produced == s.produced
      && s'.table == s.table
  {
    hide Step;
    if calls != [] {
      EndedForGood(s, calls[..|calls| - 1]);
      EndedStaysEnded(After(s, calls[..|calls| - 1]), calls[|calls| - 1]);
    }
  }

  // ------------------------------------------------------------ what is sent

  lemma RunHello(s: Session, calls: seq<Call>)
    requires Made(s) && LegalRun(s, calls)
    ensures After(s, calls).hello == s.hello
  {
    hide Made, Step, LogGrows, Ordered;
    TrafficOnlyWhileOpen(s, calls);
  }

  /**
   The frames ever sent are numbered 1, 2, 3 and so on without a gap, each one
   decodes, carries the session's token, and has a valid payload with its tokens.
   */
  lemma NumbersHaveNoGap(s: Session, calls: seq<Call>)
    requires Made(s) && LegalRun(s, calls)
    ensures var frames := FramesIn(After(s, calls).log);
      && |frames| + 1 == After(s, calls).nextTx
      && forall i :: 0 <= i < |frames| ==> Faithful(frames[i], s.hello, i + 1)
  {
    AlwaysSound(s, calls);
    RunHello(s, calls);
    hide Faithful, FramesIn, Configured, InStep, Windowed, After, E.Indexed;
  }

  /**
   Reading the frames back gives exactly the messages sent, in order, and nothing
   is left half-read while sequence numbers last.
   */
  lemma SentIsReadable(s: Session, calls: seq<Call>)
    requires Made(s) && LegalRun(s, calls)
    ensures InStep(FramesIn(After(s, calls).log), After(s, calls).sent, After(s, calls).nextTx)
  {
    AlwaysSound(s, calls);
    hide InStep, FramesIn, Configured, GapFree, Windowed, After, E.Indexed;
  }

  // ------------------------------------------------------------ windows

  /**
   While established, the window counts exactly the messages out and their bytes,
   within what was agreed, and the receive window is empty between calls.
   */
  lemma WindowsAreConserved(s: Session, calls: seq<Call>)
    requires Made(s) && LegalRun(s, calls) && After(s, calls).broker.state == B.Established
    ensures Conserved(After(s, calls)) && After(s, calls).broker.rx == B.NOTHING
  {
    AlwaysSound(s, calls);
    hide Conserved, FramesIn, Configured, Outgoing, After, E.Indexed;
  }

  // Draining takes no id that is neither out nor waiting.
  lemma {:induction false} DrainLeaves(s: Session, id: u64)
    requires Core(s) && id !in s.reservations && forall i :: 0 <= i < |s.pending| ==> s.pending[i].id != id
    ensures id !in Drain(s).0.reservations
    decreases |s.pending|
  {
    hide Core, SendPdu, LogGrows;
    if s.pending != [] {
      var m, r := SendPdu(s, s.pending[0]).0, SendPdu(s, s.pending[0]).1;
      SendCore(s, s.pending[0]);
      if r.Ok? {
        SentHolds(s, s.pending[0]);
        assert m.pending == s.pending;
        PopCore(m);
        DrainLeaves(Popped(m), id);
      } else {
        RefusedKeepsOut(s, s.pending[0]);
      }
    }
  }

  lemma {:induction false} SentHolds(s: Session, m: Message)
    requires Core(s) && SendPdu(s, m).1.Ok?
    ensures SendPdu(s, m).0.reservations == s.reservations[m.id := |m.body|]
  {
    CoreConfigured(s);
    SendOutcomes(s, m);
    hide FragmentOk, Pieces, PieceEvents, SendPdu, Core, Configured, Fits;
  }

  lemma WaitingAbove(s: Session, id: u64)
    requires Ledger(s) && |s.produced| <= CAPACITY && id in s.reservations
    ensures forall i :: 0 <= i < |s.pending| ==> s.pending[i].id != id
  {
    hide RepliesAmong;
    forall i | 0 <= i < |s.pending|
      ensures s.pending[i].id != id
    {
      assert (RepliesAmong(s.sent) + s.pending)[|RepliesAmong(s.sent)| + i] == s.pending[i];
    }
  }

  /** A message is acknowledged once: its share of the window comes back, and a second time there is nothing to find. */
  lemma {:induction false} AcknowledgedOnce(s: Session, id: u64)
    requires Sound(s) && Kept(s) && |s.produced| <= CAPACITY && id != 0 && id in s.reservations
    requires s.broker.state == B.Established
    ensures B.AckSend(s.broker, s.reservations[id]).1.Ok?
    ensures Conserved(Released(s, id)) && AckOutput(s, id) == Drain(Released(s, id))
    ensures AckOutput(AckOutput(s, id).0, id).1 == Err(NotFound)
  {
    SoundCore(s);
    ReleaseCore(s, id);
    assert Conserved(s);
    hide Sound, Core, B.AckSend, Drain, Conserved, LogGrows, NoStall, Answering, Sized, Ledger;
    ReleaseConserved(s, id);
    WaitingAbove(s, id);
    DrainLeaves(Released(s, id), id);
  }

  // ------------------------------------------------------------ replies

  function Bodies(ms: seq<Message>): (b: seq<bytes>)
    ensures |b| == |ms|
  {
    seq(|ms|, i requires 0 <= i < |ms| => ms[i].body)
  }

  lemma BodiesConcat(a: seq<Message>, b: seq<Message>)
    ensures Bodies(a + b) == Bodies(a) + Bodies(b)
  {
  }

  lemma BodiesOfQueue(first: u64, bodies: seq<bytes>)
    requires first + |bodies| <= U64_MAX
    ensures Bodies(Queue(first, bodies)) == bodies
  {
  }

  lemma LedgerBodies(s: Session)
    requires Ledger(s) && |s.produced| <= CAPACITY
    ensures Bodies(RepliesAmong(s.sent)) + Bodies(s.pending) == s.produced
  {
    hide RepliesAmong, Bodies, Queue, Spent;
    BodiesConcat(RepliesAmong(s.sent), s.pending);
    BodiesOfQueue(FIRST_INTERNAL, s.produced);
  }

  /**
   Replies are conserved under back-pressure: after any calls, failed ones
   included, those sent followed by those waiting are those produced, in order.
   */
  lemma RepliesAreConserved(s: Session, calls: seq<Call>)
    requires Made(s) && LegalRun(s, calls) && PoliteRun(calls) && |After(s, calls).produced| <= CAPACITY
    ensures var s' := After(s, calls);
      Bodies(RepliesAmong(s'.sent)) + Bodies(s'.pending) == s'.produced
  {
    hide RepliesAmong, After, Bodies, NoStall, Answering, Sized, Ledger, LegalRun, Made;
    AlwaysKept(s, calls);
    LedgerBodies(After(s, calls));
  }

  /**
   Every transfer handed to the platform is, number by number, either still
   pending or answered by exactly one RET_SUBMIT, sent or waiting to be sent.
   */
  lemma EveryTransferIsAnsweredOnce(s: Session, calls: seq<Call>)
    requires Made(s) && LegalRun(s, calls) && PoliteRun(calls) && |After(s, calls).produced| <= CAPACITY
    ensures var s' := After(s, calls);
      multiset(SubmitsIn(s'.log))
      == multiset(AnswersIn(Bodies(RepliesAmong(s'.sent)))) + multiset(AnswersIn(Bodies(s'.pending)))
         + multiset(s'.table.bySeqnum.Keys)
  {
    AlwaysKept(s, calls);
    RepliesAreConserved(s, calls);
    hide RepliesAmong, After, NoStall, Sized, Ledger, AnswersIn, SubmitsIn, Bodies;
    var s' := After(s, calls);
    AnswersConcat(Bodies(RepliesAmong(s'.sent)), Bodies(s'.pending));
  }

  /**
   When the RET_SUBMIT of every transfer handed over has really been sent, once each:
   exactly when no transfer is pending and no RET_SUBMIT waits.
   */
  lemma EveryAnswerIsSentWhenNoneWaits(s: Session, calls: seq<Call>)
    requires Made(s) && LegalRun(s, calls) && PoliteRun(calls) && |After(s, calls).produced| <= CAPACITY
    ensures var s' := After(s, calls);
      multiset(SubmitsIn(s'.log)) == multiset(AnswersIn(Bodies(RepliesAmong(s'.sent))))
      <==> AnswersIn(Bodies(s'.pending)) == [] && s'.table.bySeqnum == map[]
  {
    hide RepliesAmong, After, AnswersIn, SubmitsIn, Bodies, Made, LegalRun, PoliteRun;
    EveryTransferIsAnsweredOnce(s, calls);
    var s' := After(s, calls);
    NoneLeft(AnswersIn(Bodies(s'.pending)), s'.table.bySeqnum.Keys, multiset(AnswersIn(Bodies(RepliesAmong(s'.sent)))));
    assert s'.table.bySeqnum.Keys == {} <==> s'.table.bySeqnum == map[];
  }

  lemma NoneLeft(waiting: seq<u32>, live: set<u32>, answered: multiset<u32>)
    ensures answered + multiset(waiting) + multiset(live) == answered <==> waiting == [] && live == {}
  {
    assert |answered + multiset(waiting) + multiset(live)| == |answered| + |waiting| + |live|;
  }

  // The session after acknowledging one message after another.
  function Acked(s: Session, ids: seq<u64>): Session {
    if ids == [] then s else AckOutput(Acked(s, ids[..|ids| - 1]), ids[|ids| - 1]).0
  }

  // Each message acknowledged was out at its turn.
  ghost predicate AllOut(s: Session, ids: seq<u64>) {
    ids == [] ||
    (AllOut(s, ids[..|ids| - 1]) && ids[|ids| - 1] in Acked(s, ids[..|ids| - 1]).reservations)
  }

  lemma {:induction false} OneAckNearer(s: Session, id: u64)
    requires Sound(s) && Calm(s) && Kept(s) && s.phase == Running && id in s.reservations
    ensures var s' := AckOutput(s, id).0;
      && Sound(s') && Calm(s') && Kept(s') && s'.phase == Running
      && Owing(s') < Owing(s) && s'.produced == s.produced && AdmitsReplies(s') == AdmitsReplies(s)
  {
    SoundRunning(s);
    assert Conserved(s);
    AckOutputSound(s, id);
    AckOutputKept(s, id);
    hide Sound, Kept, Core, AckOutput, LogGrows, AdmitsReplies;
    AckCore(s, id);
    OnlySentAdmits(s, AckOutput(s, id).0);
    AckOwing(s, id);
  }

  lemma {:induction false} AcksComeNearer(s: Session, ids: seq<u64>)
    requires Sound(s) && Calm(s) && Kept(s) && s.phase == Running && AllOut(s, ids)
    ensures var s' := Acked(s, ids);
      && Sound(s') && Calm(s') && Kept(s') && s'.phase == Running
      && |ids| + Owing(s') <= Owing(s) && s'.produced == s.produced && AdmitsReplies(s') == AdmitsReplies(s)
  {
    hide Sound, Kept, Calm, AckOutput, AdmitsReplies, Owing;
    if ids != [] {
      var n := |ids| - 1;
      AcksComeNearer(s, ids[..n]);
      OneAckNearer(Acked(s, ids[..n]), ids[n]);
    }
  }

  // With nothing out and numbers left, nothing waits.
  lemma NothingLeft(s: Session)
    requires Kept(s) && s.phase == Running && AdmitsReplies(s) && |s.produced| <= CAPACITY && s.nextTx < LAST
    ensures s.pending != [] ==> s.reservations != map[]
    ensures s.reservations == map[] ==> s.pending == [] && Bodies(RepliesAmong(s.sent)) == s.produced
  {
    hide AdmitsReplies, Sized, Answering, RepliesAmong, Ledger;
    LedgerBodies(s);
    if s.reservations == map[] {
      assert Bodies(RepliesAmong(s.sent)) + Bodies([]) == Bodies(RepliesAmong(s.sent));
    }
  }

  /**
   Replies never get stuck. However a running session came about and in whatever
   order its messages are acknowledged, at most 2 * waiting + out acknowledgements
   are possible; while a reply waits one more is; and when none is left every
   reply produced has been sent. This needs room for the largest reply, ids and
   sequence numbers to last, and caller ids kept apart from internal ones.
   */
  lemma {:induction false} AcknowledgingDrains(s: Session, calls: seq<Call>, ids: seq<u64>)
    requires Made(s) && LegalRun(s, calls) && PoliteRun(calls)
    requires var r := After(s, calls);
      r.phase == Running && AdmitsReplies(r) && |r.produced| <= CAPACITY && AllOut(r, ids)
    ensures var r := After(s, calls);
      var s' := Acked(r, ids);
      && |ids| <= 2 * |r.pending| + |r.reservations|
      && (s'.nextTx < LAST && s'.pending != [] ==> s'.reservations != map[])
      && (s'.nextTx < LAST && s'.reservations == map[] ==>
            s'.pending == [] && Bodies(RepliesAmong(s'.sent)) == r.produced)
  {
    hide Sound, Calm, Kept, After, LegalRun, Made, PoliteRun, AllOut, Acked, AdmitsReplies, RepliesAmong, Bodies;
    AlwaysSound(s, calls);
    AlwaysKept(s, calls);
    var r := After(s, calls);
    AcksComeNearer(r, ids);
    if Acked(r, ids).nextTx < LAST {
      NothingLeft(Acked(r, ids));
    }
  }
}
