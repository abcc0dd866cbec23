/**
 Runs that show what can go wrong: a HELLO refused, a session filled to the number
 negotiated, one ended by its own replies, and one that closes without answering.
 */
module Witnesses {
  import opened Base
  import opened Wire
  import opened Reassembly
  import opened Session
  import opened Frames
  import opened Traffic
  import opened ReplyQueue
  import opened SessionCalls
  import opened SessionRuns
  import opened SessionLaws
  import opened Outcomes
  import opened Receipts
  import opened Closing
  import opened Scenario
  import B = Broker
  import E = Execution
  import L = ExecutionLaws
  import R = ExecutionRuns
  import Pdu
  import Usbip

  // ------------------------------------------------------------ a refused HELLO

  const REFUSED: seq<Call> := [CallStart, CallAcceptHello([]), CallClose([]), CallClose([])]

  lemma StartsNew(s: Session)
    requires Made(s)
    ensures s.log == [] && Start(s).1.Ok?
    ensures var b := s.broker.(state := B.HelloSent);
      Start(s).0 == Log(s.(broker := b, phase := AwaitHello), OutputHello(B.PutHello(s.hello)))
  {
    hide B.PutHello;
  }

  lemma RefusesNothing(s: Session)
    requires Made(s)
    ensures var a := Start(s).0; AcceptHello(a, []) == (a.(broker := a.broker.(state := B.Failed)), Err(Malformed))
  {
    hide B.PutHello;
    StartsNew(s);
    assert Start(s).0.broker.nonceConsumed == false;
  }

  /**
   From any session as made: starting it, handing it an empty HELLO and closing it
   twice puts two CLOSE frames on the wire, one after the other, and leaves it closing.
   */
  lemma {:induction false} RefusedHelloClosesTwice(s: Session)
    requires Made(s)
    ensures LegalRun(s, REFUSED)
    ensures var z := After(s, REFUSED);
      && z.log == [OutputHello(B.PutHello(s.hello)),
                   OutputFrame(0, CloseFrame(s.hello, 1)), OutputFrame(0, CloseFrame(s.hello, 2))]
      && IsClose(z.log[1]) && IsClose(z.log[2]) && z.phase == Closing
  {
    hide Made, Start, AcceptHello, Close, After, LegalRun, IsClose, CloseFrame, Sound, Calm, E.Lists, B.PutHello;
    StartsNew(s);
    RefusesNothing(s);
    NewNumbers(s);
    NoCalls(s);
    OneMoreCall(s, [], CallStart);
    assert [] + [CallStart] == [CallStart];
    OneMoreCall(s, [CallStart], CallAcceptHello([]));
    assert [CallStart] + [CallAcceptHello([])] == [CallStart, CallAcceptHello([])];
    var b := After(s, [CallStart, CallAcceptHello([])]);
    AlwaysSound(s, [CallStart, CallAcceptHello([])]);
    FailedBrokerClosesAgain(b);
    OneMoreCall(s, [CallStart, CallAcceptHello([])], CallClose([]));
    assert [CallStart, CallAcceptHello([])] + [CallClose([])] == [CallStart, CallAcceptHello([]), CallClose([])];
    var c := After(s, [CallStart, CallAcceptHello([]), CallClose([])]);
    AlwaysSound(s, [CallStart, CallAcceptHello([]), CallClose([])]);
    FailedBrokerClosesAgain(c);
    OneMoreCall(s, [CallStart, CallAcceptHello([]), CallClose([])], CallClose([]));
    assert [CallStart, CallAcceptHello([]), CallClose([])] + [CallClose([])] == REFUSED;
  }

  lemma NewNumbers(s: Session)
    requires Made(s)
    ensures s.nextTx == 1
  {
  }

  // -------------------------------------------------- a session filled to the number negotiated

  // Nothing more goes out once as many messages are out as negotiated.
  lemma NothingLeaves(s: Session, replies: seq<bytes>)
    requires s.broker.tx.pdusInFlight == s.broker.maxInflight && s.nextTx <= LAST && Line(s, replies) != []
    ensures Foretold(s, replies) == Err(LimitExceeded)
  {
    var bodies := Line(s, replies);
    assert !Goes(s, bodies, 0);
    LongestIsUnique(s, bodies, 0, Leaving(s, bodies));
    hide Goes, Leaving;
    NoFrames(bodies[..0]);
  }

  lemma FinishesTiny(n: Limit, t: E.Table)
    requires t == Admitted(n)
    ensures E.ValidateCompletion(t, 1, 0, 0) == Ok(true)
    ensures E.Complete(t, 1, L.DONE).0.byToken == map[] && |E.Complete(t, 1, L.DONE).0.bySeqnum| == 0
    ensures E.Complete(t, 1, L.DONE).1.Ok? && |RepliesIn(E.Complete(t, 1, L.DONE).1.value)| == 1
  {
    hide Pdu.PutSubmitReply;
    assert t.byToken - {1} == map[];
    assert t.bySeqnum - {1} == map[];
    var events := E.Complete(t, 1, L.DONE).1.value;
    assert events[1..] == [];
  }

  /** What a session filled to the number negotiated answers, and what stands nonetheless. */
  ghost predicate Refuses(s: Session) {
    var (s', r) := CompleteTransfer(s, 1, L.DONE);
    var (z, q) := Close(s', []);
    && s.phase == Running && AdmitsReplies(s) && E.ValidateCompletion(s.table, 1, 0, 0) == Ok(true)
    && r == Err(LimitExceeded)
    && s'.table.byToken == map[] && |s'.produced| == 1 && Bodies(s'.pending) == s'.produced
    && q == Err(LimitExceeded) && z.phase == Running && !SaidClose(z.log)
  }

  /**
   A run from a session as made shows two failures at once. With one message out
   and one negotiated, completing the one pending transfer is refused, and yet it is
   settled and its reply waits; closing then is refused too, and the session runs on.
   */
  lemma {:induction false} FullSessionRefuses()
    ensures var run := ToOnePending(1);
      Made(Fresh(1)) && LegalRun(Fresh(1), run) && PoliteRun(run) && Refuses(After(Fresh(1), run))
  {
    hide Made, After, LegalRun, Sound, Calm, Kept, ToOnePending, Fresh, Ordered, OneMessageOut, Refuses, PoliteRun,
         Admitted;
    RunsToOnePending(1);
    var run := ToOnePending(1);
    AlwaysSound(Fresh(1), run);
    AlwaysKept(Fresh(1), run);
    TrafficOnlyWhileOpen(Fresh(1), run);
    RefusesBoth(After(Fresh(1), run));
  }

  lemma {:induction false} RefusesBoth(s: Session)
    requires Sound(s) && Calm(s) && Kept(s) && Ordered(s.log, s.phase) && OneMessageOut(s, 1, Admitted(1), 3)
    ensures Refuses(s)
  {
    hide Sound, Calm, Kept, Ordered, OneMessageOut, Admitted, CompleteTransfer, Close, E.ValidateCompletion, SaidClose,
         Bodies, AdmitsReplies, GrowsInOrder;
    CompletesFull(s);
    var c := CallComplete(1, L.DONE);
    CompleteStep(s);
    CallSound(s, c);
    CallKept(s, c);
    PhasesNeverGoBack(s, c);
    OrderedOnward(s, CompleteTransfer(s, 1, L.DONE).0);
    ClosesFull(CompleteTransfer(s, 1, L.DONE).0);
  }

  lemma CompleteStep(s: Session)
    ensures Legal(s, CallComplete(1, L.DONE))
    ensures Step(s, CallComplete(1, L.DONE)) == CompleteTransfer(s, 1, L.DONE)
  {
    hide CompleteTransfer;
  }

  // With its one place taken, the session cannot say that the transfer is done.
  lemma {:induction false} CompletesFull(s: Session)
    requires Sound(s) && Kept(s) && OneMessageOut(s, 1, Admitted(1), 3)
    ensures var (s', r) := CompleteTransfer(s, 1, L.DONE);
      && s.phase == Running && AdmitsReplies(s) && E.ValidateCompletion(s.table, 1, 0, 0) == Ok(true)
      && r == Err(LimitExceeded) && s'.table.byToken == map[]
      && |s'.produced| == 1 && Bodies(s'.pending) == s'.produced
      && s'.phase == Running && s'.broker.tx.pdusInFlight == s'.broker.maxInflight && s'.nextTx <= LAST
  {
    hide Sound, Kept, E.Complete, E.ValidateCompletion, CompleteTransfer, RepliesIn, AdmitsReplies, Foretold,
         LeftInLine, Line, Admitted;
    FinishesTiny(1, s.table);
    RoomForReplies(s);
    var replies := RepliesIn(E.Complete(s.table, 1, L.DONE).1.value);
    CompletionStands(s, 1, L.DONE);
    OnlyReplies(s, replies);
    NothingLeaves(s, replies);
    LeavesNone(s, CompleteTransfer(s, 1, L.DONE).0, replies);
    TransferStays(s, 1, L.DONE, 0);
  }

  lemma RoomForReplies(s: Session)
    requires OneMessageOut(s, 1, Admitted(1), 3)
    ensures AdmitsReplies(s)
  {
  }

  lemma OnlyReplies(s: Session, replies: seq<bytes>)
    requires s.pending == []
    ensures Line(s, replies) == replies
  {
  }

  lemma LeavesNone(s: Session, s': Session, replies: seq<bytes>)
    requires s.broker.tx.pdusInFlight == s.broker.maxInflight && Line(s, replies) != [] && s.nextTx <= LAST
    requires LeftInLine(s, s', replies)
    ensures Bodies(s'.pending) == Line(s, replies)
    ensures s'.broker.tx.pdusInFlight == s'.broker.maxInflight && s'.nextTx == s.nextTx
  {
    var bodies := Line(s, replies);
    assert !Goes(s, bodies, 0);
    LongestIsUnique(s, bodies, 0, Leaving(s, bodies));
    hide Goes, Leaving;
    NoFrames(bodies[..0]);
  }

  // Nor that it closes.
  lemma {:induction false} ClosesFull(s: Session)
    requires Sound(s) && Kept(s) && s.phase == Running && Ordered(s.log, s.phase) && |s.produced| == 1
    requires s.table.byToken == map[] && Bodies(s.pending) == s.produced
    requires s.broker.tx.pdusInFlight == s.broker.maxInflight && s.nextTx <= LAST
    ensures var (z, q) := Close(s, []);
      q == Err(LimitExceeded) && z.phase == Running && !SaidClose(z.log)
  {
    hide Sound, Kept, Ordered, SaidClose, Close, Foretold, Bodies;
    assert E.Lists([], s.table.byToken.Keys);
    CloseForetold(s, []);
    assert LastReplies(s, []) == [];
    NothingLeaves(s, []);
  }

  // ------------------------------------------- a session ended by its own replies

  // The run goes on: the transfer is completed, and the same SUBMIT comes again.
  function ToOneWaiting(): seq<Call> {
    ToOnePending(1) + [CallComplete(1, L.DONE)]
  }

  /** The session once the reply waits, as far as the next frame is concerned. */
  predicate OneWaiting(s: Session) {
    && s.phase == Running && s.hello == HelloFor(1) && s.nextRx == 3 && s.buffer == Empty(4096, 16)
    && s.broker == AgreedBroker(1).(tx := s.broker.tx, rx := s.broker.rx) && s.broker.tx.pdusInFlight == 1
    && s.table == E.Complete(Admitted(1), 1, L.DONE).0 && s.pending != [] && |s.produced| == 1 && s.nextTx <= LAST
  }

  /**
   A conforming peer's SUBMIT ends the session that takes it. In the full session a
   reply waits; the next SUBMIT is admitted under token 2 and told to the program,
   accepting its frame answers LimitExceeded, and the transfer can never be completed.
   */
  ghost predicate EndedByOwnReplies(s: Session, z: Session) {
    && s.phase == Running && AcceptFrame(s, SubmitFrame(3)) == (z, Err(LimitExceeded)) && z.phase == Failed
    && z.table.byToken == map[2 := 1] && z.table.bySeqnum.Keys == {1}
    && multiset(SubmitsIn(z.log)) == multiset(SubmitsIn(s.log)) + multiset{1}
    && forall c: E.Completion :: CompleteTransfer(z, 2, c) == (z, Err(InvalidState))
  }

  lemma {:induction false} FrameEndsFullSession()
    ensures var run := ToOneWaiting() + [CallAcceptFrame(SubmitFrame(3))];
      && Made(Fresh(1)) && LegalRun(Fresh(1), run) && PoliteRun(run)
      && EndedByOwnReplies(After(Fresh(1), ToOneWaiting()), After(Fresh(1), run))
  {
    hide Made, After, LegalRun, Sound, Calm, Kept, Fresh, PoliteRun, Step, Legal, AcceptFrame, SubmitFrame, OneWaiting,
         EndedByOwnReplies, ToOneWaiting;
    RunsToOneWaiting();
    var run := ToOneWaiting();
    var s, c := After(Fresh(1), run), CallAcceptFrame(SubmitFrame(3));
    FrameStep(s, SubmitFrame(3));
    OneMoreCall(Fresh(1), run, c);
    PoliteMore(run, c);
    AlwaysSound(Fresh(1), run);
    AlwaysKept(Fresh(1), run);
    AlwaysKept(Fresh(1), run + [c]);
    WaitingEnds(s);
  }

  lemma PoliteMore(run: seq<Call>, c: Call)
    requires PoliteRun(run) && Polite(c)
    ensures PoliteRun(run + [c])
  {
    hide Polite;
  }

  lemma {:induction false} RunsToOneWaiting()
    ensures Made(Fresh(1)) && LegalRun(Fresh(1), ToOneWaiting()) && PoliteRun(ToOneWaiting())
    ensures OneWaiting(After(Fresh(1), ToOneWaiting()))
  {
    hide Made, After, LegalRun, Sound, Calm, Kept, ToOnePending, Fresh, OneMessageOut, PoliteRun, Admitted, Step, Legal,
         CompleteTransfer, OneWaiting;
    RunsToOnePending(1);
    var run, c := ToOnePending(1), CallComplete(1, L.DONE);
    var s := After(Fresh(1), run);
    CompleteStep(s);
    OneMoreCall(Fresh(1), run, c);
    PoliteMore(run, c);
    AlwaysSound(Fresh(1), run);
    AlwaysKept(Fresh(1), run);
    CompletesFull(s);
    CompletesWaiting(s);
  }

  lemma {:induction false} CompletesWaiting(s: Session)
    requires Sound(s) && OneMessageOut(s, 1, Admitted(1), 3)
    requires var s' := CompleteTransfer(s, 1, L.DONE).0;
      |s'.produced| == 1 && Bodies(s'.pending) == s'.produced && s'.phase == Running
      && s'.broker.tx.pdusInFlight == s'.broker.maxInflight && s'.nextTx <= LAST
    requires E.ValidateCompletion(s.table, 1, 0, 0) == Ok(true)
    ensures OneWaiting(CompleteTransfer(s, 1, L.DONE).0)
  {
    hide Sound, Core, E.Complete, HandleEvents, LogGrows, Admitted, E.Indexed, R.Balanced, RepliesIn, AllReplySized;
    var (t, r) := E.Complete(s.table, 1, L.DONE);
    SoundRunning(s);
    FinishesTiny(1, s.table);
    ExecutorReports(s.table, R.Finish(1, L.DONE));
    BalancedKeeps(s.table, t, r.value);
    TableSound(s, t);
    SoundCore(s.(table := t));
    HandleCore(s.(table := t), r.value);
  }

  // The SUBMIT that comes again completes a message, which the executor takes.
  lemma {:induction false} CompletesAgain(s: Session)
    requires OneWaiting(s)
    ensures Completed(s, SubmitFrame(3)) == Some(Message(1, Pdu.PutSubmit(L.Tiny())))
  {
    hide Pdu.PutSubmit, FragmentOk, PutFragment, DecodeFragment, FrameBytes, DecodeFrame, Push, Submitted, Admitted,
         E.Complete, Sendable;
    var f := Submitted();
    SmallFragment(f);
    FragmentSendable(f);
    FragmentRoundTrip(f);
    FrameReads(1, 3, UsbIpData, 0, PutFragment(f));
    PushesAlone(s.buffer);
  }

  lemma TakesAgain(t: E.Table)
    requires t == E.Complete(Admitted(1), 1, L.DONE).0
    ensures var (t', r) := E.AcceptPdu(t, Pdu.PutSubmit(L.Tiny()));
      && r == Ok([E.SubmitEvent(2, L.Tiny())])
      && t'.byToken == map[2 := 1] && t'.bySeqnum.Keys == {1} && t.bySeqnum == map[]
  {
    TinyEncodes();
    L.SubmitIsHandedOver(t, L.Tiny());
    hide Pdu.PutSubmit, E.AcceptPdu, Pdu.PutSubmitReply;
    assert Admitted(1).byToken - {1} == map[];
    assert Admitted(1).bySeqnum - {1} == map[];
  }

  lemma NoReplyIn(e: E.ExecutorEvent)
    requires !e.ReplyEvent?
    ensures RepliesIn([e]) == []
  {
    assert [e][1..] == [];
  }

  lemma {:induction false} WaitingEnds(s: Session)
    requires Sound(s) && Calm(s) && Kept(s) && OneWaiting(s) && Kept(AcceptFrame(s, SubmitFrame(3)).0)
    ensures EndedByOwnReplies(s, AcceptFrame(s, SubmitFrame(3)).0)
  {
    hide Sound, Calm, Ledger, Sized, NoStall, Pdu.PutSubmit, AcceptFrame, Completed, E.AcceptPdu, E.Complete, Foretold,
         LeftInLine, RepliesIn, SubmitsIn, AnswersIn, SubmitFrame, Admitted, Usbip.IsControl, CompleteTransfer;
    var m := Message(1, Pdu.PutSubmit(L.Tiny()));
    CompletesAgain(s);
    FrameForetold(s, SubmitFrame(3));
    TakesAgain(s.table);
    TinyEncodes();
    NoReplyIn(E.SubmitEvent(2, L.Tiny()));
    assert Bodies(s.pending) + [] != [];
    NothingLeaves(s, []);
    var z := AcceptFrame(s, SubmitFrame(3)).0;
    assert s.produced + [] == s.produced;
    CompleteEnded(z);
  }

  lemma CompleteEnded(z: Session)
    requires z.phase == Failed
    ensures forall token: u64, c: E.Completion :: CompleteTransfer(z, token, c) == (z, Err(InvalidState))
  {
  }

  // --------------------------------------------------- closing without answering

  /** A session that closes with success and never sends the one RET_SUBMIT it owes. */
  ghost predicate ClosesUnanswered(s: Session) {
    var (z, r) := Close(s, [1]);
    && s.phase == Running && r == Ok(()) && z.phase == Closed && SaidClose(z.log)
    && AnswersIn(Bodies(z.pending)) == [1]
    && forall more: seq<Call> ::
         var e := After(z, more);
         multiset(SubmitsIn(e.log)) == multiset{1} && AnswersIn(Bodies(RepliesAmong(e.sent))) == []
  }

  /**
   With more messages negotiated than the window holds, the full window refuses no
   call, and so a session closes with success over the reply it cannot send: the one
   transfer handed to the program is never answered, whatever is called afterwards.
   */
  lemma {:induction false} ReplyLostAtClose(n: Limit)
    requires n >= 2
    ensures var run := ToOnePending(n);
      && Made(Fresh(n)) && LegalRun(Fresh(n), run) && PoliteRun(run)
      && ClosesUnanswered(After(Fresh(n), run))
  {
    hide Made, After, LegalRun, Sound, Calm, Kept, ToOnePending, Fresh, Ordered, OneMessageOut, ClosesUnanswered,
         PoliteRun, Admitted;
    RunsToOnePending(n);
    var run := ToOnePending(n);
    AlwaysSound(Fresh(n), run);
    AlwaysKept(Fresh(n), run);
    TrafficOnlyWhileOpen(Fresh(n), run);
    ClosesOverReply(n, After(Fresh(n), run));
  }

  lemma OnlyToken(n: Limit)
    ensures Admitted(n).byToken == map[1 := 1] && Admitted(n).bySeqnum.Keys == {1} && Admitted(n).maxTransfer == 1024
  {
  }

  // Closing answers the one transfer with one reply of its number.
  lemma {:induction false} ClosingTiny(n: Limit, s: Session)
    requires Sound(s) && OneMessageOut(s, n, Admitted(n), 3)
    ensures E.Lists([1], s.table.byToken.Keys)
    ensures var replies := LastReplies(s, [1]);
      replies != [] && |replies| <= 2 && |replies[0]| <= 4096 && AnswersIn(replies) == [1]
  {
    hide Sound, E.CloseAll, E.Indexed, Admitted, AnswersIn, R.Keep;
    OnlyToken(n);
    SoundRunning(s);
    L.CloseAnswersAll(s.table, [1]);
    var events := E.CloseAll(s.table, [1]).1;
    EventsRead(events);
    ClosesOne(s.table);
    SingleAnswer(R.Keep(R.Answered, events));
  }

  lemma SingleAnswer(answers: seq<u32>)
    requires multiset(answers) == multiset({1 as u32})
    ensures answers == [1]
  {
    assert |multiset(answers)| == 1;
    assert answers[0] in multiset(answers);
  }

  lemma CloseAllOne(t: E.Table, token: u64)
    requires E.CancelForClose(t, token).1.Ok?
    ensures E.CloseAll(t, [token]) == (E.CancelForClose(t, token).0, E.CancelForClose(t, token).1.value)
  {
    hide E.CancelForClose;
    assert [token][..0] == [];
    var events := E.CancelForClose(t, token).1.value;
    assert [] + events == events;
  }

  lemma TwoReplies(events: seq<E.ExecutorEvent>)
    requires 1 <= |events| <= 2 && events[0].ReplyEvent?
    ensures 1 <= |RepliesIn(events)| <= 2
  {
    assert |RepliesIn(events[1..])| <= 1;
  }

  lemma ClosesOne(t: E.Table)
    requires E.Indexed(t) && t.byToken.Keys == {1} && t.maxTransfer == 1024
    ensures var replies := RepliesIn(E.CloseAll(t, [1]).1);
      1 <= |replies| <= 2 && |replies[0]| <= 4096
  {
    hide E.CancelForClose, E.CloseAll, E.Indexed, Pdu.DecodeReply, R.Balanced, RepliesIn;
    L.ClosingReplies(t, 1);
    CloseAllOne(t, 1);
    TwoReplies(E.CancelForClose(t, 1).1.value);
    assert E.Lists([1], t.byToken.Keys);
    ExecutorReports(t, R.Shut([1]));
    assert ReplySized(RepliesIn(E.CloseAll(t, [1]).1)[0], t.maxTransfer);
  }

  // The window is full and more could be out: nothing goes, and that is no failure.
  lemma AllWait(n: Limit, s: Session, line: seq<bytes>)
    requires n >= 2 && OneMessageOut(s, n, Admitted(n), 3) && line != [] && |line[0]| <= 4096
    ensures Leaving(s, line) == 0 && Answer(s, line, 0) == Ok(())
  {
    hide Admitted;
    assert !Goes(s, line, 0);
    LongestIsUnique(s, line, 0, Leaving(s, line));
    NoFrames(line[..0]);
  }

  lemma {:induction false} ClosesOverReply(n: Limit, s: Session)
    requires n >= 2 && Sound(s) && Kept(s) && Ordered(s.log, s.phase) && OneMessageOut(s, n, Admitted(n), 3)
    ensures ClosesUnanswered(s)
  {
    hide Sound, Kept, Ordered, Admitted, Close, SaidClose, AnswersIn, SubmitsIn, After, RepliesAmong, LastReplies,
         E.Lists, Answer, Leaving, Bodies;
    ClosingTiny(n, s);
    var replies := LastReplies(s, [1]);
    assert Bodies(s.pending) == [];
    assert [] + replies == replies;
    AllWait(n, s, replies);
    NoFrames(replies[..0]);
    assert replies[0..] == replies;
    CloseForetold(s, [1]);
    var z := Close(s, [1]).0;
    forall more: seq<Call>
      ensures var e := After(z, more);
        multiset(SubmitsIn(e.log)) == multiset{1} && AnswersIn(Bodies(RepliesAmong(e.sent))) == []
    {
      LostAtClose(s, [1], more);
      NothingBefore(Bodies(RepliesAmong(After(z, more).sent)), replies);
    }
  }

  lemma NothingBefore(out: seq<bytes>, replies: seq<bytes>)
    requires out + replies == [] + replies
    ensures out == [] && AnswersIn(out) == []
  {
    assert |out| == 0;
  }
}
