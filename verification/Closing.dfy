/** CLOSE is the last frame of a session, unless its broker had failed. */
module Closing {
  import opened Base
  import opened Endian
  import opened Wire
  import opened Reassembly
  import opened Session
  import opened Frames
  import opened Traffic
  import opened ReplyQueue
  import opened Outcomes
  import opened SessionCalls
  import opened SessionRuns
  import opened SessionLaws
  import B = Broker
  import E = Execution
  import L = ExecutionLaws
  import R = ExecutionRuns

  ghost predicate SaidClose(log: seq<Event>) {
    exists i :: 0 <= i < |log| && IsClose(log[i])
  }

  /** After a CLOSE frame nothing is said but CLOSED. */
  ghost predicate CloseIsFinal(log: seq<Event>) {
    forall i, j :: 0 <= i < j < |log| && IsClose(log[i]) ==> log[j] == ClosedEvent
  }

  /** CLOSE is final while the broker has not failed; a session left closing after saying it has a failed broker. */
  ghost predicate Finished(s: Session) {
    && (s.broker.state != B.Failed ==> CloseIsFinal(s.log))
    && (s.phase == Closing && SaidClose(s.log) ==> s.broker.state == B.Failed)
  }

  // Once a session is ending, only being told to close again can make it say anything.
  lemma LateCalls(s: Session, c: Call)
    requires Rank(s.phase) > Rank(Running) && !(c.CallClose? && s.phase == Closing)
    ensures var s' := Step(s, c).0;
      s'.log == s.log && s'.broker.state == s.broker.state && (s'.phase == s.phase || s'.phase == Failed)
  {
    hide DecodeFrame, E.Complete, E.CompleteCancel, QueueFrame, EncodeCapability, B.EncodeHello, B.AcceptHello,
         B.AckSend, EncodeOpen, FinishClose, Executed, Drain;
    if c.CallAckOutput? {
      IdleAck(s, c.reservation);
      if c.reservation in s.reservations {
        AckKeepsState(s.broker, s.reservations[c.reservation]);
      }
    }
  }

  lemma {:induction false} FrameNeverCloses(s: Session, wire: bytes)
    requires Sound(s) && Calm(s) && s.phase != Closing
    ensures AcceptFrame(s, wire).0.phase != Closing
  {
    hide Sound, Calm, DecodeFrame, Arrive;
    var d := DecodeFrame(wire);
    if Receiving(s.phase) && d.Ok? && NextSequence(s.nextRx).Ok? {
      NumberedSound(s);
      CalmIsRx(s, s.(nextRx := s.nextRx + 1));
      ArriveNeverCloses(s.(nextRx := s.nextRx + 1), d.value.0, d.value.1);
    }
  }

  lemma QueueStays(s: Session)
    ensures forall kind, payload :: QueueFrame(s, 0, kind, 0, payload).0.phase == s.phase
  {
    hide EncodeFrame;
  }

  lemma HandshakeNeverCloses(s: Session, c: Call)
    requires s.phase != Closing
    requires SetsUp(c)
    ensures Step(s, c).0.phase != Closing
  {
    hide QueueFrame, EncodeCapability, EncodeOpen, B.AcceptHello, B.EncodeHello;
    QueueStays(s);
  }

  // Only being told to close leaves a session closing.
  lemma {:induction false} OnlyCloseCloses(s: Session, c: Call)
    requires Sound(s) && Calm(s) && Legal(s, c) && s.phase != Closing && !c.CallClose?
    ensures Step(s, c).0.phase != Closing
  {
    match c
    case CallAcceptFrame(wire) =>
      hide Sound, Calm, AcceptFrame;
      FrameNeverCloses(s, wire);
    case CallSendPdu(m) =>
      hide Sound, SendPdu;
      SendingStays(s, m, 0);
    case CallAckOutput(id) =>
      hide Sound, AckOutput;
      SendingStays(s, Message(0, []), id);
    case CallComplete(token, completion) =>
      hide Sound, CompleteTransfer;
      TransferStays(s, token, completion, 0);
    case CallCancel(token, status) =>
      hide Sound, CompleteCancel;
      TransferStays(s, token, E.CANCELLATION, status);
    case _ =>
      hide Sound, Step;
      HandshakeNeverCloses(s, c);
  }

  lemma {:induction false} SendingStays(s: Session, m: Message, id: u64)
    requires Sound(s)
    ensures SendPdu(s, m).0.phase == s.phase && AckOutput(s, id).0.phase == s.phase
  {
    hide Sound, Core, SendPdu, AckOutput, OnlySent;
    SoundCore(s);
    SendCore(s, m);
    SentStays(s, SendPdu(s, m).0);
    AckCore(s, id);
    SentStays(s, AckOutput(s, id).0);
  }

  lemma {:induction false} TransferStays(s: Session, token: u64, c: E.Completion, status: i32)
    requires Sound(s)
    ensures CompleteTransfer(s, token, c).0.phase == s.phase && CompleteCancel(s, token, status).0.phase == s.phase
  {
    hide Sound, E.Complete, E.CompleteCancel, Executed, Onward;
    if s.phase == Running {
      ExecutedOnward(s, R.Finish(token, c));
      ExecutedOnward(s, R.Cancel(token, status));
    }
  }

  lemma SentStays(s: Session, s': Session)
    requires OnlySent(s, s')
    ensures s'.phase == s.phase
  {
    hide LogGrows;
  }

  lemma {:induction false} ArriveNeverCloses(s: Session, h: FrameHeader, payload: bytes)
    requires Sound(s) && Calm(s) && Receiving(s.phase)
    ensures Arrive(s, h, payload).0.phase != Closing
  {
    hide Sound, ArriveData, DecodeCapability, DecodeOpen, B.CloseBroker;
    if h.messageType == UsbIpData && s.phase == Running {
      ArriveDataSound(s, payload, h.flags);
    }
  }

  // The CLOSE frame a session sends under a number.
  function CloseFrame(hello: B.Hello, n: u64): bytes {
    FrameBytes(hello.sessionToken, n, CloseMsg, 0, PutU64Le(hello.leaseToken))
  }

  /** The CLOSE frame goes out under the next number, or numbers have run out. */
  lemma {:induction false} CloseFrameOut(s: Session)
    requires Sound(s) && Rank(s.phase) <= Rank(Closing)
    ensures s.nextTx <= LAST
    ensures var c := s.(phase := Closing);
      QueueFrame(c, 0, CloseMsg, 0, PutU64Le(s.hello.leaseToken))
      == if s.nextTx == LAST then (c, Err(SequenceError))
         else (Log(c.(nextTx := s.nextTx + 1), OutputFrame(0, CloseFrame(s.hello, s.nextTx))), Ok(()))
    ensures s.nextTx < LAST ==> IsClose(OutputFrame(0, CloseFrame(s.hello, s.nextTx)))
  {
    hide Sound, QueueFrame, Content, Core, FrameBytes, DecodeFrame;
    var c := s.(phase := Closing);
    EndingSound(s, Closing, s.buffer);
    assert s.(phase := Closing, buffer := s.buffer) == c;
    SoundCore(c);
    CloseContent(c.hello);
    ControlCore(c, CloseMsg, PutU64Le(c.hello.leaseToken));
    NumbersInRange(c);
    var r := QueueFrame(c, 0, CloseMsg, 0, PutU64Le(s.hello.leaseToken)).1;
    assert r.Ok? ==> r.value == ();
  }

  // Saying CLOSE: it leaves the session closing only if the broker had failed, or if nothing could be said.
  lemma {:induction false} FinishCloseFinal(s: Session)
    requires Sound(s) && Rank(s.phase) <= Rank(Closing)
    ensures var s' := FinishClose(s).0;
      && (s.broker.state == B.Failed ==> s'.broker.state == B.Failed)
      && (s'.phase == Closing ==> s'.log == s.log || s'.broker.state == B.Failed)
  {
    hide Sound, QueueFrame, CloseFrame;
    CloseFrameOut(s);
  }

  lemma CarriedNeverCloses(log: seq<Event>, log': seq<Event>)
    requires LogGrows(log, log') && !SaidClose(log)
    ensures !SaidClose(log')
  {
    hide Carried, IsClose;
    forall i | 0 <= i < |log'|
      ensures !IsClose(log'[i])
    {
      if i < |log| {
        assert log[i] == log'[i];
      } else {
        CarriedIsNotClose(log'[i]);
      }
    }
  }

  lemma NotYetClosed(log: seq<Event>, p: Phase)
    requires Ordered(log, p) && Rank(p) <= Rank(Running)
    ensures !SaidClose(log)
  {
    hide Carried, IsClose;
  }

  // Being told to close, from any phase but an ended one.
  lemma {:induction false} CloseFinal(s: Session, order: seq<u64>)
    requires Sound(s) && Calm(s) && Ordered(s.log, s.phase) && Rank(s.phase) <= Rank(Closing)
    requires s.phase.Running? ==> E.Lists(order, s.table.byToken.Keys)
    requires s.phase == Closing && SaidClose(s.log) ==> s.broker.state == B.Failed
    ensures var s' := Close(s, order).0;
      && (s.broker.state == B.Failed ==> s'.broker.state == B.Failed)
      && (s'.phase == Closing && SaidClose(s'.log) ==> s'.broker.state == B.Failed)
  {
    hide Sound, Calm, FinishClose, HandleEvents, E.CloseAll, E.Lists, Ordered, SaidClose, LogGrows;
    if s.phase.Running? {
      NotYetClosed(s.log, s.phase);
      RunningNotFailed(s);
      var (t, events) := E.CloseAll(s.table, order);
      var (m, r) := HandleEvents(s.(table := t), events);
      ClosedTransfers(s, order);
      CarriedNeverCloses(s.log, m.log);
      if r.Ok? {
        FinishCloseFinal(m);
      }
    } else {
      if s.phase != Closing {
        NotYetClosed(s.log, s.phase);
      }
      FinishCloseFinal(s);
    }
  }

  lemma RunningNotFailed(s: Session)
    requires Sound(s) && s.phase == Running
    ensures s.broker.state == B.Established
  {
  }

  // What closing all transfers leaves of a running session.
  lemma {:induction false} ClosedTransfers(s: Session, order: seq<u64>)
    requires Sound(s) && s.phase == Running && E.Lists(order, s.table.byToken.Keys)
    ensures var (t, events) := E.CloseAll(s.table, order);
      var m := HandleEvents(s.(table := t), events).0;
      Sound(m) && m.phase == Running && LogGrows(s.log, m.log)
  {
    hide Sound, Core, E.CloseAll, E.Lists, HandleEvents, E.Indexed, LogGrows;
    var (t, events) := E.CloseAll(s.table, order);
    SoundCore(s);
    CloseAllKeeps(s.table, order);
    ExecutedSound(s, t, Ok(events));
    assert Executed(s, t, Ok(events)).0 == HandleEvents(s.(table := t), events).0;
  }

  // Nothing was said to close before, and one step says it at most once.
  lemma FinalFromStep(log: seq<Event>, log': seq<Event>, p: Phase, p': Phase)
    requires !SaidClose(log) && log <= log' && SaysClose(log, log', p, p')
    ensures CloseIsFinal(log')
  {
    hide IsClose;
    assert forall i :: 0 <= i < |log| ==> !IsClose(log[i]) && log'[i] == log[i];
  }

  lemma {:induction false} CallFinished(s: Session, c: Call)
    requires Sound(s) && Calm(s) && Legal(s, c) && Ordered(s.log, s.phase) && Finished(s)
    ensures Finished(Step(s, c).0)
  {
    hide Sound, Calm, Step, Legal, Ordered, SaidClose, CloseIsFinal, SaysClose;
    var s' := Step(s, c).0;
    if Rank(s.phase) > Rank(Running) && !(c.CallClose? && s.phase == Closing) {
      LateCalls(s, c);
    } else {
      PhasesNeverGoBack(s, c);
      if c.CallClose? {
        LegalOrder(s, c);
        CloseFinal(s, c.order);
        CloseStep(s, c);
      } else {
        OnlyCloseCloses(s, c);
      }
      if s'.broker.state != B.Failed {
        if s.phase != Closing {
          NotYetClosed(s.log, s.phase);
        }
        FinalFromStep(s.log, s'.log, s.phase, s'.phase);
      }
    }
  }

  lemma LegalOrder(s: Session, c: Call)
    requires c.CallClose? && Legal(s, c)
    ensures s.phase.Running? ==> E.Lists(c.order, s.table.byToken.Keys)
  {
    hide E.Lists;
  }

  lemma CloseStep(s: Session, c: Call)
    requires c.CallClose?
    ensures Step(s, c) == Close(s, c.order)
  {
    hide Close;
  }

  /**
   CLOSE is terminal: over every run, a CLOSE frame is followed by nothing but
   CLOSED, if the broker session has not failed.
   */
  lemma {:induction false} CloseIsTerminal(s: Session, calls: seq<Call>)
    requires Made(s) && LegalRun(s, calls)
    ensures var s' := After(s, calls);
      && (s'.broker.state != B.Failed ==> CloseIsFinal(s'.log))
      && (s'.phase == Closing && SaidClose(s'.log) ==> s'.broker.state == B.Failed)
  {
    hide Sound, Calm, Step, Legal, Made, Ordered, SaidClose, CloseIsFinal;
    if calls == [] {
      MadeFinished(s);
    } else {
      var front := calls[..|calls| - 1];
      CloseIsTerminal(s, front);
      AlwaysSound(s, front);
      TrafficOnlyWhileOpen(s, front);
      CallFinished(After(s, front), calls[|calls| - 1]);
    }
  }

  lemma MadeFinished(s: Session)
    requires Made(s)
    ensures Finished(s)
  {
    hide IsClose;
  }

  /**
   If the broker session has failed, CLOSE is not terminal: a session whose peer's
   HELLO was refused says CLOSE every time it is told to close, and stays closing.
   */
  lemma {:induction false} FailedBrokerClosesAgain(s: Session)
    requires Sound(s) && s.broker.state == B.Failed && Rank(s.phase) <= Rank(Closing) && s.phase != Running
    requires s.nextTx < LAST
    ensures var (s', r) := Close(s, []);
      && r == Err(InvalidState) && s'.phase == Closing && s'.broker.state == B.Failed && s'.nextTx == s.nextTx + 1
      && s'.log == s.log + [OutputFrame(0, CloseFrame(s.hello, s.nextTx))] && s'.hello == s.hello
      && IsClose(OutputFrame(0, CloseFrame(s.hello, s.nextTx)))
  {
    hide Sound, QueueFrame, CloseFrame, IsClose;
    CloseFrameOut(s);
  }

  // ------------------------------------------------------- when CLOSE is said

  /** The session closed: its last frame is CLOSE, and CLOSED is the last thing said. */
  predicate SaidGoodbye(s: Session) {
    && s.phase == Closed && s.broker.state == B.Closed && s.nextTx >= 1
    && |s.log| >= 2 && s.log[|s.log| - 2] == OutputFrame(0, CloseFrame(s.hello, s.nextTx - 1))
    && s.log[|s.log| - 1] == ClosedEvent
  }

  /** Saying CLOSE fails only if numbers ran out or the broker session had failed, and leaves it closing then. */
  lemma {:induction false} FinishCloseVerdict(s: Session)
    requires Sound(s) && Rank(s.phase) <= Rank(Closing)
    ensures var (s', r) := FinishClose(s);
      && r == (if s.nextTx == LAST then Err(SequenceError)
               else if s.broker.state == B.Failed then Err(InvalidState) else Ok(()))
      && (r.Ok? ==>
            && SaidGoodbye(s') && s'.nextTx == s.nextTx + 1 && s'.hello == s.hello
            && IsClose(s'.log[|s'.log| - 2]))
      && (r.Err? ==> s'.phase == Closing && (r == Err(SequenceError) ==> s'.log == s.log))
      && s'.table == s.table && s'.produced == s.produced && s'.pending == s.pending
  {
    hide Sound, QueueFrame, CloseFrame, IsClose;
    CloseFrameOut(s);
    var r := FinishClose(s).1;
    assert r.Ok? ==> r.value == ();
  }

  lemma SaidInLog(log: seq<Event>, i: nat)
    requires i < |log| && IsClose(log[i])
    ensures SaidClose(log)
  {
  }

  // The replies that closing a running session produces, and the number after the last one that goes out.
  function LastReplies(s: Session, order: seq<u64>): seq<bytes> {
    RepliesIn(E.CloseAll(s.table, order).1)
  }

  function NumberAfter(s: Session, replies: seq<bytes>): nat {
    s.nextTx + FrameCount(Line(s, replies)[..Leaving(s, Line(s, replies))])
  }

  /** The replies that find no room when a running session closes. */
  function NotLeaving(s: Session, order: seq<u64>): seq<bytes> {
    var line := Line(s, LastReplies(s, order));
    line[Leaving(s, line)..]
  }

  lemma {:induction false} ClosedTransfersForetold(s: Session, order: seq<u64>)
    requires Sound(s) && Kept(s) && s.phase == Running && |s.produced| <= CAPACITY && Ordered(s.log, s.phase)
    requires E.Lists(order, s.table.byToken.Keys)
    ensures var (t, events) := E.CloseAll(s.table, order);
      var (m, r) := HandleEvents(s.(table := t), events);
      && r == Foretold(s, LastReplies(s, order))
      && m.table == t && m.produced == s.produced + LastReplies(s, order) && m.phase == Running
      && Sound(m) && m.broker.state == B.Established && !SaidClose(m.log)
      && (r.Ok? ==> m.nextTx == NumberAfter(s, LastReplies(s, order)) && Bodies(m.pending) == NotLeaving(s, order))
  {
    hide Sound, Kept, E.CloseAll, E.Lists, HandleEvents, Foretold, SaidClose, Ordered, LogGrows, FrameCount, Leaving;
    var (t, events) := E.CloseAll(s.table, order);
    ExecutedForetold(s, R.Shut(order));
    assert Executed(s, t, Ok(events)) == HandleEvents(s.(table := t), events);
    ClosedTransfers(s, order);
    NotYetClosed(s.log, s.phase);
    CarriedNeverCloses(s.log, HandleEvents(s.(table := t), events).0.log);
    RunningNotFailed(HandleEvents(s.(table := t), events).0);
    if Foretold(s, LastReplies(s, order)).Ok? {
      ForetoldOk(s, LastReplies(s, order));
    }
  }

  lemma ForetoldOk(s: Session, replies: seq<bytes>)
    requires Foretold(s, replies).Ok?
    ensures |s.produced| + |replies| <= CAPACITY
  {
    hide Answer, Leaving;
  }

  /**
   Closing a running session, told beforehand. Everything pending is answered in any
   case. CLOSE is said exactly when the answer foretold for those replies and the ones
   that wait already is success and a number is left for it. If that answer is an
   error the session stays running, and if only the number is missing it is left closing.
   When CLOSE is said, the replies that found no room are still waiting.
   */
  lemma {:induction false} CloseForetold(s: Session, order: seq<u64>)
    requires Sound(s) && Kept(s) && s.phase == Running && |s.produced| <= CAPACITY && Ordered(s.log, s.phase)
    requires E.Lists(order, s.table.byToken.Keys)
    ensures var (s', r) := Close(s, order);
      var replies := LastReplies(s, order);
      && s'.table == E.CloseAll(s.table, order).0 && s'.produced == s.produced + replies
      && (Foretold(s, replies).Err? ==> r == Foretold(s, replies) && s'.phase == Running && !SaidClose(s'.log))
      && (Foretold(s, replies).Ok? && NumberAfter(s, replies) == LAST ==>
            r == Err(SequenceError) && s'.phase == Closing && !SaidClose(s'.log))
      && (Foretold(s, replies).Ok? && NumberAfter(s, replies) != LAST ==>
            r == Ok(()) && SaidGoodbye(s') && SaidClose(s'.log) && Bodies(s'.pending) == NotLeaving(s, order))
  {
    hide Sound, Kept, E.CloseAll, E.Lists, HandleEvents, Foretold, SaidClose, Ordered, NumberAfter, FinishClose,
         SaidGoodbye, IsClose, RepliesIn, NotLeaving, Bodies;
    var (t, events) := E.CloseAll(s.table, order);
    ClosedTransfersForetold(s, order);
    var (m, r) := HandleEvents(s.(table := t), events);
    if r.Ok? {
      FinishCloseVerdict(m);
      var (s', q) := FinishClose(m);
      if q.Ok? {
        GoodbyeLong(s');
        SaidInLog(s'.log, |s'.log| - 2);
      }
    }
  }

  lemma GoodbyeLong(s: Session)
    requires SaidGoodbye(s)
    ensures |s.log| >= 2
  {
    hide CloseFrame;
  }

  /**
   What closing loses, told beforehand, and for good. If closing a running session
   succeeds, the replies that did not fit are never sent, whatever is called
   afterwards. So every transfer handed over gets its one RET_SUBMIT exactly if none
   is among them.
   */
  lemma {:induction false} LostAtClose(s: Session, order: seq<u64>, more: seq<Call>)
    requires Sound(s) && Kept(s) && s.phase == Running && |s.produced| <= CAPACITY && Ordered(s.log, s.phase)
    requires E.Lists(order, s.table.byToken.Keys) && Close(s, order).1.Ok?
    ensures var z := After(Close(s, order).0, more);
      var out := Bodies(RepliesAmong(z.sent));
      && out + NotLeaving(s, order) == s.produced + LastReplies(s, order) == z.produced
      && multiset(SubmitsIn(z.log)) == multiset(AnswersIn(out)) + multiset(AnswersIn(NotLeaving(s, order)))
      && (multiset(SubmitsIn(z.log)) == multiset(AnswersIn(out)) <==> AnswersIn(NotLeaving(s, order)) == [])
  {
    hide Sound, Kept, E.CloseAll, E.Lists, Close, Foretold, SaidClose, Ordered, NumberAfter, SaidGoodbye, RepliesIn,
         NotLeaving, Bodies, After, RepliesAmong, SubmitsIn, AnswersIn;
    var c := Close(s, order).0;
    CloseForetold(s, order);
    ForetoldOk(s, LastReplies(s, order));
    CloseKept(s, order);
    SoundIndexed(s);
    L.CloseAnswersAll(s.table, order);
    ClosedPhase(c);
    EndedForGood(c, more);
    SentAndWaiting(c);
    NoneLeft(AnswersIn(NotLeaving(s, order)), {}, multiset(AnswersIn(Bodies(RepliesAmong(c.sent)))));
  }

  lemma SoundIndexed(s: Session)
    requires Sound(s)
    ensures E.Indexed(s.table)
  {
    hide Core, E.Indexed;
  }

  lemma ClosedPhase(s: Session)
    requires SaidGoodbye(s)
    ensures s.phase == Closed
  {
    hide CloseFrame;
  }

  // The accounts of a session with no transfer pending.
  lemma SentAndWaiting(s: Session)
    requires Kept(s) && |s.produced| <= CAPACITY && s.table.bySeqnum == map[]
    ensures Bodies(RepliesAmong(s.sent)) + Bodies(s.pending) == s.produced
    ensures multiset(SubmitsIn(s.log))
         == multiset(AnswersIn(Bodies(RepliesAmong(s.sent)))) + multiset(AnswersIn(Bodies(s.pending)))
  {
    hide RepliesAmong, NoStall, Sized, Ledger, AnswersIn, SubmitsIn, Bodies;
    LedgerBodies(s);
    AnswersConcat(Bodies(RepliesAmong(s.sent)), Bodies(s.pending));
  }

  /** Closing loses nothing exactly if all replies that wait or come of it fit the window at once. */
  lemma NothingLostIfAllFit(s: Session, order: seq<u64>)
    ensures var line := Line(s, LastReplies(s, order));
      NotLeaving(s, order) == [] <==> forall k :: 0 <= k < |line| ==> Goes(s, line, k)
  {
    hide LastReplies, Goes;
  }

  /** Closing a session that does not run, told beforehand. */
  lemma {:induction false} CloseIdleVerdict(s: Session, order: seq<u64>)
    requires Sound(s) && s.phase != Running && !s.phase.Closed? && !s.phase.Failed?
    ensures var (s', r) := Close(s, order);
      && r == (if s.nextTx == LAST then Err(SequenceError)
               else if s.broker.state == B.Failed then Err(InvalidState) else Ok(()))
      && (r.Ok? ==> SaidGoodbye(s'))
      && (r.Err? ==> s'.phase == Closing)
  {
    hide Sound, FinishClose, SaidGoodbye;
    FinishCloseVerdict(s);
  }

  // However it came to close: what it was like just before it said CLOSE.
  lemma {:induction false} ClosedFrom(s: Session, order: seq<u64>) returns (m: Session)
    requires Sound(s) && !s.phase.Closed? && !s.phase.Failed? && Close(s, order).1.Ok?
    requires s.phase.Running? ==> E.Lists(order, s.table.byToken.Keys)
    ensures Sound(m) && Rank(m.phase) <= Rank(Closing) && m.hello == s.hello
    ensures Close(s, order) == FinishClose(m)
  {
    hide Sound, E.CloseAll, E.Lists, HandleEvents, FinishClose, LogGrows;
    if s.phase.Running? {
      var (t, events) := E.CloseAll(s.table, order);
      m := HandleEvents(s.(table := t), events).0;
      ClosedTransfers(s, order);
      ClosedHello(s, order);
    } else {
      m := s;
    }
  }

  lemma {:induction false} ClosedHello(s: Session, order: seq<u64>)
    requires Sound(s) && s.phase == Running && E.Lists(order, s.table.byToken.Keys)
    ensures var (t, events) := E.CloseAll(s.table, order);
      HandleEvents(s.(table := t), events).0.hello == s.hello
  {
    hide Sound, E.CloseAll, E.Lists, HandleEvents, GrowsInOrder;
    var (t, events) := E.CloseAll(s.table, order);
    ExecutedOnward(s, R.Shut(order));
    assert Executed(s, t, Ok(events)).0 == HandleEvents(s.(table := t), events).0;
  }
}
