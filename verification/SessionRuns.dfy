/** Whole runs of a session: the order of what happens, and the account of every transfer and reply. */
module SessionRuns {
  import opened Base
  import opened Endian
  import opened Wire
  import opened Reassembly
  import opened Session
  import opened Frames
  import opened Streams
  import opened Sending
  import opened Traffic
  import opened ReplyQueue
  import opened SessionCalls
  import B = Broker
  import E = Execution
  import R = ExecutionRuns
  import L = ExecutionLaws
  import Pdu
  import Usbip

  // ------------------------------------------------------------- quiet steps

  /** What happens around the traffic: phases, control frames, what arrives. Nothing of the reply queue moves. */
  ghost predicate Aside(s: Session, s': Session) {
    && s' == s.(phase := s'.phase, broker := s'.broker, nextTx := s'.nextTx, nextRx := s'.nextRx,
                log := s'.log, buffer := s'.buffer, received := s'.received)
    && (s.phase == Running && s'.phase == Running ==>
          s'.broker == s.broker.(rx := s'.broker.rx) && s'.nextTx == s.nextTx)
  }

  // What may be said meanwhile: nothing that carries traffic, CLOSED only as the last thing.
  ghost predicate Says(before: seq<Event>, after: seq<Event>, p: Phase, p': Phase) {
    && before <= after
    && (forall i :: |before| <= i < |after| ==> !Carried(after[i]))
    && (forall i :: |before| <= i < |after| && after[i] == ClosedEvent ==> i == |after| - 1 && p' == Closed)
    && (p' == Running && p != Running ==> Opened in after)
    && (Rank(p) <= Rank(p'))
    && (p.Closed? || p.Failed? ==> after == before)
    && SaysClose(before, after, p, p')
  }

  /** A CLOSE frame comes only with ending, and once closing nothing else is said but CLOSED. */
  ghost predicate SaysClose(before: seq<Event>, after: seq<Event>, p: Phase, p': Phase) {
    && (forall i :: |before| <= i < |after| && IsClose(after[i]) ==> Rank(p') > Rank(Running))
    && (forall i, j :: |before| <= i < j < |after| && IsClose(after[i]) ==> after[j] == ClosedEvent)
    && (Rank(p) > Rank(Running) ==>
          forall i :: |before| <= i < |after| ==> IsClose(after[i]) || after[i] == ClosedEvent)
  }

  ghost predicate QuietStep(s: Session, s': Session) {
    Aside(s, s') && Says(s.log, s'.log, s.phase, s'.phase)
  }

  // -------------------------------------------------------------- the order

  /**
   Traffic only after the session opened; after a CLOSE frame nothing but CLOSE or
   CLOSED; CLOSED once, as the last event of all; running means opened.
   */
  ghost predicate Ordered(log: seq<Event>, p: Phase) {
    && CloseEnds(log, p)
    && (forall i :: 0 <= i < |log| && Carried(log[i]) ==> Opened in log[..i])
    && (forall i :: 0 <= i < |log| && log[i] == ClosedEvent ==> i == |log| - 1 && (p.Closed? || p.Failed?))
    && (p == Running ==> Opened in log)
  }

  ghost predicate CloseEnds(log: seq<Event>, p: Phase) {
    && (forall i :: 0 <= i < |log| && IsClose(log[i]) ==> Rank(p) > Rank(Running))
    && (forall i, j :: 0 <= i < j < |log| && IsClose(log[i]) ==> IsClose(log[j]) || log[j] == ClosedEvent)
  }

  lemma CloseEndsGrows(log: seq<Event>, log': seq<Event>, p: Phase, p': Phase)
    requires CloseEnds(log, p) && log <= log' && SaysClose(log, log', p, p') && Rank(p) <= Rank(p')
    ensures CloseEnds(log', p')
  {
    hide IsClose;
    forall i, j | 0 <= i < j < |log'| && IsClose(log'[i])
      ensures IsClose(log'[j]) || log'[j] == ClosedEvent
    {
      if i < |log| {
        assert log[i] == log'[i];
        if j < |log| {
          assert log[j] == log'[j];
        }
      }
    }
    forall i | 0 <= i < |log'| && IsClose(log'[i])
      ensures Rank(p') > Rank(Running)
    {
      if i < |log| {
        assert log[i] == log'[i];
      }
    }
  }

  /** How a history may grow by one call: traffic only while running, CLOSED only as the last thing. */
  ghost predicate GrowsInOrder(before: seq<Event>, after: seq<Event>, p: Phase, p': Phase) {
    && before <= after
    && (forall i :: |before| <= i < |after| && Carried(after[i]) ==> p == Running)
    && (forall i :: |before| <= i < |after| && after[i] == ClosedEvent ==>
          i == |after| - 1 && (p'.Closed? || p'.Failed?))
    && (p' == Running && p != Running ==> Opened in after)
    && (Rank(p) <= Rank(p'))
    && (p.Closed? || p.Failed? ==> after == before)
    && SaysClose(before, after, p, p')
  }

  lemma OrderedGrows(log: seq<Event>, log': seq<Event>, p: Phase, p': Phase)
    requires Ordered(log, p) && GrowsInOrder(log, log', p, p')
    ensures Ordered(log', p')
  {
    CloseEndsGrows(log, log', p, p');
    hide Carried, IsClose, CloseEnds, SaysClose;
    forall i | 0 <= i < |log'| && Carried(log'[i])
      ensures Opened in log'[..i]
    {
      if i < |log| {
        assert log[i] == log'[i] && log'[..i] == log[..i];
      } else {
        var j :| 0 <= j < |log| && log[j] == Opened;
        assert log'[..i][j] == Opened;
      }
    }
  }

  // ------------------------------------------------------------ the accounts

  function SubmitOf(e: Event): seq<u32> {
    if e.SubmitArrived? then [e.request.seqnum] else []
  }

  /** The numbers of the transfers handed to the platform, in order. */
  function SubmitsIn(log: seq<Event>): seq<u32> {
    if log == [] then [] else SubmitsIn(log[..|log| - 1]) + SubmitOf(log[|log| - 1])
  }

  function AnswerOf(pdu: bytes): seq<u32> {
    var r := Pdu.DecodeReply(pdu);
    if r.Ok? && r.value.SubmitRet? then [r.value.submit.seqnum] else []
  }

  /** The numbers answered with RET_SUBMIT, read from the bytes of replies. */
  function AnswersIn(bodies: seq<bytes>): seq<u32> {
    if bodies == [] then [] else AnswersIn(bodies[..|bodies| - 1]) + AnswerOf(bodies[|bodies| - 1])
  }

  lemma SubmitsOne(log: seq<Event>, e: Event)
    ensures SubmitsIn(log + [e]) == SubmitsIn(log) + SubmitOf(e)
  {
    hide SubmitOf;
    assert (log + [e])[..|log|] == log;
  }

  lemma NothingRead()
    ensures SubmitsIn([]) == [] && AnswersIn([]) == []
  {
  }

  lemma RegroupNumbers(a: seq<u32>, b: seq<u32>, c: seq<u32>)
    ensures (a + b) + c == a + (b + c) && a + [] == a
  {
  }

  lemma {:induction false} SubmitsConcat(a: seq<Event>, b: seq<Event>)
    ensures SubmitsIn(a + b) == SubmitsIn(a) + SubmitsIn(b)
  {
    hide SubmitsIn, SubmitOf;
    if b == [] {
      NothingRead();
      assert a + b == a;
    } else {
      var front, last := b[..|b| - 1], b[|b| - 1];
      assert b == front + [last] && a + b == a + front + [last];
      SubmitsConcat(a, front);
      SubmitsOne(front, last);
      SubmitsOne(a + front, last);
      RegroupNumbers(SubmitsIn(a), SubmitsIn(front), SubmitOf(last));
    }
  }

  lemma AnswersOne(bodies: seq<bytes>, pdu: bytes)
    ensures AnswersIn(bodies + [pdu]) == AnswersIn(bodies) + AnswerOf(pdu)
  {
    hide AnswerOf;
    assert (bodies + [pdu])[..|bodies|] == bodies;
  }

  lemma {:induction false} AnswersConcat(a: seq<bytes>, b: seq<bytes>)
    ensures AnswersIn(a + b) == AnswersIn(a) + AnswersIn(b)
  {
    hide AnswersIn, AnswerOf;
    if b == [] {
      NothingRead();
      assert a + b == a;
    } else {
      var front, last := b[..|b| - 1], b[|b| - 1];
      assert b == front + [last] && a + b == a + front + [last];
      AnswersConcat(a, front);
      AnswersOne(front, last);
      AnswersOne(a + front, last);
      RegroupNumbers(AnswersIn(a), AnswersIn(front), AnswerOf(last));
    }
  }

  lemma ArrivalsAlone(e: E.ExecutorEvent)
    ensures Arrivals([e]) == if e.SubmitEvent? then [SubmitArrived(e.token, e.request)]
                             else if e.CancelEvent? then [CancelArrived(e.cancelToken, e.unlinkSeqnum)] else []
    ensures RepliesIn([e]) == if e.ReplyEvent? then [e.pdu] else []
  {
    assert [e][1..] == [];
  }

  lemma SubmitsAlone(e: Event)
    ensures SubmitsIn([e]) == SubmitOf(e)
  {
    NothingRead();
    SubmitsOne([], e);
    hide SubmitsIn, SubmitOf;
    assert [] + [e] == [e] && [] + SubmitOf(e) == SubmitOf(e);
  }

  lemma AnswersAlone(pdu: bytes)
    ensures AnswersIn([pdu]) == AnswerOf(pdu)
  {
    NothingRead();
    AnswersOne([], pdu);
    hide AnswersIn, AnswerOf;
    assert [] + [pdu] == [pdu] && [] + AnswerOf(pdu) == AnswerOf(pdu);
  }

  // An event is a submission or not to both observers alike.
  lemma OneEventRead(e: E.ExecutorEvent)
    ensures SubmitsIn(Arrivals([e])) == R.Keep(R.Issued, [e])
    ensures AnswersIn(RepliesIn([e])) == R.Keep(R.Answered, [e])
  {
    hide R.Keep, Pdu.DecodeReply, Arrivals, RepliesIn, SubmitsIn, AnswersIn;
    R.KeepOne(R.Issued, e);
    R.KeepOne(R.Answered, e);
    ArrivalsAlone(e);
    NothingRead();
    if e.ReplyEvent? {
      AnswersAlone(e.pdu);
    } else {
      SubmitsAlone(Arrivals([e])[0]);
    }
  }

  lemma FirstEvent(events: seq<E.ExecutorEvent>)
    requires events != []
    ensures Arrivals(events) == Arrivals([events[0]]) + Arrivals(events[1..])
    ensures RepliesIn(events) == RepliesIn([events[0]]) + RepliesIn(events[1..])
  {
    assert [events[0]][1..] == [];
  }

  // What the caller is told and what is queued is what the executor reported.
  lemma {:induction false} EventsRead(events: seq<E.ExecutorEvent>)
    ensures SubmitsIn(Arrivals(events)) == R.Keep(R.Issued, events)
    ensures AnswersIn(RepliesIn(events)) == R.Keep(R.Answered, events)
  {
    if events == [] {
    } else {
      EventsRead(events[1..]);
      OneEventRead(events[0]);
      FirstEvent(events);
      hide R.Keep, Arrivals, RepliesIn, SubmitsIn, AnswersIn;
      SubmitsConcat(Arrivals([events[0]]), Arrivals(events[1..]));
      AnswersConcat(RepliesIn([events[0]]), RepliesIn(events[1..]));
      R.KeepConcat(R.Issued, [events[0]], events[1..]);
      R.KeepConcat(R.Answered, [events[0]], events[1..]);
      assert events == [events[0]] + events[1..];
    }
  }

  /** Every transfer handed to the platform is pending, or answered once, number by number. */
  ghost predicate Answers(pending: map<u32, E.Pending>, submits: seq<u32>, answers: seq<u32>) {
    multiset(submits) == multiset(answers) + multiset(pending.Keys)
  }

  ghost predicate Answering(s: Session) {
    |s.produced| <= CAPACITY ==> Answers(s.table.bySeqnum, SubmitsIn(s.log), AnswersIn(s.produced))
  }

  lemma AnswersNext(t: E.Table, t': E.Table, submits: seq<u32>, answers: seq<u32>, events: seq<E.ExecutorEvent>)
    requires Answers(t.bySeqnum, submits, answers) && R.Balanced(t, t', events)
    ensures Answers(t'.bySeqnum, submits + R.Keep(R.Issued, events), answers + R.Keep(R.Answered, events))
  {
    hide R.Keep, E.Indexed;
    var a, b := t.bySeqnum.Keys, t'.bySeqnum.Keys;
    R.KeysMove(a, b);
    R.Transfer(multiset(submits), multiset(answers), multiset(a), multiset(b), multiset(a - b), multiset(b - a));
  }

  lemma {:induction false} NoSubmits(events: seq<Event>)
    requires forall i :: 0 <= i < |events| ==> !events[i].SubmitArrived?
    ensures SubmitsIn(events) == []
  {
    if events != [] {
      NoSubmits(events[..|events| - 1]);
    }
  }

  lemma Extends<T>(a: seq<T>, b: seq<T>)
    requires a <= b
    ensures b == a + b[|a|..]
  {
  }

  lemma QuietSubmits(log: seq<Event>, log': seq<Event>)
    requires log <= log' && forall i :: |log| <= i < |log'| ==> !log'[i].SubmitArrived?
    ensures SubmitsIn(log') == SubmitsIn(log)
  {
    Extends(log, log');
    SubmitsConcat(log, log'[|log|..]);
    NoSubmits(log'[|log|..]);
  }

  // ---------------------------------------------------------- what is kept

  predicate Sized(s: Session) {
    AllReplySized(s.produced, s.table.maxTransfer)
  }

  /** No reply waits for nothing: while one waits, some message is out whose acknowledgement will move it. */
  predicate NoStall(s: Session) {
    s.phase == Running && s.nextTx < LAST && |s.produced| <= CAPACITY && AdmitsReplies(s) && s.pending != []
    ==> s.reservations != map[]
  }

  ghost predicate Kept(s: Session) {
    Ledger(s) && Sized(s) && NoStall(s) && Answering(s)
  }

  lemma AsideAccounts(s: Session, s': Session)
    requires Early(s) && Aside(s, s') && Rank(s.phase) <= Rank(s'.phase) && Ledger(s) && Sized(s) && NoStall(s)
    ensures Ledger(s') && Sized(s') && NoStall(s')
  {
    hide RepliesAmong, Queue, AllReplySized, DivCeil, Spent, Idle;
  }

  lemma QuietKept(s: Session, s': Session)
    requires Early(s) && Kept(s) && QuietStep(s, s')
    ensures Kept(s')
  {
    AsideAccounts(s, s');
    assert forall i :: |s.log| <= i < |s'.log| ==> !Carried(s'.log[i]);
    hide Early, Ledger, Sized, NoStall, SubmitsIn, AnswersIn, Answers;
    QuietSubmits(s.log, s'.log);
  }

  /** Only frames were queued. */
  ghost predicate OnlyFrames(log: seq<Event>, log': seq<Event>) {
    log <= log' && forall i :: |log| <= i < |log'| ==> log'[i].OutputFrame?
  }

  lemma OnlyFramesTwice(log: seq<Event>, mid: seq<Event>, log': seq<Event>)
    requires OnlyFrames(log, mid) && OnlyFrames(mid, log')
    ensures OnlyFrames(log, log')
  {
  }

  lemma EmitOnlyFrames(s: Session, fs: seq<Fragment>)
    requires s.nextTx <= LAST && AllOk(fs)
    ensures OnlyFrames(s.log, Emit(s, fs).0.log)
  {
    hide FragmentOk, PieceFrame;
  }

  lemma {:induction false} SendOnlyFrames(s: Session, m: Message)
    requires Configured(s)
    ensures OnlyFrames(s.log, SendPdu(s, m).0.log)
  {
    SendOutcomes(s, m);
    assert s.nextTx <= LAST;
    hide FragmentOk, Pieces, SendPdu, Fits, Configured, Emit;
    var r := SendPdu(s, m).1;
    if r.Ok? || r == Err(SequenceError) {
      EmitOnlyFrames(s, Cuts(s, m));
    }
  }

  lemma {:induction false} DrainOnlyFrames(s: Session)
    requires Core(s)
    ensures OnlyFrames(s.log, Drain(s).0.log)
    decreases |s.pending|
  {
    hide Core, SendPdu, LogGrows;
    if s.pending != [] {
      var m, r := SendPdu(s, s.pending[0]).0, SendPdu(s, s.pending[0]).1;
      CoreConfigured(s);
      SendOnlyFrames(s, s.pending[0]);
      if r.Ok? {
        SendCore(s, s.pending[0]);
        assert m.pending == s.pending;
        PopCore(m);
        DrainOnlyFrames(Popped(m));
        OnlyFramesTwice(s.log, m.log, Drain(Popped(m)).0.log);
      }
    }
  }

  lemma FramesAreNoSubmits(log: seq<Event>, log': seq<Event>)
    requires OnlyFrames(log, log')
    ensures SubmitsIn(log') == SubmitsIn(log)
  {
    hide SubmitsIn;
    QuietSubmits(log, log');
  }

  lemma {:induction false} TakeSubmits(s: Session, events: seq<E.ExecutorEvent>)
    requires s.nextInternal + |RepliesIn(events)| <= U64_MAX
    ensures SubmitsIn(TakeEvents(s, events).0.log) == SubmitsIn(s.log) + R.Keep(R.Issued, events)
  {
    hide TakeEvents, SubmitsIn, R.Keep, RepliesIn, Queue, Arrivals;
    TakeEffect(s, events);
    SubmitsConcat(s.log, Arrivals(events));
    EventsRead(events);
  }

  // The state halfway through handling events: all taken in, none sent yet.
  function Taken(s: Session, events: seq<E.ExecutorEvent>): Session {
    TakeEvents(s.(produced := s.produced + RepliesIn(events)), events).0
  }

  lemma TakenCore(s: Session, events: seq<E.ExecutorEvent>)
    requires Core(s)
    ensures Core(Taken(s, events)) && OnlySent(s, Taken(s, events))
    ensures Taken(s, events).produced == s.produced + RepliesIn(events)
    ensures var m := Taken(s, events);
      m == s.(log := m.log, pending := m.pending, nextInternal := m.nextInternal, produced := m.produced)
  {
    var p := s.(produced := s.produced + RepliesIn(events));
    SameLog(s.log);
    TakeOnlySent(p, events);
    hide TakeEvents, Core, LogGrows, FramesIn;
    OnlySentTransitive(s, p, Taken(s, events));
    CoreOutside(s, Taken(s, events));
  }

  lemma HandleIsDrain(s: Session, events: seq<E.ExecutorEvent>)
    requires Ledger(s) && |s.produced| + |RepliesIn(events)| <= CAPACITY
    ensures HandleEvents(s, events) == Drain(Taken(s, events))
    ensures s.nextInternal + |RepliesIn(events)| <= U64_MAX
  {
    hide TakeEvents, RepliesIn, RepliesAmong, Queue, Arrivals;
    TakeEffect(s.(produced := s.produced + RepliesIn(events)), events);
  }

  lemma {:induction false} HandleAnswering(s: Session, t: E.Table, events: seq<E.ExecutorEvent>)
    requires Core(s) && Core(s.(table := t)) && Ledger(s) && Answering(s) && R.Balanced(s.table, t, events)
    ensures Answering(HandleEvents(s.(table := t), events).0)
  {
    hide Core, HandleEvents, SubmitsIn, AnswersIn, RepliesIn, R.Balanced, TakeEvents, R.Keep, Answers, LogGrows;
    var s1 := s.(table := t);
    var s' := HandleEvents(s1, events).0;
    HandleCore(s1, events);
    if |s'.produced| <= CAPACITY {
      assert Ledger(s1) by { hide RepliesAmong, Queue; }
      HandleIsDrain(s1, events);
      TakenCore(s1, events);
      DrainOnlyFrames(Taken(s1, events));
      FramesAreNoSubmits(Taken(s1, events).log, s'.log);
      TakeSubmits(s1.(produced := s1.produced + RepliesIn(events)), events);
      AnswersConcat(s.produced, RepliesIn(events));
      EventsRead(events);
      AnswersNext(s.table, t, SubmitsIn(s.log), AnswersIn(s.produced), events);
    }
  }

  lemma LedgerWaiting(s: Session)
    requires Ledger(s) && Sized(s) && |s.produced| <= CAPACITY
    ensures WaitingSized(s.pending, s.table.maxTransfer)
  {
    hide RepliesAmong, ReplySized;
    forall i | 0 <= i < |s.pending|
      ensures s.pending[i].id != 0 && ReplySized(s.pending[i].body, s.table.maxTransfer)
    {
      assert (RepliesAmong(s.sent) + s.pending)[|RepliesAmong(s.sent)| + i] == s.pending[i];
    }
  }

  lemma OnlySentAdmits(s: Session, s': Session)
    requires OnlySent(s, s')
    ensures AdmitsReplies(s') == AdmitsReplies(s) && s'.phase == s.phase
  {
    hide LogGrows, DivCeil;
  }

  lemma {:induction false} DrainNoStall(s: Session)
    requires Core(s) && s.phase == Running && s.broker.state == B.Established && Ledger(s) && Sized(s)
    ensures NoStall(Drain(s).0)
  {
    hide Core, Ledger, Sized, ReplySized, AdmitsReplies, LogGrows, Drain;
    DrainCore(s);
    OnlySentAdmits(s, Drain(s).0);
    if |s.produced| <= CAPACITY && AdmitsReplies(s) {
      LedgerWaiting(s);
      DrainMoves(s);
    }
  }

  lemma {:induction false} HandleNoStall(s: Session, events: seq<E.ExecutorEvent>)
    requires Core(s) && s.phase == Running && s.broker.state == B.Established && Ledger(s) && Sized(s)
    requires AllReplySized(RepliesIn(events), s.table.maxTransfer)
    ensures Sized(HandleEvents(s, events).0) && NoStall(HandleEvents(s, events).0)
  {
    hide Core, Ledger, ReplySized, AdmitsReplies, LogGrows, HandleEvents, TakeEvents, RepliesIn;
    HandleCore(s, events);
    if |s.produced| + |RepliesIn(events)| <= CAPACITY {
      HandleIsDrain(s, events);
      TakenCore(s, events);
      TakeLedger(s, events);
      DrainNoStall(Taken(s, events));
    }
  }

  /** Handling what the executor reports keeps the order and the accounts. */
  lemma {:induction false} HandleKept(s: Session, t: E.Table, events: seq<E.ExecutorEvent>)
    requires Core(s) && Core(s.(table := t)) && s.phase == Running && s.broker.state == B.Established && Kept(s)
    requires R.Balanced(s.table, t, events) && t.maxTransfer == s.table.maxTransfer
    requires AllReplySized(RepliesIn(events), t.maxTransfer)
    ensures Kept(HandleEvents(s.(table := t), events).0)
  {
    hide Core, HandleEvents, SubmitsIn, AnswersIn, RepliesIn, R.Balanced, LogGrows, ReplySized, Answers,
         RepliesAmong, Queue, Spent, NoStall;
    var s1 := s.(table := t);
    assert Ledger(s1) && Sized(s1);
    HandleAnswering(s, t, events);
    HandleNoStall(s1, events);
    HandleLedger(s1, events);
    HandleCore(s1, events);
  }

  // ------------------------------------------------- what the executor reports

  predicate EventsSized(events: seq<E.ExecutorEvent>, maxTransfer: nat) {
    forall i :: 0 <= i < |events| && events[i].ReplyEvent? ==> ReplySized(events[i].pdu, maxTransfer)
  }

  lemma {:induction false} RepliesSized(events: seq<E.ExecutorEvent>, maxTransfer: nat)
    requires EventsSized(events, maxTransfer)
    ensures AllReplySized(RepliesIn(events), maxTransfer)
  {
    hide ReplySized;
    if events != [] {
      RepliesSized(events[1..], maxTransfer);
    }
  }

  lemma SettledSized(t: E.Table, seqnum: u32, c: E.Completion, status: i32)
    requires E.Indexed(t) && seqnum in t.bySeqnum
    requires var r := t.bySeqnum[seqnum].request;
      |c.data| == E.DataLength(r.direction, c.actualLength) && c.actualLength <= r.transferBufferLength
    ensures var r := E.Replies(t.bySeqnum[seqnum], c, status);
      r.Ok? && EventsSized(r.value, t.maxTransfer)
  {
    E.RepliesEncode(t, seqnum, c, status);
    hide E.Replies, E.Indexed;
  }

  lemma AcceptSized(t: E.Table, wire: bytes)
    requires E.AcceptPdu(t, wire).1.Ok?
    ensures EventsSized(E.AcceptPdu(t, wire).1.value, t.maxTransfer)
  {
    hide Pdu.DecodeRequest, E.Admit;
  }

  lemma TakenOut(t: E.Table, token: u64)
    requires E.Indexed(t) && token in t.byToken
    ensures t.byToken[token] in t.bySeqnum
  {
  }

  lemma CompletionSized(t: E.Table, token: u64, c: E.Completion, status: i32)
    requires E.Indexed(t)
    ensures E.Complete(t, token, c).1.Ok? ==> EventsSized(E.Complete(t, token, c).1.value, t.maxTransfer)
    ensures E.CompleteCancel(t, token, status).1.Ok? ==> EventsSized(E.CompleteCancel(t, token, status).1.value,
        t.maxTransfer)
  {
    if token in t.byToken {
      TakenOut(t, token);
      var seqnum := t.byToken[token];
      SettledSized(t, seqnum, E.CANCELLATION, status);
      if E.Complete(t, token, c).1.Ok? {
        SettledSized(t, seqnum, c, 0);
      }
    }
    hide E.Replies, E.Indexed, ReplySized;
  }

  lemma {:induction false} ShutSized(t: E.Table, order: seq<u64>)
    requires E.Indexed(t) && E.Distinct(order) && R.Members(order) <= t.byToken.Keys
    ensures EventsSized(E.CloseAll(t, order).1, t.maxTransfer) && E.CloseAll(t, order).0.maxTransfer == t.maxTransfer
  {
    hide E.Indexed, E.Distinct, R.Members, E.Replies, E.Remember, ReplySized;
    if order != [] {
      var n := |order| - 1;
      L.ShutPart(t, order, n);
      ShutSized(t, order[..n]);
      var m := E.CloseAll(t, order[..n]).0;
      TakenOut(m, order[n]);
      SettledSized(m, m.byToken[order[n]], E.CANCELLATION, E.STATUS_CANCELLED);
    }
  }

  lemma ShutAllSized(t: E.Table, order: seq<u64>)
    requires E.Indexed(t) && E.Lists(order, t.byToken.Keys)
    ensures EventsSized(E.CloseAll(t, order).1, t.maxTransfer)
  {
    hide E.Indexed, E.CloseAll, E.Distinct, EventsSized;
    ShutSized(t, order);
  }

  /** Every action of the executor is balanced and its replies fit; a refused one changes nothing. */
  lemma ExecutorReports(t: E.Table, op: R.Op)
    requires E.Indexed(t) && R.Legal(t, op)
    ensures var (t', r) := R.Step(t, op);
      && (r.Err? ==> t' == t)
      && (r.Ok? ==> R.Balanced(t, t', r.value) && AllReplySized(RepliesIn(r.value), t.maxTransfer))
  {
    hide E.Indexed, R.Balanced, R.UnlinksBalanced, E.AcceptPdu, E.Complete, E.CompleteCancel, E.CloseAll,
         EventsSized, AllReplySized, RepliesIn, E.Lists;
    R.StepBalanced(t, op);
    var r := R.Step(t, op).1;
    if r.Err? {
      L.RefusedChangesNothing(t, op);
    } else {
      match op {
        case Accept(wire) => AcceptSized(t, wire);
        case Finish(token, c) => CompletionSized(t, token, c, 0);
        case Cancel(token, status) => CompletionSized(t, token, E.CANCELLATION, status);
        case Shut(order) => ShutAllSized(t, order);
      }
      RepliesSized(r.value, t.maxTransfer);
    }
  }

  lemma BalancedKeeps(t: E.Table, t': E.Table, events: seq<E.ExecutorEvent>)
    requires R.Balanced(t, t', events)
    ensures E.Indexed(t') && t'.maxTransfer == t.maxTransfer
  {
    hide E.Indexed, R.Keep;
  }

  lemma SoundRunning(s: Session)
    requires Sound(s) && s.phase == Running
    ensures Core(s) && s.broker.state == B.Established && E.Indexed(s.table)
  {
    hide Core, E.Indexed;
  }

  /** Whatever the executor was asked, the order and the accounts hold afterwards. */
  lemma {:induction false} ExecutedKept(s: Session, op: R.Op)
    requires Sound(s) && Kept(s) && s.phase == Running && R.Legal(s.table, op)
    ensures var (t, r) := R.Step(s.table, op); Kept(Executed(s, t, r).0) && Sound(Executed(s, t, r).0)
  {
    hide Sound, Core, Kept, R.Legal, R.Step, R.Balanced, E.Indexed, HandleEvents, AllReplySized, LogGrows;
    var (t, r) := R.Step(s.table, op);
    SoundRunning(s);
    ExecutorReports(s.table, op);
    if r.Ok? {
      BalancedKeeps(s.table, t, r.value);
      TableSound(s, t);
      SoundCore(s.(table := t));
      HandleKept(s, t, r.value);
    } else {
      assert s.(table := t) == s;
    }
    ExecutedSound(s, t, r);
  }

  // ------------------------------------------------------------ traffic calls

  lemma OpaqueKept(s: Session, m: Message)
    requires Kept(s) && s.phase == Running
    ensures Kept(Log(s, OpaqueArrived(m)))
  {
    hide SubmitsIn, AnswersIn, RepliesAmong, Queue, AllReplySized, DivCeil, LogGrows, Spent, Answers;
    LogTraffic(s, OpaqueArrived(m));
    SubmitsOne(s.log, OpaqueArrived(m));
    assert SubmitsIn(s.log) + [] == SubmitsIn(s.log);
  }

  lemma {:induction false} HandlePduKept(s: Session, m: Message)
    requires Sound(s) && Kept(s) && s.phase == Running
    ensures Kept(HandlePdu(s, m).0)
  {
    hide Sound, Kept, Usbip.DecodeRequest, Usbip.DecodeReply, E.AcceptPdu, Executed;
    if Usbip.IsControl(m.body) {
      OpaqueKept(s, m);
    } else {
      ExecutedKept(s, R.Accept(m.body));
    }
  }

  // The receive window and the record of what arrived matter to no account.
  lemma RxKept(s: Session, b: B.Broker, received: seq<Message>)
    requires Early(s) && Kept(s) && b == s.broker.(rx := b.rx)
    ensures Kept(s.(broker := b, received := received))
  {
    hide Kept, Early;
    QuietKept(s, s.(broker := b, received := received));
  }

  lemma SoundEarly(s: Session)
    requires Sound(s)
    ensures Early(s) && Placed(s)
  {
  }

  lemma {:induction false} DeliverKept(s: Session, m: Message)
    requires Sound(s) && Calm(s) && Kept(s) && s.phase == Running
    ensures Kept(Deliver(s, m).0)
  {
    hide Sound, Kept, Early, HandlePdu, Deliver, B.ReserveReceive;
    DeliverEffect(s, m);
    AdmittingSound(s, m);
    if B.ReserveReceive(s.broker, |m.body|).1.Ok? {
      Reserving(s.broker, |m.body|);
      SoundEarly(s);
      RxKept(s, B.ReserveReceive(s.broker, |m.body|).0, s.received + [m]);
      HandlePduKept(Admitting(s, m), m);
      HandlingKeeps(Admitting(s, m), m);
      var s' := HandlePdu(Admitting(s, m), m).0;
      SoundEarly(s');
      RxKept(s', Deliver(s, m).0.broker, s'.received);
      assert s'.(broker := Deliver(s, m).0.broker, received := s'.received) == Deliver(s, m).0;
    }
  }

  lemma {:induction false} ArriveDataKept(s: Session, payload: bytes, flags: u32)
    requires Sound(s) && Calm(s) && Kept(s) && s.phase == Running
    ensures Kept(ArriveData(s, payload, flags).0)
  {
    hide Sound, Kept, Early, DecodeFragment, Push, Deliver;
    var f := DecodeFragment(payload, flags);
    if f.Ok? {
      PushSound(s, f.value);
      SoundEarly(s);
      var (b, r) := Push(s.buffer, f.value);
      QuietKept(s, s.(buffer := b));
      if r.Ok? && r.value.Some? {
        DeliverKept(s.(buffer := b), r.value.value);
      }
    }
  }

  lemma {:induction false} SendNoStall(s: Session, m: Message)
    requires Core(s) && NoStall(s)
    ensures NoStall(SendPdu(s, m).0)
  {
    hide Core, SendPdu, AdmitsReplies, LogGrows;
    SendCore(s, m);
    OnlySentAdmits(s, SendPdu(s, m).0);
    if SendPdu(s, m).1.Ok? {
      SentTakesOne(s, m);
      assert SendPdu(s, m).0.reservations != map[];
    } else {
      RefusedKeepsOut(s, m);
    }
  }

  lemma {:induction false} SendPduKept(s: Session, m: Message)
    requires Sound(s) && Kept(s) && m.id < FIRST_INTERNAL
    ensures Kept(SendPdu(s, m).0)
  {
    SoundCore(s);
    if s.phase == Running {
      SendCore(s, m);
      hide Sound, Core, SendPdu, LogGrows, Ledger, NoStall, SubmitsIn, AnswersIn, Answers, AllReplySized, E.Indexed;
      SendLedger(s, m);
      SendNoStall(s, m);
      SendOnlyFrames(s, m);
      FramesAreNoSubmits(s.log, SendPdu(s, m).0.log);
    }
  }

  // An acknowledgement outside RUNNING sends nothing.
  lemma IdleAck(s: Session, id: u64)
    requires s.phase != Running
    ensures AckOutput(s, id).0 == (if id != 0 && id in s.reservations then Released(s, id) else s)
  {
    hide B.AckSend;
  }

  lemma {:induction false} AckAnswering(s: Session, id: u64)
    requires Core(s) && Answering(s)
    ensures Answering(AckOutput(s, id).0)
  {
    hide Core, Drain, B.AckSend, SubmitsIn, AnswersIn, Answers, LogGrows;
    if id != 0 && id in s.reservations {
      ReleaseCore(s, id);
      DrainCore(Released(s, id));
      DrainOnlyFrames(Released(s, id));
      FramesAreNoSubmits(s.log, Drain(Released(s, id)).0.log);
    }
  }

  lemma {:induction false} AckNoStall(s: Session, id: u64)
    requires Core(s) && Ledger(s) && Sized(s) && NoStall(s)
    requires s.phase == Running && s.broker.state == B.Established
    ensures NoStall(AckOutput(s, id).0)
  {
    if id != 0 && id in s.reservations {
      ReleaseCore(s, id);
      assert Ledger(Released(s, id)) by {
        hide RepliesAmong, Queue, Core;
      }
      hide Core, Ledger, Drain, B.AckSend, LogGrows, ReplySized, NoStall;
      DrainNoStall(Released(s, id));
    }
  }

  lemma {:induction false} AckOutputKept(s: Session, id: u64)
    requires Sound(s) && Kept(s)
    ensures Kept(AckOutput(s, id).0)
  {
    SoundCore(s);
    hide Sound, Core, AckOutput, LogGrows, Ledger, SubmitsIn, AnswersIn, Answers, AllReplySized, E.Indexed, Answering;
    AckCore(s, id);
    AckLedger(s, id);
    AckAnswering(s, id);
    if s.phase == Running {
      SoundRunning(s);
      AckNoStall(s, id);
    } else {
      IdleAck(s, id);
    }
  }

  // ---------------------------------------------------------------- quiet calls

  lemma SaysNothing(log: seq<Event>, p: Phase, p': Phase)
    requires Rank(p) <= Rank(p') && (p' == Running ==> p == Running)
    ensures Says(log, log, p, p')
  {
  }

  lemma SaysOne(log: seq<Event>, e: Event, p: Phase, p': Phase)
    requires !Carried(e) && (e == ClosedEvent ==> p' == Closed)
    requires (IsClose(e) ==> Rank(p') > Rank(Running)) && (Rank(p) > Rank(Running) ==> IsClose(e))
    requires Rank(p) <= Rank(p') && (p' == Running && p != Running ==> e == Opened) && !(p.Closed? || p.Failed?)
    ensures Says(log, log + [e], p, p')
  {
    hide Carried, IsClose;
  }

  lemma SaysTwo(log: seq<Event>, d: Event, e: Event, p: Phase, p': Phase)
    requires !Carried(d) && d != ClosedEvent && !Carried(e) && !IsClose(e) && (e == ClosedEvent ==> p' == Closed)
    requires (IsClose(d) ==> e == ClosedEvent) && (Rank(p) > Rank(Running) ==> IsClose(d))
    requires Rank(p) <= Rank(p') && (p' == Running && p != Running ==> e == Opened) && !(p.Closed? || p.Failed?)
    ensures Says(log, log + [d] + [e], p, p')
  {
    hide Carried, IsClose;
    assert (log + [d] + [e])[|log| + 1] == e;
  }

  lemma {:induction false} QueueQuiet(s: Session, kind: MessageType, payload: bytes)
    requires Core(s) && kind != UsbIpData && |payload| <= MAX_PAYLOAD && Content(kind, 0, payload, s.hello)
    ensures var (s', r) := QueueFrame(s, 0, kind, 0, payload);
      && s' == s.(nextTx := s'.nextTx, log := s'.log)
      && (r.Err? ==> s' == s)
      && (r.Ok? ==>
            var e := OutputFrame(0, FrameBytes(s.hello.sessionToken, s.nextTx, kind, 0, payload));
            s'.log == s.log + [e] && !Carried(e) && (IsClose(e) <==> kind == CloseMsg))
  {
    hide Core, QueueFrame, Content, DecodeFrame, FrameBytes;
    ControlCore(s, kind, payload);
  }

  // A call that queues one control frame and moves on.
  lemma ControlQuiet(s: Session, kind: MessageType, payload: bytes, p: Phase)
    requires Core(s) && kind != UsbIpData && kind != CloseMsg && Rank(s.phase) < Rank(Running) &&
        |payload| <= MAX_PAYLOAD && Content(kind, 0, payload, s.hello)
    requires s.phase != Running && p != Running && Rank(s.phase) <= Rank(p) && !(s.phase.Closed? || s.phase.Failed?)
    ensures var (s', r) := QueueFrame(s, 0, kind, 0, payload);
      && (r.Err? ==> QuietStep(s, s'))
      && (r.Ok? ==> QuietStep(s, s'.(phase := p)))
  {
    hide Core, QueueFrame, Content, Carried, IsClose, FrameBytes, Says;
    QueueQuiet(s, kind, payload);
    SaysNothing(s.log, s.phase, s.phase);
    if QueueFrame(s, 0, kind, 0, payload).1.Ok? {
      SaysOne(s.log, OutputFrame(0, FrameBytes(s.hello.sessionToken, s.nextTx, kind, 0, payload)), s.phase, p);
    }
  }

  lemma StillQuiet(s: Session)
    ensures QuietStep(s, s)
  {
    hide Carried, IsClose;
  }

  lemma HandshakeQuiet(s: Session, c: Call)
    requires c.CallStart? || c.CallAcceptHello?
    ensures QuietStep(s, Step(s, c).0)
  {
    assert forall w :: !Carried(OutputHello(w)) && !IsClose(OutputHello(w));
    hide B.AcceptHello, B.EncodeHello, Carried, IsClose, Says;
    var s' := Step(s, c).0;
    if s'.log == s.log {
      SaysNothing(s.log, s.phase, s'.phase);
    } else {
      SaysOne(s.log, s'.log[|s.log|], s.phase, s'.phase);
    }
  }

  lemma SendCapabilityQuiet(s: Session, c: Capability)
    requires Sound(s)
    ensures QuietStep(s, SendCapability(s, c).0)
  {
    hide Sound, Core, QueueFrame, EncodeCapability, Content, QuietStep;
    SoundCore(s);
    StillQuiet(s);
    if s.phase == AwaitCapability && TokensMatch(s, c.leaseToken, c.attachmentToken) && EncodeCapability(c).Ok? {
      CapabilityContent(c, s.hello);
      ControlQuiet(s, CapabilityMsg, EncodeCapability(c).value, AwaitOpen);
      var (s', r) := QueueFrame(s, 0, CapabilityMsg, 0, EncodeCapability(c).value);
      assert s.role.Exporter? ==> SendCapability(s, c).0 == if r.Ok? then s'.(phase := AwaitOpen) else s';
    }
  }

  lemma SendOpenQuiet(s: Session)
    requires Sound(s)
    ensures QuietStep(s, SendOpen(s).0)
  {
    hide Sound, Core, QueueFrame, EncodeOpen, Content, QuietStep;
    SoundCore(s);
    SoundHello(s);
    StillQuiet(s);
    if s.phase == AwaitOpen {
      OpenContent(s.hello);
      ControlQuiet(s, OpenMsg, EncodeOpen(Open(s.hello.leaseToken, s.hello.attachmentToken)).value, AwaitOpenReply);
      var (s', r) := QueueFrame(s, 0, OpenMsg, 0, EncodeOpen(Open(s.hello.leaseToken, s.hello.attachmentToken)).value);
      assert s.role.Importer? ==> SendOpen(s).0 == if r.Ok? then s'.(phase := AwaitOpenReply) else s';
    }
  }

  lemma SendOpenOkQuiet(s: Session)
    requires Sound(s)
    ensures QuietStep(s, SendOpenOk(s).0)
  {
    hide Sound, Core, QueueFrame, Carried, IsClose, Says, FrameBytes;
    SoundCore(s);
    SaysNothing(s.log, s.phase, s.phase);
    if s.role.Exporter? && s.phase == AwaitOpenReply {
      QueueQuiet(s, OpenOkMsg, []);
      var (s', r) := QueueFrame(s, 0, OpenOkMsg, 0, []);
      if r.Ok? {
        PlainEvents(Opened);
        SaysTwo(s.log, s'.log[|s.log|], Opened, s.phase, Running);
        assert SendOpenOk(s).0.log == s.log + [s'.log[|s.log|]] + [Opened];
      }
    }
  }

  lemma SendOpenRejectQuiet(s: Session, status: u32)
    requires Sound(s)
    ensures QuietStep(s, SendOpenReject(s, status).0)
  {
    hide Sound, Core, QueueFrame, Content, QuietStep;
    SoundCore(s);
    StillQuiet(s);
    if s.phase == AwaitOpenReply && 1 <= status <= 10 {
      RejectContent(status, s.hello);
      ControlQuiet(s, OpenRejectMsg, PutU32Le(status), Closed);
      var (s', r) := QueueFrame(s, 0, OpenRejectMsg, 0, PutU32Le(status));
      assert s.role.Exporter? ==> SendOpenReject(s, status).0 == if r.Ok? then s'.(phase := Closed) else s';
    }
  }

  // The CLOSE frame of a session that is ending, if it goes out.
  lemma ClosingFrame(s: Session)
    requires Sound(s) && !(s.phase.Closed? || s.phase.Failed?)
    ensures var c := s.(phase := Closing);
      var (s', r) := QueueFrame(c, 0, CloseMsg, 0, PutU64Le(s.hello.leaseToken));
      && s' == c.(nextTx := s'.nextTx, log := s'.log)
      && (r.Err? ==> s' == c)
      && (r.Ok? ==>
            && |s'.log| == |s.log| + 1 && s'.log == s.log + [s'.log[|s.log|]]
            && var e := s'.log[|s.log|]; e.OutputFrame? && !Carried(e) && IsClose(e))
  {
    hide Sound, QueueFrame, Carried, IsClose, Content, Core, FrameBytes, DecodeFrame, LogGrows;
    var c := s.(phase := Closing);
    EndingSound(s, Closing, s.buffer);
    assert s.(phase := Closing, buffer := s.buffer) == c;
    SoundCore(c);
    CloseContent(c.hello);
    QueueQuiet(c, CloseMsg, PutU64Le(c.hello.leaseToken));
  }

  lemma FinishCloseQuiet(s: Session)
    requires Sound(s) && !(s.phase.Closed? || s.phase.Failed?)
    ensures QuietStep(s, FinishClose(s).0)
  {
    hide Sound, QueueFrame, Carried, IsClose, B.CloseBroker, Says;
    ClosingFrame(s);
    var (s', r) := QueueFrame(s.(phase := Closing), 0, CloseMsg, 0, PutU64Le(s.hello.leaseToken));
    if r.Err? {
      SaysNothing(s.log, s.phase, Closing);
    } else {
      PlainEvents(ClosedEvent);
      SaysOne(s.log, s'.log[|s.log|], s.phase, Closing);
      SaysTwo(s.log, s'.log[|s.log|], ClosedEvent, s.phase, Closed);
    }
  }

  // What a control frame may change and say.
  predicate ControlOutcome(s: Session, s': Session) {
    && s' == s.(phase := s'.phase, broker := s'.broker, log := s'.log, buffer := s'.buffer)
    && Rank(s.phase) <= Rank(s'.phase) && (s.phase == Running && s'.phase == Running ==> s'.broker == s.broker)
    && (s'.log == s.log || (|s'.log| == |s.log| + 1 && s'.log == s.log + [s'.log[|s.log|]]))
    && (s'.log == s.log ==> (s'.phase == Running ==> s.phase == Running))
    && (s'.log != s.log ==>
          var e := s'.log[|s.log|];
          && (e.CapabilityArrived? || e.OpenArrived? || e.Opened? || e.OpenRejected? || e.ClosedEvent?)
          && (e.ClosedEvent? ==> s'.phase == Closed)
          && (s'.phase == Running && s.phase != Running ==> e == Opened))
  }

  lemma ControlOutcomes(s: Session, h: FrameHeader, payload: bytes)
    requires Receiving(s.phase) && h.messageType != UsbIpData
    ensures ControlOutcome(s, Arrive(s, h, payload).0)
  {
    hide DecodeCapability, DecodeOpen, B.CloseBroker;
  }

  lemma OutcomeQuiet(s: Session, s': Session)
    requires Receiving(s.phase) && ControlOutcome(s, s')
    ensures QuietStep(s, s')
  {
    hide Says;
    if s'.log == s.log {
      SaysNothing(s.log, s.phase, s'.phase);
    } else {
      var e := s'.log[|s.log|];
      PlainEvents(e);
      SaysOne(s.log, e, s.phase, s'.phase);
    }
  }

  lemma ArriveQuiet(s: Session, h: FrameHeader, payload: bytes)
    requires Receiving(s.phase) && h.messageType != UsbIpData
    ensures QuietStep(s, Arrive(s, h, payload).0)
  {
    hide Arrive, ControlOutcome, QuietStep;
    ControlOutcomes(s, h, payload);
    OutcomeQuiet(s, Arrive(s, h, payload).0);
  }

  lemma PlainEvents(e: Event)
    requires e.CapabilityArrived? || e.OpenArrived? || e.Opened? || e.OpenRejected? || e.ClosedEvent?
    ensures !Carried(e) && !IsClose(e)
  {
  }

  // -------------------------------------------------------------- every call

  lemma {:induction false} CloseKept(s: Session, order: seq<u64>)
    requires Sound(s) && Kept(s) && (s.phase.Running? ==> E.Lists(order, s.table.byToken.Keys))
    ensures Kept(Close(s, order).0)
  {
    hide Sound, Kept, E.CloseAll, E.Lists, FinishClose, HandleEvents, Early, QuietStep;
    if s.phase.Closed? || s.phase.Failed? {
    } else if s.phase.Running? {
      var (t, events) := E.CloseAll(s.table, order);
      ExecutedKept(s, R.Shut(order));
      var (s', r) := HandleEvents(s.(table := t), events);
      assert Executed(s, t, Ok(events)).0 == s';
      if r.Ok? {
        HandlePhase(s, order);
        FinishCloseKept(s');
      }
    } else {
      FinishCloseKept(s);
    }
  }

  lemma HandlePhase(s: Session, order: seq<u64>)
    requires Sound(s) && s.phase == Running && E.Lists(order, s.table.byToken.Keys)
    ensures var (t, events) := E.CloseAll(s.table, order);
      HandleEvents(s.(table := t), events).0.phase == Running
  {
    hide Sound, HandleEvents, Core, LogGrows, E.CloseAll, E.Lists, E.Indexed;
    SoundCore(s);
    var (t, events) := E.CloseAll(s.table, order);
    CloseAllKeeps(s.table, order);
    TableSound(s, t);
    SoundCore(s.(table := t));
    HandleCore(s.(table := t), events);
  }

  lemma FinishCloseKept(s: Session)
    requires Sound(s) && Kept(s) && !(s.phase.Closed? || s.phase.Failed?)
    ensures Kept(FinishClose(s).0)
  {
    hide Sound, Kept, FinishClose, Early, QuietStep;
    FinishCloseQuiet(s);
    SoundEarly(s);
    QuietKept(s, FinishClose(s).0);
  }

  lemma {:induction false} ArriveKept(s: Session, h: FrameHeader, payload: bytes)
    requires Sound(s) && Calm(s) && Kept(s) && Receiving(s.phase)
    ensures Kept(Arrive(s, h, payload).0)
  {
    hide Sound, Kept, ArriveData, ArriveClose, ArriveCapability, ArriveOpen, ArriveReject, QuietStep, Early;
    if h.messageType == UsbIpData {
      if s.phase.Running? {
        ArriveDataKept(s, payload, h.flags);
      }
    } else {
      ArriveQuiet(s, h, payload);
      SoundEarly(s);
      QuietKept(s, Arrive(s, h, payload).0);
    }
  }

  // The phases a session is in while it stays in the same place but for the incoming side.
  lemma InsideQuiet(s: Session, s': Session)
    requires s' == s.(phase := s'.phase, nextRx := s'.nextRx, buffer := s'.buffer)
    requires s'.phase == s.phase || s'.phase == Failed
    ensures QuietStep(s, s')
  {
    hide Carried, IsClose;
  }

  lemma {:induction false} AcceptFrameKept(s: Session, wire: bytes)
    requires Sound(s) && Calm(s) && Kept(s)
    ensures Kept(AcceptFrame(s, wire).0)
  {
    hide Sound, Kept, Calm, DecodeFrame, Arrive, QuietStep, Early;
    var d := DecodeFrame(wire);
    if Receiving(s.phase) && d.Ok? && NextSequence(s.nextRx).Ok? {
      var n := s.(nextRx := s.nextRx + 1);
      NumberedSound(s);
      InsideQuiet(s, n);
      SoundEarly(s);
      QuietKept(s, n);
      assert Calm(n) by { assert n.broker == s.broker; CalmIsRx(s, n); }
      ArriveSound(n, d.value.0, d.value.1);
      ArriveKept(n, d.value.0, d.value.1);
    }
    var s' := AcceptFrameInner(s, wire).0;
    assert Sound(s') && Kept(s');
    SoundEarly(s');
    InsideQuiet(s', s'.(phase := Failed, buffer := Cleared(s'.buffer)));
    QuietKept(s', s'.(phase := Failed, buffer := Cleared(s'.buffer)));
  }

  // A caller that keeps its own message ids apart from the internal ones.
  predicate Polite(c: Call) {
    c.CallSendPdu? ==> c.message.id < FIRST_INTERNAL
  }

  lemma {:induction false} TransferCallsKept(s: Session, c: Call)
    requires Sound(s) && Kept(s) && (c.CallComplete? || c.CallCancel?)
    ensures Kept(Step(s, c).0)
  {
    hide Sound, Kept, E.Complete, E.CompleteCancel, Executed, E.Lists;
    if s.phase == Running {
      ExecutedKept(s, if c.CallComplete? then R.Finish(c.token, c.completion) else R.Cancel(c.cancelToken,
          c.cancelStatus));
    }
  }

  lemma {:induction false} QuietCallKept(s: Session, c: Call)
    requires Sound(s) && Kept(s)
    requires SetsUp(c)
    ensures Kept(Step(s, c).0)
  {
    hide Sound, Kept, QuietStep, Early, Start, AcceptHello, SendCapability, SendOpen, SendOpenOk, SendOpenReject;
    SoundEarly(s);
    match c {
      case CallSendCapability(capability) => SendCapabilityQuiet(s, capability);
      case CallSendOpen => SendOpenQuiet(s);
      case CallSendOpenOk => SendOpenOkQuiet(s);
      case CallSendOpenReject(status) => SendOpenRejectQuiet(s, status);
      case _ => HandshakeQuiet(s, c);
    }
    QuietKept(s, Step(s, c).0);
  }

  /** Every call keeps the order of events and the accounts of transfers and replies, even one that fails. */
  lemma {:induction false} CallKept(s: Session, c: Call)
    requires Sound(s) && Calm(s) && Kept(s) && Legal(s, c) && Polite(c)
    ensures Kept(Step(s, c).0)
  {
    match c
    case CallSendPdu(m) =>
      hide Sound, Kept, SendPdu, Calm;
      SendPduKept(s, m);
    case CallAckOutput(id) =>
      hide Sound, Kept, AckOutput, Calm;
      AckOutputKept(s, id);
    case CallAcceptFrame(wire) =>
      hide Sound, Kept, AcceptFrame, Calm;
      AcceptFrameKept(s, wire);
    case CallClose(order) =>
      hide Sound, Kept, Close, Calm, E.Lists;
      CloseKept(s, order);
    case CallComplete(_, _) =>
      hide Sound, Kept, Step, Calm;
      TransferCallsKept(s, c);
    case CallCancel(_, _) =>
      hide Sound, Kept, Step, Calm;
      TransferCallsKept(s, c);
    case _ =>
      hide Sound, Kept, Step, Calm;
      QuietCallKept(s, c);
  }

  ghost predicate PoliteRun(calls: seq<Call>) {
    forall i :: 0 <= i < |calls| ==> Polite(calls[i])
  }

  lemma MadeKept(s: Session)
    requires Made(s)
    ensures Kept(s)
  {
    assert SubmitsIn([]) == [] && AnswersIn([]) == [] && RepliesAmong([]) == [];
    hide Carried, DivCeil;
  }

  lemma {:induction false} AlwaysKept(s: Session, calls: seq<Call>)
    requires Made(s) && LegalRun(s, calls) && PoliteRun(calls)
    ensures Kept(After(s, calls))
  {
    hide Sound, Calm, Kept, Step, Legal, Made;
    if calls == [] {
      MadeKept(s);
    } else {
      var front := calls[..|calls| - 1];
      AlwaysKept(s, front);
      AlwaysSound(s, front);
      CallKept(After(s, front), calls[|calls| - 1]);
    }
  }
}
