/** What a session makes of the messages it receives: what its program is told, what it answers, what it refuses. */
module Deliveries {
  import opened Base
  import opened Wire
  import opened Reassembly
  import opened Session
  import opened Frames
  import opened Traffic
  import opened ReplyQueue
  import opened SessionCalls
  import opened SessionRuns
  import opened SessionLaws
  import opened Closing
  import opened Peers
  import opened TwoParty
  import B = Broker
  import E = Execution
  import L = ExecutionLaws
  import R = ExecutionRuns
  import Pdu
  import Usbip

  // -------------------------------------------------------------- what is told

  /** What a message means to the program that is told of it: a transfer to perform, or a control message passed on. */
  datatype Told = Asked(request: Pdu.SubmitRequest) | Passed(message: Message)

  function ToldOf(e: Event): seq<Told> {
    match e
    case SubmitArrived(_, request) => [Asked(request)]
    case OpaqueArrived(m) => [Passed(m)]
    case _ => []
  }

  /** What a program was told of transfers and control messages, in order. */
  function ToldIn(log: seq<Event>): seq<Told> {
    if log == [] then [] else ToldIn(log[..|log| - 1]) + ToldOf(log[|log| - 1])
  }

  function MeaningOf(m: Message): seq<Told> {
    if Usbip.IsControl(m.body) then [Passed(m)]
    else
      var d := Pdu.DecodeRequest(m.body);
      if d.Ok? && d.value.Submit? then [Asked(d.value.submit)] else []
  }

  /** What some messages ask and pass on, read from their bytes, in order. */
  function MeantIn(ms: seq<Message>): seq<Told> {
    if ms == [] then [] else MeantIn(ms[..|ms| - 1]) + MeaningOf(ms[|ms| - 1])
  }

  lemma ToldOne(log: seq<Event>, e: Event)
    ensures ToldIn(log + [e]) == ToldIn(log) + ToldOf(e)
  {
    hide ToldOf;
    assert (log + [e])[..|log|] == log;
  }

  lemma MeantOne(ms: seq<Message>, m: Message)
    ensures MeantIn(ms + [m]) == MeantIn(ms) + MeaningOf(m)
  {
    hide MeaningOf;
    assert (ms + [m])[..|ms|] == ms;
  }

  lemma {:induction false} MeantPrefix(a: seq<Message>, b: seq<Message>)
    requires a <= b
    ensures MeantIn(a) <= MeantIn(b)
    decreases |b|
  {
    hide MeaningOf;
    if a == b {
    } else {
      var n := |b| - 1;
      MeantPrefix(a, b[..n]);
      MeantOne(b[..n], b[n]);
      assert b[..n] + [b[n]] == b;
    }
  }

  // Events that tell of neither leave the account as it was.
  lemma {:induction false} NothingTold(log: seq<Event>, log': seq<Event>)
    requires log <= log' && forall i :: |log| <= i < |log'| ==> ToldOf(log'[i]) == []
    ensures ToldIn(log') == ToldIn(log)
    decreases |log'|
  {
    hide ToldOf;
    if log == log' {
    } else {
      var n := |log'| - 1;
      NothingTold(log, log'[..n]);
      ToldOne(log'[..n], log'[n]);
      assert log'[..n] + [log'[n]] == log';
      assert ToldIn(log'[..n]) + [] == ToldIn(log'[..n]);
    }
  }

  lemma FramesTellNothing(log: seq<Event>, log': seq<Event>)
    requires OnlyFrames(log, log')
    ensures ToldIn(log') == ToldIn(log)
  {
    NothingTold(log, log');
  }

  lemma QuietTellsNothing(s: Session, s': Session)
    requires QuietStep(s, s')
    ensures ToldIn(s'.log) == ToldIn(s.log)
  {
    forall i | |s.log| <= i < |s'.log|
      ensures ToldOf(s'.log[i]) == []
    {
      assert !Carried(s'.log[i]);
    }
    hide Carried, ToldOf;
    NothingTold(s.log, s'.log);
  }

  // ------------------------------------------------------------ the accounts

  function UnlinkOf(m: Message): seq<u32> {
    var d := Pdu.DecodeRequest(m.body);
    if !Usbip.IsControl(m.body) && d.Ok? && d.value.Unlink? then [d.value.unlink.seqnum] else []
  }

  /** The numbers of the UNLINKs among some messages. */
  function UnlinksAmong(ms: seq<Message>): seq<u32> {
    if ms == [] then [] else UnlinksAmong(ms[..|ms| - 1]) + UnlinkOf(ms[|ms| - 1])
  }

  function UnlinkAnswerOf(pdu: bytes): seq<u32> {
    var r := Pdu.DecodeReply(pdu);
    if r.Ok? && r.value.UnlinkRet? then [r.value.unlink.seqnum] else []
  }

  /** The numbers answered with RET_UNLINK, read from the bytes of replies. */
  function UnlinkAnswersIn(bodies: seq<bytes>): seq<u32> {
    if bodies == [] then [] else UnlinkAnswersIn(bodies[..|bodies| - 1]) + UnlinkAnswerOf(bodies[|bodies| - 1])
  }

  lemma UnlinksOne(ms: seq<Message>, m: Message)
    ensures UnlinksAmong(ms + [m]) == UnlinksAmong(ms) + UnlinkOf(m)
  {
    hide UnlinkOf;
    assert (ms + [m])[..|ms|] == ms;
  }

  lemma UnlinkAnswersOne(bodies: seq<bytes>, pdu: bytes)
    ensures UnlinkAnswersIn(bodies + [pdu]) == UnlinkAnswersIn(bodies) + UnlinkAnswerOf(pdu)
  {
    hide UnlinkAnswerOf;
    assert (bodies + [pdu])[..|bodies|] == bodies;
  }

  // The last of some events, read as a reply or not.
  lemma RepliesLast(events: seq<E.ExecutorEvent>, e: E.ExecutorEvent)
    ensures RepliesIn(events + [e]) == RepliesIn(events) + (if e.ReplyEvent? then [e.pdu] else [])
    decreases |events|
  {
    if events != [] {
      RepliesLast(events[1..], e);
      assert (events + [e])[1..] == events[1..] + [e];
    } else {
      assert (events + [e])[1..] == [];
    }
  }

  lemma OneUnlinkRead(e: E.ExecutorEvent)
    ensures R.Keep(R.Unlinked, [e]) == if e.ReplyEvent? then UnlinkAnswerOf(e.pdu) else []
  {
    hide Pdu.DecodeReply;
    R.KeepOne(R.Unlinked, e);
  }

  lemma NoAnswers(bodies: seq<bytes>)
    ensures UnlinkAnswersIn(bodies + RepliesIn([])) == UnlinkAnswersIn(bodies) + R.Keep(R.Unlinked, [])
  {
    assert bodies + [] == bodies;
    assert UnlinkAnswersIn(bodies) + [] == UnlinkAnswersIn(bodies);
  }

  lemma {:induction false} UnlinkAnswersRead(bodies: seq<bytes>, events: seq<E.ExecutorEvent>)
    ensures UnlinkAnswersIn(bodies + RepliesIn(events)) == UnlinkAnswersIn(bodies) + R.Keep(R.Unlinked, events)
    decreases |events|
  {
    hide RepliesIn, UnlinkAnswersIn, UnlinkAnswerOf, R.Keep, R.Unlinked;
    if events == [] {
      NoAnswers(bodies);
    } else {
      var front, e := events[..|events| - 1], events[|events| - 1];
      assert front + [e] == events;
      UnlinkAnswersRead(bodies, front);
      RepliesLast(front, e);
      R.KeepConcat(R.Unlinked, front, [e]);
      OneUnlinkRead(e);
      if e.ReplyEvent? {
        UnlinkAnswersOne(bodies + RepliesIn(front), e.pdu);
        assert bodies + RepliesIn(events) == bodies + RepliesIn(front) + [e.pdu];
        RegroupNumbers(UnlinkAnswersIn(bodies), R.Keep(R.Unlinked, front), R.Keep(R.Unlinked, [e]));
      } else {
        assert RepliesIn(events) == RepliesIn(front);
        assert R.Keep(R.Unlinked, front) + [] == R.Keep(R.Unlinked, front);
      }
    }
  }

  predicate IsReply(body: bytes) {
    Pdu.DecodeReply(body).Ok?
  }

  /** What a session has made of some messages: told what they mean, accounted for their UNLINKs, met no reply. */
  ghost predicate HeededUpTo(s: Session, ms: seq<Message>) {
    && ToldIn(s.log) == MeantIn(ms)
    && R.UnlinksAccounted(s.table, UnlinksAmong(ms), UnlinkAnswersIn(s.produced))
    && forall i :: 0 <= i < |ms| ==> !IsReply(ms[i].body)
  }

  ghost predicate HeededButLast(s: Session) {
    s.received != [] && HeededUpTo(s, s.received[..|s.received| - 1])
  }

  /** A session has heeded all it received; a failed one, all of it or all but the last. */
  ghost predicate Heeded(s: Session) {
    HeededUpTo(s, s.received) || (s.phase == Failed && HeededButLast(s))
  }

  // --------------------------------------------------------- replies refused

  /** No session takes a reply: it is read as a request, of a kind that is not supported, whatever the role. */
  lemma RepliesAreRefused(s: Session, m: Message)
    requires IsReply(m.body)
    ensures HandlePdu(s, m) == (s, Err(Unsupported))
  {
    Usbip.KindsAreDisjoint(m.body);
    RepliesAreNoRequests(m.body);
    hide Usbip.IsControl, Pdu.DecodeRequest, Pdu.DecodeReply;
    assert s.(table := s.table) == s;
  }

  lemma RepliesAreNoRequests(body: bytes)
    requires IsReply(body)
    ensures Pdu.DecodeRequest(body) == Err(Unsupported)
  {
    hide Pdu.DecodeSubmit, Pdu.DecodeUnlink, Pdu.DecodeSubmitReply, Pdu.DecodeUnlinkReply;
  }

  /** Every reply of the executor is such a reply: the bytes it encodes to are refused by every session. */
  lemma EncodedRepliesAreRefused(s: Session, id: u64, r: Pdu.Reply)
    requires Pdu.EncodeReply(r).Ok?
    ensures HandlePdu(s, Message(id, Pdu.EncodeReply(r).value)) == (s, Err(Unsupported))
  {
    hide Pdu.DecodeReply, Pdu.EncodeReply, HandlePdu;
    Pdu.ReplyRoundTrip(r);
    RepliesAreRefused(s, Message(id, Pdu.EncodeReply(r).value));
  }

  lemma {:induction false} ReplyNotDelivered(s: Session, m: Message)
    requires Sound(s) && Calm(s) && s.phase == Running && IsReply(m.body)
    ensures Deliver(s, m).1.Err?
  {
    hide Sound, HandlePdu, Deliver, B.ReserveReceive, IsReply;
    DeliverEffect(s, m);
    RepliesAreRefused(Admitting(s, m), m);
  }

  /** The frame that completes a reply ends the session that receives it. */
  lemma {:induction false} ReplyEndsSession(s: Session, wire: bytes)
    requires Sound(s) && Calm(s) && s.phase == Running && DecodeFrame(wire).Ok?
    requires var (h, payload) := DecodeFrame(wire).value;
      && h.messageType == UsbIpData && DecodeFragment(payload, h.flags).Ok?
      && var r := Push(s.buffer, DecodeFragment(payload, h.flags).value).1;
         r.Ok? && r.value.Some? && IsReply(r.value.value.body)
    ensures AcceptFrame(s, wire).1.Err? && AcceptFrame(s, wire).0.phase == Failed
  {
    hide Sound, Calm, DecodeFrame, DecodeFragment, Push, Deliver, IsReply;
    var (h, payload) := DecodeFrame(wire).value;
    if NextSequence(s.nextRx).Ok? {
      var n := s.(nextRx := s.nextRx + 1);
      NumberedSound(s);
      CalmIsRx(s, n);
      var f := DecodeFragment(payload, h.flags).value;
      PushSound(n, f);
      var (b, r) := Push(n.buffer, f);
      CalmIsRx(n, n.(buffer := b));
      ReplyNotDelivered(n.(buffer := b), r.value.value);
    }
  }

  // ------------------------------------------------------- what handling tells

  // What the executor's events tell the program.
  function Spoken(events: seq<E.ExecutorEvent>): seq<Told> {
    ToldIn(Arrivals(events))
  }

  predicate AllReplies(events: seq<E.ExecutorEvent>) {
    forall i :: 0 <= i < |events| ==> events[i].ReplyEvent?
  }

  lemma {:induction false} RepliesSayNothing(events: seq<E.ExecutorEvent>)
    requires AllReplies(events)
    ensures Arrivals(events) == [] && Spoken(events) == []
  {
    if events != [] {
      RepliesSayNothing(events[1..]);
    }
  }

  lemma {:induction false} TakeReplies(s: Session, events: seq<E.ExecutorEvent>)
    requires AllReplies(events)
    ensures TakeEvents(s, events).0.log == s.log
    decreases |events|
  {
    if events != [] && TakeEvent(s, events[0]).1.Ok? {
      TakeReplies(TakeEvent(s, events[0]).0, events[1..]);
    }
  }

  lemma ToldSingle(e: Event)
    ensures ToldIn([e]) == ToldOf(e) && ToldIn([]) == []
  {
    ToldOne([], e);
    hide ToldOf;
    assert [] + [e] == [e] && [] + ToldOf(e) == ToldOf(e);
  }

  lemma SpokenOne(e: E.ExecutorEvent)
    ensures Spoken([e]) == if e.SubmitEvent? then [Asked(e.request)] else []
  {
    hide Arrivals, ToldIn;
    ArrivalsAlone(e);
    ToldSingle(SubmitArrived(0, if e.SubmitEvent? then e.request else L.Tiny()));
    if Arrivals([e]) != [] {
      ToldSingle(Arrivals([e])[0]);
    }
  }

  lemma LoggedOne(s: Session, e: E.ExecutorEvent)
    ensures TakeEvents(s, [e]).0.log == s.log + Arrivals([e])
  {
    ArrivalsAlone(e);
    assert [e][1..] == [];
  }

  lemma TakeOne(s: Session, e: E.ExecutorEvent)
    ensures ToldIn(TakeEvents(s, [e]).0.log) == ToldIn(s.log) + Spoken([e])
  {
    hide ToldIn, TakeEvents, Arrivals, ToldOf;
    LoggedOne(s, e);
    ArrivalsAlone(e);
    ToldSingle(CancelArrived(0, 0));
    if Arrivals([e]) == [] {
      assert s.log + [] == s.log && ToldIn(s.log) + [] == ToldIn(s.log);
    } else {
      ToldOne(s.log, Arrivals([e])[0]);
      ToldSingle(Arrivals([e])[0]);
    }
  }

  // The executor reports either one thing or replies only.
  predicate OneOrReplies(events: seq<E.ExecutorEvent>) {
    |events| == 1 || AllReplies(events)
  }

  lemma {:induction false} HandleTells(s: Session, events: seq<E.ExecutorEvent>)
    requires Core(s) && OneOrReplies(events)
    ensures ToldIn(HandleEvents(s, events).0.log) == ToldIn(s.log) + Spoken(events)
  {
    hide Core, TakeEvents, ToldIn, Spoken, FramesIn, LogGrows, RepliesIn;
    var p := s.(produced := s.produced + RepliesIn(events));
    if AllReplies(events) {
      RepliesSayNothing(events);
      TakeReplies(p, events);
      assert ToldIn(s.log) + [] == ToldIn(s.log);
    } else {
      assert events == [events[0]];
      TakeOne(p, events[0]);
    }
    var (m, r) := TakeEvents(p, events);
    if r.Ok? {
      TakenCore(s, events);
      DrainOnlyFrames(m);
      FramesTellNothing(m.log, Drain(m).0.log);
    }
  }

  lemma RepliesAreAll(p: E.Pending, c: E.Completion, status: i32)
    requires E.Replies(p, c, status).Ok?
    ensures AllReplies(E.Replies(p, c, status).value)
  {
    hide Pdu.EncodeSubmitReply, Pdu.EncodeUnlinkReply;
  }

  lemma CompletionRepliesOnly(t: E.Table, token: u64, c: E.Completion, status: i32)
    ensures E.Complete(t, token, c).1.Ok? ==> AllReplies(E.Complete(t, token, c).1.value)
    ensures E.CompleteCancel(t, token, status).1.Ok? ==> AllReplies(E.CompleteCancel(t, token, status).1.value)
  {
    if token in t.byToken && t.byToken[token] in t.bySeqnum {
      var p := t.bySeqnum[t.byToken[token]];
      if E.Replies(p, c, 0).Ok? {
        RepliesAreAll(p, c, 0);
      }
      if E.Replies(p, E.CANCELLATION, status).Ok? {
        RepliesAreAll(p, E.CANCELLATION, status);
      }
    }
    hide E.Replies, AllReplies, E.Remember;
    assert AllReplies([]) by { NoRepliesNone(); }
  }

  lemma NoRepliesNone()
    ensures AllReplies([])
  {
  }

  lemma {:induction false} ClosingRepliesOnly(t: E.Table, order: seq<u64>)
    ensures AllReplies(E.CloseAll(t, order).1)
  {
    hide E.Replies, E.Remember;
    if order != [] {
      var n := |order| - 1;
      ClosingRepliesOnly(t, order[..n]);
      var m := E.CloseAll(t, order[..n]).0;
      if order[n] in m.byToken && m.byToken[order[n]] in m.bySeqnum {
        var p := m.bySeqnum[m.byToken[order[n]]];
        if E.Replies(p, E.CANCELLATION, E.STATUS_CANCELLED).Ok? {
          RepliesAreAll(p, E.CANCELLATION, E.STATUS_CANCELLED);
        }
      }
    }
  }

  // What handing the executor a message brings about is what the message means.
  lemma AcceptMeans(t: E.Table, m: Message)
    requires !Usbip.IsControl(m.body) && E.AcceptPdu(t, m.body).1.Ok?
    ensures OneOrReplies(E.AcceptPdu(t, m.body).1.value)
    ensures Spoken(E.AcceptPdu(t, m.body).1.value) == MeaningOf(m)
    ensures var u := R.AcceptedUnlink(t, R.Accept(m.body));
      UnlinkOf(m) == if u.Some? then [u.value] else []
  {
    hide Pdu.DecodeRequest, Usbip.IsControl, E.Admit, Pdu.EncodeUnlinkReply;
    var e := E.AcceptPdu(t, m.body).1.value[0];
    assert E.AcceptPdu(t, m.body).1.value == [e];
    SpokenOne(e);
  }

  // --------------------------------------------------------------- every call

  // An action of the executor: what is told, and that it keeps the account of UNLINKs.
  lemma {:induction false} ExecutedHeeds(s: Session, op: R.Op)
    requires Sound(s) && s.phase == Running && R.Legal(s.table, op)
    requires R.Step(s.table, op).1.Ok? ==> OneOrReplies(R.Step(s.table, op).1.value)
    ensures var (t, r) := R.Step(s.table, op);
      var (s', q) := Executed(s, t, r);
      var u := R.AcceptedUnlink(s.table, op);
      && s'.received == s.received && s'.phase == Running
      && (r.Err? ==> s' == s && q.Err?)
      && (r.Ok? ==>
            && ToldIn(s'.log) == ToldIn(s.log) + Spoken(r.value)
            && forall accepted :: R.UnlinksAccounted(s.table, accepted, UnlinkAnswersIn(s.produced)) ==>
                 R.UnlinksAccounted(s'.table, accepted + (if u.Some? then [u.value] else []),
                                    UnlinkAnswersIn(s'.produced)))
  {
    hide Sound, Core, R.Legal, R.Step, R.Balanced, R.UnlinksBalanced, R.UnlinksAccounted, E.Indexed, HandleEvents,
         AllReplySized, LogGrows, ToldIn, Spoken, RepliesIn, UnlinkAnswersIn, OneOrReplies, R.AcceptedUnlink, R.Keep;
    var (t, r) := R.Step(s.table, op);
    SoundCore(s);
    R.StepBalanced(s.table, op);
    ExecutorReports(s.table, op);
    if r.Ok? {
      BalancedKeeps(s.table, t, r.value);
      TableSound(s, t);
      SoundCore(s.(table := t));
      HandleCore(s.(table := t), r.value);
      HandleTells(s.(table := t), r.value);
      UnlinkAnswersRead(s.produced, r.value);
      var u := R.AcceptedUnlink(s.table, op);
      forall accepted | R.UnlinksAccounted(s.table, accepted, UnlinkAnswersIn(s.produced))
        ensures R.UnlinksAccounted(t, accepted + (if u.Some? then [u.value] else []),
                                   UnlinkAnswersIn(s.produced + RepliesIn(r.value)))
      {
        R.UnlinksAccountNext(s.table, t, accepted, UnlinkAnswersIn(s.produced), r.value,
                             if u.Some? then [u.value] else []);
      }
    } else {
      assert s.(table := t) == s;
    }
  }

  lemma Appended<T>(a: seq<T>)
    ensures a + [] == a
  {
  }

  // Completing, cancelling and closing tell nothing and take no UNLINK.
  lemma {:induction false} SettlingHeeds(s: Session, op: R.Op)
    requires Sound(s) && s.phase == Running && R.Legal(s.table, op) && !op.Accept?
    requires HeededUpTo(s, s.received)
    ensures var (t, r) := R.Step(s.table, op);
      HeededUpTo(Executed(s, t, r).0, s.received) && Executed(s, t, r).0.received == s.received
  {
    SettlingRepliesOnly(s.table, op);
    hide Sound, R.Legal, R.Step, Executed, ToldIn, MeantIn, UnlinksAmong, UnlinkAnswersIn, IsReply,
         R.UnlinksAccounted, Arrivals, AllReplies;
    var (t, r) := R.Step(s.table, op);
    if r.Ok? {
      RepliesSayNothing(r.value);
    }
    ExecutedHeeds(s, op);
    Appended(UnlinksAmong(s.received));
    Appended(ToldIn(s.log));
  }

  lemma SettlingRepliesOnly(t: E.Table, op: R.Op)
    requires !op.Accept?
    ensures R.Step(t, op).1.Ok? ==> AllReplies(R.Step(t, op).1.value)
  {
    hide E.Complete, E.CompleteCancel, E.CloseAll, AllReplies;
    match op
    case Finish(token, c) => CompletionRepliesOnly(t, token, c, 0);
    case Cancel(token, status) => CompletionRepliesOnly(t, token, E.CANCELLATION, status);
    case Shut(order) => ClosingRepliesOnly(t, order);
  }

  // What handling a message left, given the messages heeded before it.
  ghost predicate Handled(s: Session, s': Session, r: Result<()>, m: Message, ms: seq<Message>) {
    && s'.received == s.received && s'.phase == Running
    && (HeededUpTo(s', ms + [m]) || (r.Err? && HeededUpTo(s', ms)))
  }

  lemma HeededOneMore(s: Session, ms: seq<Message>, m: Message)
    requires ToldIn(s.log) == MeantIn(ms) + MeaningOf(m) && !IsReply(m.body)
    requires R.UnlinksAccounted(s.table, UnlinksAmong(ms) + UnlinkOf(m), UnlinkAnswersIn(s.produced))
    requires forall i :: 0 <= i < |ms| ==> !IsReply(ms[i].body)
    ensures HeededUpTo(s, ms + [m])
  {
    hide ToldIn, MeantIn, MeaningOf, UnlinksAmong, UnlinkOf, UnlinkAnswersIn, R.UnlinksAccounted, IsReply;
    MeantOne(ms, m);
    UnlinksOne(ms, m);
  }

  lemma {:induction false} ControlHandled(s: Session, m: Message, ms: seq<Message>)
    requires s.phase == Running && Usbip.IsControl(m.body) && HeededUpTo(s, ms)
    ensures Handled(s, HandlePdu(s, m).0, HandlePdu(s, m).1, m, ms)
  {
    hide ToldIn, MeantIn, UnlinksAmong, UnlinkAnswersIn, Usbip.DecodeRequest, Usbip.DecodeReply, Usbip.IsControl,
         R.UnlinksAccounted, Pdu.DecodeRequest, Pdu.DecodeReply;
    var s' := HandlePdu(s, m).0;
    if HandlePdu(s, m).1.Ok? {
      ToldOne(s.log, OpaqueArrived(m));
      Appended(UnlinksAmong(ms));
      Usbip.KindsAreDisjoint(m.body);
      HeededOneMore(s', ms, m);
    }
  }

  lemma {:induction false} TransferHandled(s: Session, m: Message, ms: seq<Message>)
    requires Sound(s) && s.phase == Running && !Usbip.IsControl(m.body) && HeededUpTo(s, ms)
    ensures Handled(s, HandlePdu(s, m).0, HandlePdu(s, m).1, m, ms)
  {
    hide Sound, ToldIn, MeantIn, UnlinksAmong, UnlinkAnswersIn, Usbip.IsControl, R.UnlinksAccounted, E.AcceptPdu,
         Executed, MeaningOf, UnlinkOf, R.AcceptedUnlink, Spoken, OneOrReplies, IsReply;
    if E.AcceptPdu(s.table, m.body).1.Ok? {
      AcceptMeans(s.table, m);
      RepliesNotAccepted(s.table, m.body);
    }
    ExecutedHeeds(s, R.Accept(m.body));
    if E.AcceptPdu(s.table, m.body).1.Ok? {
      HeededOneMore(HandlePdu(s, m).0, ms, m);
    }
  }

  lemma RepliesNotAccepted(t: E.Table, body: bytes)
    requires E.AcceptPdu(t, body).1.Ok?
    ensures !IsReply(body)
  {
    hide Pdu.DecodeRequest, Pdu.DecodeReply;
    if IsReply(body) {
      RepliesAreNoRequests(body);
    }
  }

  /** Handling a message tells the program what it means, or ends in an error that will end the session. */
  lemma {:induction false} HandlePduHeeds(s: Session, m: Message, ms: seq<Message>)
    requires Sound(s) && s.phase == Running && HeededUpTo(s, ms)
    ensures Handled(s, HandlePdu(s, m).0, HandlePdu(s, m).1, m, ms)
  {
    hide Sound, HandlePdu, Usbip.IsControl, Handled, HeededUpTo;
    if Usbip.IsControl(m.body) {
      ControlHandled(s, m, ms);
    } else {
      TransferHandled(s, m, ms);
    }
  }

  // What a step that may end the session leaves: everything heeded, or all but the last message on an error.
  ghost predicate HeededBy(s': Session, r: Result<()>) {
    HeededUpTo(s', s'.received) || (r.Err? && HeededButLast(s'))
  }

  lemma SameAccounts(s: Session, s': Session, ms: seq<Message>)
    requires HeededUpTo(s, ms) && ToldIn(s'.log) == ToldIn(s.log) && s'.table == s.table && s'.produced == s.produced
    ensures HeededUpTo(s', ms)
  {
    hide ToldIn, MeantIn, IsReply, R.UnlinksAccounted, UnlinksAmong, UnlinkAnswersIn;
  }

  // The record of what was received grows by the message that arrived.
  lemma {:induction false} DeliverHeeds(s: Session, m: Message)
    requires Sound(s) && Calm(s) && s.phase == Running && HeededUpTo(s, s.received)
    ensures HeededBy(Deliver(s, m).0, Deliver(s, m).1)
  {
    hide Sound, HandlePdu, Deliver, B.ReserveReceive, HeededUpTo;
    DeliverEffect(s, m);
    AdmittingSound(s, m);
    if B.ReserveReceive(s.broker, |m.body|).1.Ok? {
      var a := Admitting(s, m);
      AdmittingTold(s, m);
      SameAccounts(s, a, s.received);
      HandlePduHeeds(a, m, s.received);
      var h, s' := HandlePdu(a, m).0, Deliver(s, m).0;
      assert (s.received + [m])[..|s.received|] == s.received;
      if HeededUpTo(h, s.received + [m]) {
        SameAccounts(h, s', s.received + [m]);
      } else {
        SameAccounts(h, s', s.received);
      }
    }
  }

  lemma AdmittingTold(s: Session, m: Message)
    ensures Admitting(s, m).log == s.log && Admitting(s, m).table == s.table && Admitting(s, m).produced == s.produced
    ensures Admitting(s, m).received == s.received + [m] && Admitting(s, m).phase == s.phase
  {
    hide B.ReserveReceive;
  }

  // What is none of the program's business changes nothing of it.
  lemma SideHeeds(s: Session, s': Session)
    requires Heeded(s) && ToldIn(s'.log) == ToldIn(s.log) && s'.received == s.received
    requires s'.table == s.table && s'.produced == s.produced && (s.phase == Failed ==> s'.phase == Failed)
    ensures Heeded(s')
  {
    hide ToldIn, HeededUpTo;
    if HeededUpTo(s, s.received) {
      SameAccounts(s, s', s.received);
    } else {
      SameAccounts(s, s', s.received[..|s.received| - 1]);
    }
  }

  lemma {:induction false} ArriveDataHeeds(s: Session, payload: bytes, flags: u32)
    requires Sound(s) && Calm(s) && s.phase == Running && HeededUpTo(s, s.received)
    ensures HeededBy(ArriveData(s, payload, flags).0, ArriveData(s, payload, flags).1)
  {
    hide Sound, Calm, DecodeFragment, Push, Deliver, HeededUpTo;
    var f := DecodeFragment(payload, flags);
    if f.Ok? {
      PushSound(s, f.value);
      var (b, r) := Push(s.buffer, f.value);
      SameAccounts(s, s.(buffer := b), s.received);
      CalmIsRx(s, s.(buffer := b));
      if r.Ok? && r.value.Some? {
        DeliverHeeds(s.(buffer := b), r.value.value);
      }
    }
  }

  lemma QuietSays(s: Session, s': Session)
    requires QuietStep(s, s')
    ensures s'.table == s.table && s'.produced == s.produced && (s.phase == Failed ==> s'.phase == Failed)
  {
    hide SaysClose, Carried;
  }

  lemma QuietHeeds(s: Session, s': Session)
    requires Heeded(s) && QuietStep(s, s') && s'.received == s.received
    ensures Heeded(s')
  {
    hide ToldIn, QuietStep, Heeded;
    QuietTellsNothing(s, s');
    QuietSays(s, s');
    SideHeeds(s, s');
  }

  lemma ArriveControlReceives(s: Session, h: FrameHeader, payload: bytes)
    requires h.messageType != UsbIpData
    ensures Arrive(s, h, payload).0.received == s.received
  {
    hide DecodeCapability, DecodeOpen, B.CloseBroker;
  }

  lemma {:induction false} ArriveHeeds(s: Session, h: FrameHeader, payload: bytes)
    requires Sound(s) && Calm(s) && Receiving(s.phase) && HeededUpTo(s, s.received)
    ensures HeededBy(Arrive(s, h, payload).0, Arrive(s, h, payload).1)
  {
    hide Sound, Calm, ArriveData, ArriveClose, ArriveCapability, ArriveOpen, ArriveReject, HeededUpTo, ToldIn,
         QuietStep;
    if h.messageType != UsbIpData {
      var s' := Arrive(s, h, payload).0;
      ArriveQuiet(s, h, payload);
      ArriveControlReceives(s, h, payload);
      QuietTellsNothing(s, s');
      QuietSays(s, s');
      SameAccounts(s, s', s.received);
    } else if s.phase == Running {
      ArriveDataHeeds(s, payload, h.flags);
    }
  }

  lemma {:induction false} AcceptFrameHeeds(s: Session, wire: bytes)
    requires Sound(s) && Calm(s) && Heeded(s)
    ensures Heeded(AcceptFrame(s, wire).0)
  {
    hide Sound, Calm, DecodeFrame, Arrive, HeededUpTo;
    var d := DecodeFrame(wire);
    if Receiving(s.phase) && d.Ok? && NextSequence(s.nextRx).Ok? {
      var n := s.(nextRx := s.nextRx + 1);
      NumberedSound(s);
      CalmIsRx(s, n);
      SameAccounts(s, n, s.received);
      ArriveHeeds(n, d.value.0, d.value.1);
    }
    var (s', r) := AcceptFrameInner(s, wire);
    var z := s'.(phase := Failed, buffer := Cleared(s'.buffer));
    if HeededUpTo(s', s'.received) {
      SameAccounts(s', z, s'.received);
    } else {
      SameAccounts(s', z, s'.received[..|s'.received| - 1]);
    }
  }

  lemma {:induction false} SendPduHeeds(s: Session, m: Message)
    requires Sound(s) && Heeded(s)
    ensures Heeded(SendPdu(s, m).0)
  {
    hide Sound, Core, SendPdu, LogGrows, Heeded, ToldIn;
    SoundCore(s);
    SendOnlyFrames(s, m);
    SendCore(s, m);
    FramesTellNothing(s.log, SendPdu(s, m).0.log);
    SideHeeds(s, SendPdu(s, m).0);
  }

  lemma {:induction false} AckOnlyFrames(s: Session, id: u64)
    requires Core(s)
    ensures OnlyFrames(s.log, AckOutput(s, id).0.log)
  {
    hide Core, Drain, B.AckSend;
    if id != 0 && id in s.reservations {
      ReleaseCore(s, id);
      DrainOnlyFrames(Released(s, id));
    }
  }

  lemma {:induction false} AckOutputHeeds(s: Session, id: u64)
    requires Sound(s) && Heeded(s)
    ensures Heeded(AckOutput(s, id).0)
  {
    hide Sound, Core, AckOutput, LogGrows, Heeded, ToldIn;
    SoundCore(s);
    AckOnlyFrames(s, id);
    AckCore(s, id);
    FramesTellNothing(s.log, AckOutput(s, id).0.log);
    SideHeeds(s, AckOutput(s, id).0);
  }

  lemma {:induction false} TransferHeeds(s: Session, token: u64, c: E.Completion, status: i32)
    requires Sound(s) && Heeded(s)
    ensures Heeded(CompleteTransfer(s, token, c).0) && Heeded(CompleteCancel(s, token, status).0)
  {
    hide Sound, E.Complete, E.CompleteCancel, Executed, HeededUpTo;
    if s.phase == Running {
      SettlingHeeds(s, R.Finish(token, c));
      SettlingHeeds(s, R.Cancel(token, status));
    }
  }

  lemma {:induction false} FinishCloseHeeds(s: Session)
    requires Sound(s) && Heeded(s) && !(s.phase.Closed? || s.phase.Failed?)
    ensures Heeded(FinishClose(s).0)
  {
    hide Sound, FinishClose, QuietStep, Heeded;
    FinishCloseQuiet(s);
    FinishCloseKeepsIncoming(s);
    QuietHeeds(s, FinishClose(s).0);
  }

  lemma {:induction false} CloseHeeds(s: Session, order: seq<u64>)
    requires Sound(s) && Heeded(s) && (s.phase.Running? ==> E.Lists(order, s.table.byToken.Keys))
    ensures Heeded(Close(s, order).0)
  {
    hide Sound, E.CloseAll, E.Lists, HandleEvents, FinishClose, HeededUpTo, LogGrows;
    if s.phase.Closed? || s.phase.Failed? {
    } else if s.phase.Running? {
      var (t, events) := E.CloseAll(s.table, order);
      SettlingHeeds(s, R.Shut(order));
      assert Executed(s, t, Ok(events)).0 == HandleEvents(s.(table := t), events).0;
      ClosedTransfers(s, order);
      if HandleEvents(s.(table := t), events).1.Ok? {
        FinishCloseHeeds(HandleEvents(s.(table := t), events).0);
      }
    } else {
      FinishCloseHeeds(s);
    }
  }

  lemma {:induction false} SetUpHeeds(s: Session, c: Call)
    requires Sound(s) && Heeded(s) && SetsUp(c)
    ensures Heeded(Step(s, c).0)
  {
    hide Sound, QuietStep, Heeded, Start, AcceptHello, SendCapability, SendOpen, SendOpenOk, SendOpenReject;
    match c {
      case CallSendCapability(capability) => SendCapabilityQuiet(s, capability);
      case CallSendOpen => SendOpenQuiet(s);
      case CallSendOpenOk => SendOpenOkQuiet(s);
      case CallSendOpenReject(status) => SendOpenRejectQuiet(s, status);
      case _ => HandshakeQuiet(s, c);
    }
    HandshakeKeepsIncoming(s, c);
    QuietHeeds(s, Step(s, c).0);
  }

  /** Every call keeps what was told and answered in line with what was received. */
  lemma {:induction false} CallHeeds(s: Session, c: Call)
    requires Sound(s) && Calm(s) && Legal(s, c) && Heeded(s)
    ensures Heeded(Step(s, c).0)
  {
    match c
    case CallAcceptFrame(wire) =>
      hide Sound, AcceptFrame, Calm, Heeded;
      AcceptFrameHeeds(s, wire);
    case CallClose(order) =>
      hide Sound, Close, Calm, E.Lists, Heeded;
      CloseHeeds(s, order);
    case CallSendPdu(m) =>
      hide Sound, SendPdu, Calm, Heeded;
      SendPduHeeds(s, m);
    case CallAckOutput(id) =>
      hide Sound, AckOutput, Calm, Heeded;
      AckOutputHeeds(s, id);
    case CallComplete(token, completion) =>
      hide Sound, CompleteTransfer, Calm, Heeded;
      TransferHeeds(s, token, completion, 0);
    case CallCancel(token, status) =>
      hide Sound, CompleteCancel, Calm, Heeded;
      TransferHeeds(s, token, E.CANCELLATION, status);
    case _ =>
      hide Sound, Step, Calm, Heeded;
      SetUpHeeds(s, c);
  }

  lemma MadeHeeds(s: Session)
    requires Made(s)
    ensures Heeded(s)
  {
    hide IsReply;
    assert UnlinksAmong([]) == [] && UnlinkAnswersIn([]) == [];
  }

  // ------------------------------------------------------------- whole runs

  lemma {:induction false} AlwaysHeeded(s: Session, calls: seq<Call>)
    requires Made(s) && LegalRun(s, calls)
    ensures Heeded(After(s, calls))
  {
    hide Made, Sound, Calm, Legal, Step, Heeded;
    if calls == [] {
      MadeHeeds(s);
    } else {
      var front := calls[..|calls| - 1];
      AlwaysHeeded(s, front);
      AlwaysSound(s, front);
      CallHeeds(After(s, front), calls[|calls| - 1]);
    }
  }

  /**
   Over every run, a program is told of exactly the transfers and control messages
   its session received, each once and in order, as their bytes say; a session that
   failed may have ended without heeding the last one.
   */
  lemma EveryMessageIsTold(s: Session, calls: seq<Call>)
    requires Made(s) && LegalRun(s, calls)
    ensures var s' := After(s, calls);
      || ToldIn(s'.log) == MeantIn(s'.received)
      || (s'.phase == Failed && s'.received != [] && ToldIn(s'.log) == MeantIn(s'.received[..|s'.received| - 1]))
  {
    hide After, Made, LegalRun, ToldIn, MeantIn, UnlinksAmong, R.UnlinksAccounted, IsReply;
    AlwaysHeeded(s, calls);
  }

  /** The UNLINKs among some messages: answered by a RET_UNLINK that was sent or waits, or recorded on a transfer. */
  ghost predicate UnlinksAnswered(s: Session, ms: seq<Message>) {
    forall u :: multiset(UnlinksAmong(ms))[u]
             == multiset(UnlinkAnswersIn(Bodies(RepliesAmong(s.sent))))[u]
              + multiset(UnlinkAnswersIn(Bodies(s.pending)))[u] + |R.Recorded(s.table, u)|
  }

  lemma {:induction false} UnlinkAnswersConcat(a: seq<bytes>, b: seq<bytes>)
    ensures UnlinkAnswersIn(a + b) == UnlinkAnswersIn(a) + UnlinkAnswersIn(b)
  {
    hide UnlinkAnswersIn, UnlinkAnswerOf;
    if b == [] {
      NoAnswers(a);
      assert a + b == a && UnlinkAnswersIn([]) == [] by { NothingAnswered(); }
      Appended(UnlinkAnswersIn(a));
    } else {
      var front, last := b[..|b| - 1], b[|b| - 1];
      assert b == front + [last] && a + b == a + front + [last];
      UnlinkAnswersConcat(a, front);
      UnlinkAnswersOne(front, last);
      UnlinkAnswersOne(a + front, last);
      RegroupNumbers(UnlinkAnswersIn(a), UnlinkAnswersIn(front), UnlinkAnswerOf(last));
    }
  }

  lemma NothingAnswered()
    ensures UnlinkAnswersIn([]) == []
  {
  }

  lemma AnsweredFrom(s: Session, ms: seq<Message>)
    requires HeededUpTo(s, ms) && Bodies(RepliesAmong(s.sent)) + Bodies(s.pending) == s.produced
    ensures UnlinksAnswered(s, ms)
  {
    hide ToldIn, MeantIn, UnlinksAmong, UnlinkAnswersIn, IsReply, R.Recorded, RepliesAmong, Bodies;
    UnlinkAnswersConcat(Bodies(RepliesAmong(s.sent)), Bodies(s.pending));
  }

  /**
   Over every run, failed ones included, the UNLINKs received are, number by number,
   those answered by a RET_UNLINK sent, those answered by one that waits, and those
   recorded on a transfer that is pending. A session that failed may have ended
   without heeding the last message.
   */
  lemma EveryUnlinkIsAnsweredOnce(s: Session, calls: seq<Call>)
    requires Made(s) && LegalRun(s, calls) && PoliteRun(calls) && |After(s, calls).produced| <= CAPACITY
    ensures var s' := After(s, calls);
      || UnlinksAnswered(s', s'.received)
      || (s'.phase == Failed && s'.received != [] && UnlinksAnswered(s', s'.received[..|s'.received| - 1]))
  {
    hide After, Made, LegalRun, PoliteRun, HeededUpTo, UnlinksAnswered, RepliesAmong, Bodies;
    AlwaysHeeded(s, calls);
    RepliesAreConserved(s, calls);
    var s' := After(s, calls);
    if HeededUpTo(s', s'.received) {
      AnsweredFrom(s', s'.received);
    } else {
      AnsweredFrom(s', s'.received[..|s'.received| - 1]);
    }
  }

  /** No session of either role ever takes a reply: one that received any has failed, and received nothing after it. */
  lemma NoReplyIsTaken(s: Session, calls: seq<Call>, i: nat)
    requires Made(s) && LegalRun(s, calls)
    requires i < |After(s, calls).received| && IsReply(After(s, calls).received[i].body)
    ensures After(s, calls).phase == Failed && i == |After(s, calls).received| - 1
  {
    hide After, Made, LegalRun, ToldIn, MeantIn, UnlinksAmong, R.UnlinksAccounted, IsReply;
    AlwaysHeeded(s, calls);
  }

  // ------------------------------------------------------------ two parties

  lemma {:induction false} HandHeeds(s: Session, got: nat, frames: seq<bytes>)
    requires Steady(s) && Heeded(s)
    ensures Heeded(Hand(s, got, frames).0)
  {
    hide Sound, Calm, Heeded, AcceptFrame;
    if got < |frames| {
      AcceptFrameHeeds(s, frames[got]);
    }
  }

  lemma {:induction false} SystemHeeds(y: System, moves: seq<Move>)
    requires Attached(y) && AllowedRun(y, moves)
    ensures Heeded(RunSystem(y, moves).left) && Heeded(RunSystem(y, moves).right)
  {
    hide Made, Sound, Calm, Legal, Step, Heeded, Link, Hand, FramesIn;
    if moves == [] {
      MadeHeeds(y.left);
      MadeHeeds(y.right);
    } else {
      var front, m := moves[..|moves| - 1], moves[|moves| - 1];
      SystemHeeds(y, front);
      AlwaysInTouch(y, front);
      var z := RunSystem(y, front);
      match m {
        case LeftCalls(c) => CallHeeds(z.left, c);
        case RightCalls(c) => CallHeeds(z.right, c);
        case FrameToLeft => HandHeeds(z.left, z.leftGot, FramesIn(z.right.log));
        case FrameToRight => HandHeeds(z.right, z.rightGot, FramesIn(z.left.log));
      }
    }
  }

  /**
   Delivery from program to program. What one program was told of transfers and
   control messages is always a prefix of what the messages the other sent mean, in
   order and each once; and all of it once every frame was handed over and the
   receiving session has not ended.
   */
  lemma ToldIsPrefixOfMeant(y: System, moves: seq<Move>)
    requires Attached(y) && AllowedRun(y, moves)
    ensures var z := RunSystem(y, moves);
      && ToldIn(z.right.log) <= MeantIn(z.left.sent) && ToldIn(z.left.log) <= MeantIn(z.right.sent)
      && (Alive(z.right.phase) && z.rightGot == |FramesIn(z.left.log)| ==> ToldIn(z.right.log) == MeantIn(z.left.sent))
      && (Alive(z.left.phase) && z.leftGot == |FramesIn(z.right.log)| ==> ToldIn(z.left.log) == MeantIn(z.right.sent))
  {
    hide Attached, AllowedRun, RunSystem, ToldIn, MeantIn, UnlinksAmong, R.UnlinksAccounted, IsReply, FramesIn;
    SystemHeeds(y, moves);
    ReceivedIsPrefixOfSent(y, moves);
    var z := RunSystem(y, moves);
    HeededPrefix(z.left);
    HeededPrefix(z.right);
    MeantPrefix(z.right.received, z.left.sent);
    MeantPrefix(z.left.received, z.right.sent);
  }

  lemma HeededPrefix(s: Session)
    requires Heeded(s)
    ensures ToldIn(s.log) <= MeantIn(s.received)
  {
    hide ToldIn, MeantIn, UnlinksAmong, R.UnlinksAccounted, IsReply;
    if !HeededUpTo(s, s.received) {
      MeantPrefix(s.received[..|s.received| - 1], s.received);
    }
  }

  /**
   A reply really sent ends the peer: once every frame was handed over, a session
   whose peer sent it a RET_SUBMIT or RET_UNLINK in full is no longer alive.
   */
  lemma RepliesEndThePeer(y: System, moves: seq<Move>, i: nat)
    requires Attached(y) && AllowedRun(y, moves)
    ensures var z := RunSystem(y, moves);
      && (i < |z.left.sent| && IsReply(z.left.sent[i].body) && z.rightGot == |FramesIn(z.left.log)| ==>
            !Alive(z.right.phase))
      && (i < |z.right.sent| && IsReply(z.right.sent[i].body) && z.leftGot == |FramesIn(z.right.log)| ==>
            !Alive(z.left.phase))
  {
    hide Attached, AllowedRun, RunSystem, ToldIn, MeantIn, UnlinksAmong, R.UnlinksAccounted, IsReply, FramesIn;
    SystemHeeds(y, moves);
    ReceivedIsPrefixOfSent(y, moves);
  }
}
