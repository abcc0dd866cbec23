/** Sending what the executor answers: the reply queue, its order, and why it never sticks. */
module Traffic {
  import opened Base
  import opened Wire
  import opened Reassembly
  import opened Session
  import opened Frames
  import opened Streams
  import opened Sending
  import B = Broker
  import E = Execution

  ghost predicate Core(s: Session) {
    Configured(s) && Outgoing(s) && Windowed(s)
  }

  /** Only sending happened: nothing received, nothing decided, and only traffic logged. */
  ghost predicate OnlySent(s: Session, s': Session) {
    && s' == s.(broker := s.broker.(tx := s'.broker.tx), nextTx := s'.nextTx, reservations := s'.reservations,
                pending := s'.pending, nextInternal := s'.nextInternal, log := s'.log,
                produced := s'.produced, sent := s'.sent)
    && s.nextTx <= s'.nextTx && s.nextInternal <= s'.nextInternal
    && LogGrows(s.log, s'.log)
  }

  predicate IsData(frame: bytes) {
    DecodeFrame(frame).Ok? && DecodeFrame(frame).value.0.messageType == UsbIpData
  }

  /** Events that carry USB traffic, one way or the other. */
  predicate Carried(e: Event) {
    e.SubmitArrived? || e.CancelArrived? || e.OpaqueArrived? || (e.OutputFrame? && IsData(e.frame))
  }

  /** A CLOSE frame on its way out. */
  predicate IsClose(e: Event) {
    e.OutputFrame? && DecodeFrame(e.frame).Ok? && DecodeFrame(e.frame).value.0.messageType == CloseMsg
  }

  lemma CarriedIsNotClose(e: Event)
    requires Carried(e)
    ensures !IsClose(e) && e != ClosedEvent
  {
  }

  ghost predicate LogGrows(log: seq<Event>, log': seq<Event>) {
    && log <= log'
    && forall i :: |log| <= i < |log'| ==> Carried(log'[i])
  }

  lemma OnlySentTransitive(s: Session, m: Session, s': Session)
    requires OnlySent(s, m) && OnlySent(m, s')
    ensures OnlySent(s, s')
  {
  }

  lemma PieceCarried(token: u64, sequence: u64, f: Fragment)
    requires token != 0 && 1 <= sequence < LAST && FragmentOk(f)
    ensures Carried(PieceEvent(token, sequence, f))
  {
    FragmentSendable(f);
    hide DecodeFrame, PutFragment, FragmentOk, Sendable, FrameBytes;
    FrameReads(token, sequence, UsbIpData, FlagsOf(f), PutFragment(f));
  }

  lemma {:induction false} PiecesCarried(token: u64, sequence: u64, fs: seq<Fragment>)
    requires token != 0 && 1 <= sequence && sequence + |fs| <= LAST && AllOk(fs)
    ensures forall i :: 0 <= i < |fs| ==> Carried(PieceEvents(token, sequence, fs)[i])
  {
    hide Carried, FragmentOk, PieceEvent;
    forall i | 0 <= i < |fs|
      ensures Carried(PieceEvents(token, sequence, fs)[i])
    {
      PieceCarried(token, sequence + i, fs[i]);
    }
  }

  lemma {:induction false} EmitOnlySent(s: Session, fs: seq<Fragment>)
    requires CanFrame(s) && AllOk(fs)
    ensures OnlySent(s, Emit(s, fs).0)
    ensures Emit(s, fs).0 == s.(nextTx := Emit(s, fs).0.nextTx, log := Emit(s, fs).0.log)
    ensures Emit(s, fs).0.nextTx <= LAST
  {
    hide FragmentOk, PieceEvents, Carried;
    PiecesCarried(s.hello.sessionToken, s.nextTx, fs[..Room(s, |fs|)]);
  }

  lemma {:induction false} SendOnlySent(s: Session, m: Message)
    requires Configured(s)
    ensures OnlySent(s, SendPdu(s, m).0)
    ensures SendPdu(s, m).0.pending == s.pending && SendPdu(s, m).0.nextInternal == s.nextInternal
         && SendPdu(s, m).0.produced == s.produced
    ensures SendPdu(s, m).0.nextTx <= LAST
  {
    SendOutcomes(s, m);
    ConfiguredFrames(s);
    assert s.nextTx <= LAST;
    hide FragmentOk, Pieces, SendPdu, Fits, Emit, LogGrows, Configured;
    var r := SendPdu(s, m).1;
    if r.Ok? || r == Err(SequenceError) {
      EmitOnlySent(s, Cuts(s, m));
    }
    SameLog(s.log);
  }

  lemma {:induction false} SendCore(s: Session, m: Message)
    requires Core(s)
    ensures Core(SendPdu(s, m).0)
    ensures OnlySent(s, SendPdu(s, m).0)
    ensures SendPdu(s, m).0.pending == s.pending && SendPdu(s, m).0.nextInternal == s.nextInternal
         && SendPdu(s, m).0.produced == s.produced
  {
    SendOnlySent(s, m);
    SendOutgoing(s, m);
    SendWindowed(s, m);
    hide SendPdu, Outgoing, Windowed, LogGrows;
  }

  // The session after its oldest queued reply went out.
  function Popped(s: Session): Session
    requires s.pending != []
  {
    s.(pending := s.pending[1..])
  }

  lemma PopCore(s: Session)
    requires Core(s) && s.pending != []
    ensures Core(Popped(s)) && OnlySent(s, Popped(s))
  {
    hide FramesIn, GapFree, InStep, Total;
  }

  lemma {:induction false} DrainCore(s: Session)
    requires Core(s)
    ensures Core(Drain(s).0) && OnlySent(s, Drain(s).0)
    ensures Drain(s).0.produced == s.produced && Drain(s).0.nextInternal == s.nextInternal
    decreases |s.pending|
  {
    hide Core, SendPdu;
    if s.pending != [] {
      var m, r := SendPdu(s, s.pending[0]).0, SendPdu(s, s.pending[0]).1;
      SendCore(s, s.pending[0]);
      if r.Ok? {
        assert m.pending == s.pending;
        PopCore(m);
        DrainCore(Popped(m));
        OnlySentTransitive(s, m, Popped(m));
        OnlySentTransitive(s, Popped(m), Drain(Popped(m)).0);
      }
    }
  }

  // ------------------------------------------------------------ queued replies

  // Replies under consecutive ids.
  function Queue(first: u64, bodies: seq<bytes>): (q: seq<Message>)
    requires first + |bodies| <= U64_MAX
    ensures |q| == |bodies|
  {
    seq(|bodies|, i requires 0 <= i < |bodies| => Message(first + i, bodies[i]))
  }

  // What of the executor's events goes to the caller at once.
  function Arrivals(events: seq<E.ExecutorEvent>): seq<Event> {
    if events == [] then []
    else
      (match events[0]
       case SubmitEvent(token, request) => [SubmitArrived(token, request)]
       case CancelEvent(token, seqnum) => [CancelArrived(token, seqnum)]
       case ReplyEvent(_) => []) + Arrivals(events[1..])
  }

  lemma QueueFirst(first: u64, body: bytes, rest: seq<bytes>)
    requires first + |rest| < U64_MAX
    ensures Queue(first, [body] + rest) == [Message(first, body)] + Queue(first + 1, rest)
  {
  }

  lemma RegroupMessages(a: seq<Message>, b: seq<Message>, c: seq<Message>)
    ensures a + b + c == a + (b + c)
  {
  }

  lemma RegroupEvents(a: seq<Event>, b: seq<Event>, c: seq<Event>)
    ensures a + b + c == a + (b + c)
  {
  }

  /** Taking the executor's events in: calls for the caller, replies for the queue, under consecutive ids. */
  lemma {:induction false} TakeEffect(s: Session, events: seq<E.ExecutorEvent>)
    requires s.nextInternal + |RepliesIn(events)| <= U64_MAX
    ensures TakeEvents(s, events) ==
      (s.(log := s.log + Arrivals(events),
          nextInternal := s.nextInternal + |RepliesIn(events)|,
          pending := s.pending + Queue(s.nextInternal, RepliesIn(events))), Ok(()))
    decreases |events|
  {
    if events == [] {
      assert s.log + [] == s.log && s.pending + [] == s.pending;
    } else {
      var m := TakeEvent(s, events[0]).0;
      TakeEffect(m, events[1..]);
      if events[0].ReplyEvent? {
        var rest := RepliesIn(events[1..]);
        QueueFirst(s.nextInternal, events[0].pdu, rest);
        hide Queue;
        RegroupMessages(s.pending, [Message(s.nextInternal, events[0].pdu)], Queue(s.nextInternal + 1, rest));
        assert [] + Arrivals(events[1..]) == Arrivals(events[1..]);
      } else {
        RegroupEvents(s.log, Arrivals(events)[..1], Arrivals(events[1..]));
        assert m.log == s.log + Arrivals(events)[..1];
        assert Arrivals(events) == Arrivals(events)[..1] + Arrivals(events[1..]);
        assert [] + RepliesIn(events[1..]) == RepliesIn(events[1..]);
      }
    }
  }

  /** It fails only when internal ids run out. */
  lemma {:induction false} TakeFails(s: Session, events: seq<E.ExecutorEvent>)
    requires s.nextInternal + |RepliesIn(events)| > U64_MAX
    ensures TakeEvents(s, events).1 == Err(LimitExceeded)
    decreases |events|
  {
    if events != [] && TakeEvent(s, events[0]).1.Ok? {
      TakeFails(TakeEvent(s, events[0]).0, events[1..]);
    }
  }

  // One event taken: nothing but the queue, the ids and the log.
  lemma TakeOneOnlySent(s: Session, e: E.ExecutorEvent)
    ensures OnlySent(s, TakeEvent(s, e).0)
    ensures FramesIn(TakeEvent(s, e).0.log) == FramesIn(s.log)
    ensures var s' := TakeEvent(s, e).0;
      s' == s.(log := s'.log, pending := s'.pending, nextInternal := s'.nextInternal)
  {
    match e
    case SubmitEvent(token, request) => FramesOne(s.log, SubmitArrived(token, request));
    case CancelEvent(token, seqnum) => FramesOne(s.log, CancelArrived(token, seqnum));
    case ReplyEvent(_) =>
  }

  lemma {:induction false} TakeOnlySent(s: Session, events: seq<E.ExecutorEvent>)
    ensures OnlySent(s, TakeEvents(s, events).0)
    ensures FramesIn(TakeEvents(s, events).0.log) == FramesIn(s.log)
    ensures var s' := TakeEvents(s, events).0;
      s' == s.(log := s'.log, pending := s'.pending, nextInternal := s'.nextInternal)
    decreases |events|
  {
    hide FramesIn, LogGrows;
    if events == [] {
      SameLog(s.log);
    } else {
      TakeOneOnlySent(s, events[0]);
      var m, r := TakeEvent(s, events[0]).0, TakeEvent(s, events[0]).1;
      if r.Ok? {
        TakeOnlySent(m, events[1..]);
        OnlySentTransitive(s, m, TakeEvents(m, events[1..]).0);
      }
    }
  }

  lemma SameLog(log: seq<Event>)
    ensures LogGrows(log, log)
  {
  }

  // The queue, the ids and what the caller is told do not matter to what was sent.
  lemma CoreOutside(s: Session, s': Session)
    requires Core(s)
    requires s' == s.(log := s'.log, pending := s'.pending, nextInternal := s'.nextInternal, produced := s'.produced)
    requires FramesIn(s'.log) == FramesIn(s.log)
    ensures Core(s')
  {
    hide FramesIn, GapFree, InStep, Total;
  }

  lemma {:induction false} HandleCore(s: Session, events: seq<E.ExecutorEvent>)
    requires Core(s)
    ensures Core(HandleEvents(s, events).0) && OnlySent(s, HandleEvents(s, events).0)
    ensures HandleEvents(s, events).0.produced == s.produced + RepliesIn(events)
  {
    var p := s.(produced := s.produced + RepliesIn(events));
    var (m, r) := TakeEvents(p, events);
    TakeOnlySent(p, events);
    CoreOutside(s, m);
    SameLog(s.log);
    hide Core, LogGrows, FramesIn, TakeEvents;
    OnlySentTransitive(s, p, m);
    if r.Ok? {
      DrainCore(m);
      OnlySentTransitive(s, m, Drain(m).0);
    }
  }

  // ------------------------------------------------------------ acknowledging

  // A session after a message it had out was acknowledged.
  function Released(s: Session, id: u64): Session
    requires id in s.reservations
  {
    s.(reservations := s.reservations - {id}, broker := B.AckSend(s.broker, s.reservations[id]).0)
  }

  /** A message that is out can always be acknowledged, and that gives back exactly its share of the window. */
  lemma {:induction false} ReleaseConserved(s: Session, id: u64)
    requires Conserved(s) && s.broker.state == B.Established && id in s.reservations
    ensures B.AckSend(s.broker, s.reservations[id]).1.Ok?
    ensures Conserved(Released(s, id))
    ensures var s' := Released(s, id);
      && s'.broker == s.broker.(tx := s'.broker.tx)
      && s'.broker.tx.bytesInFlight + s.reservations[id] == s.broker.tx.bytesInFlight
      && s'.broker.tx.pdusInFlight + 1 == s.broker.tx.pdusInFlight
  {
    TotalWithout(s.reservations, id);
    hide Total;
    assert (s.reservations - {id}).Keys == s.reservations.Keys - {id};
    assert |s.reservations.Keys| > 0;
  }

  lemma {:induction false} ReleaseCore(s: Session, id: u64)
    requires Core(s) && id in s.reservations
    ensures Core(Released(s, id)) && OnlySent(s, Released(s, id))
    ensures Released(s, id) == s.(reservations := s.reservations - {id}, broker := Released(s, id).broker)
    ensures B.AckSend(s.broker, s.reservations[id]).1.Err? ==> s.broker.state != B.Established
  {
    SameLog(s.log);
    hide FramesIn, GapFree, InStep, LogGrows;
    if s.broker.state == B.Established {
      ReleaseConserved(s, id);
    }
  }

  lemma {:induction false} AckCore(s: Session, id: u64)
    requires Core(s)
    ensures Core(AckOutput(s, id).0) && OnlySent(s, AckOutput(s, id).0)
    ensures AckOutput(s, id).0.produced == s.produced && AckOutput(s, id).0.nextInternal == s.nextInternal
  {
    if id != 0 && id in s.reservations {
      ReleaseCore(s, id);
      hide Core, LogGrows, B.AckSend;
      DrainCore(Released(s, id));
      OnlySentTransitive(s, Released(s, id), Drain(Released(s, id)).0);
    } else {
      SameLog(s.log);
    }
  }
}
