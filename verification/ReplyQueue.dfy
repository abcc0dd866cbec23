/** Replies waiting for the window: they leave in the order they were produced, and never get stuck. */
module ReplyQueue {
  import opened Base
  import opened Reassembly
  import opened Session
  import opened Frames
  import opened Sending
  import opened Traffic
  import B = Broker
  import E = Execution
  import Pdu

  // -------------------------------------------------------------------- order

  // As many replies as there are internal ids.
  const CAPACITY: nat := U64_MAX - FIRST_INTERNAL

  /** The messages sent under internal ids: the replies among them. */
  function RepliesAmong(ms: seq<Message>): seq<Message> {
    if ms == [] then []
    else
      var last := ms[|ms| - 1];
      RepliesAmong(ms[..|ms| - 1]) + (if last.id >= FIRST_INTERNAL then [last] else [])
  }

  lemma RepliesAmongOne(ms: seq<Message>, m: Message)
    ensures RepliesAmong(ms + [m]) == RepliesAmong(ms) + (if m.id >= FIRST_INTERNAL then [m] else [])
  {
    assert (ms + [m])[..|ms|] == ms;
  }

  // The ids of messages that are out belong to the caller or to replies already sent.
  predicate Spent(held: map<u64, nat>, repliesSent: nat) {
    forall k :: k in held ==> k < FIRST_INTERNAL + repliesSent
  }

  /**
   The account of replies: those sent, then those waiting, are exactly those
   produced, in order, under consecutive ids. It closes only if ids run out.
   */
  ghost predicate Ledger(s: Session) {
    |s.produced| <= CAPACITY ==>
      && s.nextInternal == FIRST_INTERNAL + |s.produced|
      && RepliesAmong(s.sent) + s.pending == Queue(FIRST_INTERNAL, s.produced)
      && Spent(s.reservations, |RepliesAmong(s.sent)|)
  }

  lemma {:induction false} SendLedger(s: Session, m: Message)
    requires Configured(s) && Ledger(s) && m.id < FIRST_INTERNAL
    ensures Ledger(SendPdu(s, m).0)
  {
    SendOutcomes(s, m);
    RepliesAmongOne(s.sent, m);
    hide Queue, RepliesAmong, Fits, Configured, Wire.FragmentOk, Pieces, PieceEvents, SendPdu;
    assert RepliesAmong(s.sent) + [] == RepliesAmong(s.sent);
  }

  lemma NextInLine(sent: seq<Message>, pending: seq<Message>, produced: seq<bytes>)
    requires pending != [] && |produced| <= CAPACITY
    requires sent + pending == Queue(FIRST_INTERNAL, produced)
    ensures pending[0].id == FIRST_INTERNAL + |sent| && pending[0].body == produced[|sent|]
    ensures (sent + [pending[0]]) + pending[1..] == Queue(FIRST_INTERNAL, produced)
  {
    assert (sent + pending)[|sent|] == pending[0];
  }

  // The oldest reply waiting is the next in line; once out, it moves from one side of the account to the other.
  lemma {:induction false} SendOldestLedger(s: Session)
    requires Configured(s) && Ledger(s) && s.pending != []
    ensures var (s', r) := SendPdu(s, s.pending[0]);
      Ledger(if r.Ok? then Popped(s'.(pending := s.pending)) else s')
  {
    var m := s.pending[0];
    SendOutcomes(s, m);
    RepliesAmongOne(s.sent, m);
    hide Queue, RepliesAmong, Fits, Configured, Wire.FragmentOk, Pieces, PieceEvents, SendPdu;
    if |s.produced| <= CAPACITY {
      NextInLine(RepliesAmong(s.sent), s.pending, s.produced);
    }
  }

  lemma {:induction false} DrainLedger(s: Session)
    requires Core(s) && Ledger(s)
    ensures Ledger(Drain(s).0)
    decreases |s.pending|
  {
    hide Core, SendPdu, Ledger;
    if s.pending != [] {
      var m, r := SendPdu(s, s.pending[0]).0, SendPdu(s, s.pending[0]).1;
      SendCore(s, s.pending[0]);
      CoreConfigured(s);
      SendOldestLedger(s);
      if r.Ok? {
        assert m.pending == s.pending;
        assert m.(pending := s.pending) == m;
        PopCore(m);
        DrainLedger(Popped(m));
      }
    }
  }

  lemma CoreConfigured(s: Session)
    requires Core(s)
    ensures Configured(s)
  {
  }

  lemma QueueConcat(first: u64, a: seq<bytes>, b: seq<bytes>)
    requires first + |a| + |b| <= U64_MAX
    ensures Queue(first, a + b) == Queue(first, a) + Queue(first + |a|, b)
  {
  }

  lemma {:induction false} TakeLedger(s: Session, events: seq<E.ExecutorEvent>)
    requires Ledger(s)
    ensures Ledger(TakeEvents(s.(produced := s.produced + RepliesIn(events)), events).0)
  {
    var p := s.(produced := s.produced + RepliesIn(events));
    if |p.produced| <= CAPACITY {
      hide RepliesAmong, TakeEvents;
      TakeEffect(p, events);
      QueueConcat(FIRST_INTERNAL, s.produced, RepliesIn(events));
      hide Queue;
      RegroupMessages(RepliesAmong(s.sent), s.pending, Queue(s.nextInternal, RepliesIn(events)));
    } else {
      hide RepliesAmong, Queue, LogGrows, FramesIn;
      TakeOnlySent(p, events);
    }
  }

  lemma {:induction false} HandleLedger(s: Session, events: seq<E.ExecutorEvent>)
    requires Core(s) && Ledger(s)
    ensures Ledger(HandleEvents(s, events).0)
  {
    var p := s.(produced := s.produced + RepliesIn(events));
    var (m, r) := TakeEvents(p, events);
    TakeLedger(s, events);
    TakeOnlySent(p, events);
    CoreOutside(s, m);
    hide Core, Ledger, LogGrows, FramesIn, TakeEvents;
    if r.Ok? {
      DrainLedger(m);
    }
  }

  lemma {:induction false} AckLedger(s: Session, id: u64)
    requires Core(s) && Ledger(s)
    ensures Ledger(AckOutput(s, id).0)
  {
    if id != 0 && id in s.reservations {
      ReleaseCore(s, id);
      assert Ledger(Released(s, id)) by {
        hide RepliesAmong, Queue, Core;
      }
      hide Core, Ledger, B.AckSend;
      DrainLedger(Released(s, id));
    }
  }

  // ----------------------------------------------------------------- progress

  /** The window, the agreed size and the fragment limit admit the largest reply there can be. */
  predicate AdmitsReplies(s: Session) {
    var largest := Pdu.HEADER_SIZE + s.table.maxTransfer;
    && largest <= s.broker.maxPdu
    && largest <= s.broker.txWindowBytes
    && DivCeil(largest, CHUNK) <= s.maxFragments
  }

  predicate ReplySized(body: bytes, maxTransfer: nat) {
    Pdu.HEADER_SIZE <= |body| <= Pdu.HEADER_SIZE + maxTransfer
  }

  predicate AllReplySized(bodies: seq<bytes>, maxTransfer: nat) {
    forall i :: 0 <= i < |bodies| ==> ReplySized(bodies[i], maxTransfer)
  }

  predicate WaitingSized(pending: seq<Message>, maxTransfer: nat) {
    forall i :: 0 <= i < |pending| ==> pending[i].id != 0 && ReplySized(pending[i].body, maxTransfer)
  }

  lemma DivCeilMonotone(a: nat, b: nat)
    requires a <= b
    ensures DivCeil(a, CHUNK) <= DivCeil(b, CHUNK)
  {
    assert a / CHUNK <= b / CHUNK;
    if a / CHUNK == b / CHUNK {
      assert a % CHUNK <= b % CHUNK;
    }
  }

  lemma ReplyFits(s: Session, m: Message)
    requires Configured(s) && AdmitsReplies(s) && ReplySized(m.body, s.table.maxTransfer)
    ensures Fits(s, m)
  {
    DivCeilMonotone(|m.body|, Pdu.HEADER_SIZE + s.table.maxTransfer);
    hide DivCeil, B.HelloOk;
  }

  lemma EmptyWindow(s: Session)
    requires Conserved(s) && s.reservations == map[]
    ensures s.broker.tx == B.NOTHING
  {
  }

  // With nothing out, a reply goes through, unless sequence numbers run out on it.
  lemma {:induction false} AloneGoesOut(s: Session, m: Message)
    requires Core(s) && s.phase == Running && s.broker.state == B.Established
    requires AdmitsReplies(s) && m.id != 0 && ReplySized(m.body, s.table.maxTransfer)
    requires s.reservations == map[]
    ensures SendPdu(s, m).1.Ok? || SendPdu(s, m).0.nextTx == LAST
  {
    CoreConfigured(s);
    ReplyFits(s, m);
    hide Wire.FragmentOk, Pieces, Outgoing;
    EmptyWindow(s);
    var b := B.ReserveSend(s.broker, |m.body|).0;
    assert B.ReserveSend(s.broker, |m.body|).1.Ok?;
    FragmentEffect(s.(broker := b), m);
    hide FragmentAndQueue, PieceEvents, Windowed;
  }

  lemma {:induction false} DrainMoves(s: Session)
    requires Core(s) && s.phase == Running && s.broker.state == B.Established
    requires AdmitsReplies(s) && WaitingSized(s.pending, s.table.maxTransfer)
    ensures var s' := Drain(s).0; s'.pending == [] || s'.reservations != map[] || s'.nextTx == LAST
    decreases |s.pending|
  {
    hide Core, SendPdu, ReplySized, DivCeil, LogGrows, B.ReserveSend, B.AckSend;
    if s.pending != [] {
      var m, r := SendPdu(s, s.pending[0]).0, SendPdu(s, s.pending[0]).1;
      SendCore(s, s.pending[0]);
      if r.Ok? {
        assert m.pending == s.pending;
        PopCore(m);
        DrainMoves(Popped(m));
      } else if s.reservations == map[] {
        AloneGoesOut(s, s.pending[0]);
      } else {
        RefusedKeepsOut(s, s.pending[0]);
      }
    }
  }

  lemma {:induction false} RefusedKeepsOut(s: Session, m: Message)
    requires Core(s) && SendPdu(s, m).1.Err?
    ensures SendPdu(s, m).0.reservations == s.reservations
  {
    CoreConfigured(s);
    SendOutcomes(s, m);
    hide Wire.FragmentOk, Pieces, PieceEvents, SendPdu, Core, Configured, Fits;
  }

  /** How much is left to acknowledge: each waiting reply still has to go out and be acknowledged. */
  function Owing(s: Session): nat {
    2 * |s.pending| + |s.reservations|
  }

  lemma {:induction false} SentTakesOne(s: Session, m: Message)
    requires Core(s) && SendPdu(s, m).1.Ok?
    ensures |SendPdu(s, m).0.reservations| == |s.reservations| + 1
  {
    CoreConfigured(s);
    SendOutcomes(s, m);
    hide Wire.FragmentOk, Pieces, PieceEvents, SendPdu, Core, Configured, Fits;
    assert s.reservations[m.id := |m.body|].Keys == s.reservations.Keys + {m.id};
  }

  lemma {:induction false} DrainOwing(s: Session)
    requires Core(s)
    ensures Owing(Drain(s).0) <= Owing(s)
    decreases |s.pending|
  {
    hide Core, SendPdu, LogGrows;
    if s.pending != [] {
      var m, r := SendPdu(s, s.pending[0]).0, SendPdu(s, s.pending[0]).1;
      SendCore(s, s.pending[0]);
      if r.Ok? {
        SentTakesOne(s, s.pending[0]);
        assert m.pending == s.pending;
        PopCore(m);
        DrainOwing(Popped(m));
      } else {
        RefusedKeepsOut(s, s.pending[0]);
      }
    }
  }

  /** Every acknowledgement of a message that is out brings the end nearer. */
  lemma {:induction false} AckOwing(s: Session, id: u64)
    requires Core(s) && id != 0 && id in s.reservations
    ensures Owing(AckOutput(s, id).0) < Owing(s)
  {
    ReleaseCore(s, id);
    hide Core, LogGrows, B.AckSend;
    assert (s.reservations - {id}).Keys == s.reservations.Keys - {id};
    assert Owing(Released(s, id)) < Owing(s);
    DrainOwing(Released(s, id));
  }
}
