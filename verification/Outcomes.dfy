/** What a call answers, told from the state before it: how far the waiting replies get, and why they stop. */
module Outcomes {
  import opened Base
  import opened Wire
  import opened Reassembly
  import opened Session
  import opened Frames
  import opened Sending
  import opened Traffic
  import opened ReplyQueue
  import opened SessionCalls
  import opened SessionRuns
  import opened SessionLaws
  import B = Broker
  import E = Execution
  import L = ExecutionLaws
  import R = ExecutionRuns
  import Usbip

  // ------------------------------------------------------------ how far they get

  function Bytes(bodies: seq<bytes>): nat {
    if bodies == [] then 0 else |bodies[0]| + Bytes(bodies[1..])
  }

  // The number of frames some replies take.
  function FrameCount(bodies: seq<bytes>): nat {
    if bodies == [] then 0 else DivCeil(|bodies[0]|, CHUNK) + FrameCount(bodies[1..])
  }

  /** The reply in place k goes out once those before it are out: it is small enough, and the window has room. */
  predicate Goes(s: Session, bodies: seq<bytes>, k: nat)
    requires k < |bodies|
  {
    && |bodies[k]| <= s.broker.maxPdu
    && DivCeil(|bodies[k]|, CHUNK) <= s.maxFragments
    && s.broker.tx.pdusInFlight + k < s.broker.maxInflight
    && s.broker.tx.pdusInFlight + k < s.broker.txWindowPdus
    && s.broker.tx.bytesInFlight + Bytes(bodies[..k + 1]) <= s.broker.txWindowBytes
  }

  /** The first j replies go, and the one after them, if there is one, does not. */
  predicate Longest(s: Session, bodies: seq<bytes>, j: nat) {
    && j <= |bodies|
    && (forall k :: 0 <= k < j ==> Goes(s, bodies, k))
    && (j < |bodies| ==> !Goes(s, bodies, j))
  }

  function LeavingFrom(s: Session, bodies: seq<bytes>, k: nat): (j: nat)
    requires k <= |bodies| && forall i :: 0 <= i < k ==> Goes(s, bodies, i)
    ensures Longest(s, bodies, j)
    decreases |bodies| - k
  {
    if k == |bodies| || !Goes(s, bodies, k) then k else LeavingFrom(s, bodies, k + 1)
  }

  /** How many of some waiting replies go out at once, as far as the window decides. */
  function Leaving(s: Session, bodies: seq<bytes>): (j: nat)
    ensures Longest(s, bodies, j)
  {
    LeavingFrom(s, bodies, 0)
  }

  lemma LongestIsUnique(s: Session, bodies: seq<bytes>, i: nat, j: nat)
    requires Longest(s, bodies, i) && Longest(s, bodies, j)
    ensures i == j
  {
    hide Goes;
  }

  // Why the reply in place j stays, once those before it are out; a full window is no failure.
  function Stop(s: Session, bodies: seq<bytes>, j: nat): Result<()>
    requires j < |bodies|
  {
    if |bodies[j]| > s.broker.maxPdu || s.broker.tx.pdusInFlight + j >= s.broker.maxInflight then Err(LimitExceeded)
    else if s.broker.tx.pdusInFlight + j >= s.broker.txWindowPdus
         || s.broker.tx.bytesInFlight + Bytes(bodies[..j + 1]) > s.broker.txWindowBytes then Ok(())
    else Err(LimitExceeded)
  }

  /** What sending waiting replies answers when j of them go. */
  function Answer(s: Session, bodies: seq<bytes>, j: nat): Result<()>
    requires j <= |bodies|
  {
    if s.nextTx + FrameCount(bodies[..j]) > LAST then Err(SequenceError)
    else if j == |bodies| then Ok(())
    else Stop(s, bodies, j)
  }

  // The session after its oldest reply went out, as far as the window is concerned.
  predicate OneOut(s: Session, s': Session, body: bytes) {
    && s'.broker.tx.bytesInFlight == s.broker.tx.bytesInFlight + |body|
    && s'.broker.tx.pdusInFlight == s.broker.tx.pdusInFlight + 1
    && s'.broker == s.broker.(tx := s'.broker.tx) && s'.maxFragments == s.maxFragments
    && s'.nextTx == s.nextTx + DivCeil(|body|, CHUNK)
  }

  lemma PrefixSums(bodies: seq<bytes>, k: nat)
    requires k < |bodies|
    ensures Bytes(bodies[..k + 1]) == |bodies[0]| + Bytes(bodies[1..][..k])
    ensures FrameCount(bodies[..k + 1]) == DivCeil(|bodies[0]|, CHUNK) + FrameCount(bodies[1..][..k])
  {
    hide DivCeil;
    assert bodies[..k + 1][1..] == bodies[1..][..k];
  }

  lemma GoesNext(s: Session, s': Session, bodies: seq<bytes>, k: nat)
    requires bodies != [] && OneOut(s, s', bodies[0]) && k + 1 < |bodies|
    ensures Goes(s, bodies, k + 1) == Goes(s', bodies[1..], k)
    ensures Stop(s, bodies, k + 1) == Stop(s', bodies[1..], k)
  {
    hide DivCeil, Bytes;
    PrefixSums(bodies, k + 1);
  }

  // What is left to tell after one reply went out is told the same way.
  lemma {:induction false} LongestNext(s: Session, s': Session, bodies: seq<bytes>, j: nat)
    requires bodies != [] && OneOut(s, s', bodies[0]) && j >= 1 && Longest(s, bodies, j)
    ensures Longest(s', bodies[1..], j - 1)
    ensures Answer(s, bodies, j) == Answer(s', bodies[1..], j - 1)
  {
    hide Goes, Stop, Bytes, FrameCount, DivCeil;
    forall k | 0 <= k < j - 1
      ensures Goes(s', bodies[1..], k)
    {
      GoesNext(s, s', bodies, k);
    }
    PrefixSums(bodies, j - 1);
    if j < |bodies| {
      GoesNext(s, s', bodies, j - 1);
    }
    assert OneOut(s, s', bodies[0]);
  }

  // ----------------------------------------------------------------- draining

  lemma {:induction false} SentIsOneOut(s: Session, m: Message)
    requires Core(s) && SendPdu(s, m).1.Ok?
    ensures OneOut(s, SendPdu(s, m).0, m.body)
    ensures s.pending != [] ==> OneOut(s, SendPdu(s, m).0.(pending := s.pending[1..]), m.body)
  {
    CoreConfigured(s);
    SendOutcomes(s, m);
    FragmentEffect(s, m);
    ReservedEffect(s.broker, |m.body|);
    hide Core, Configured, Fits, FragmentOk, Pieces, PieceEvents, SendPdu, DivCeil, B.ReserveSend, FragmentAndQueue;
  }

  lemma ReservedEffect(b: B.Broker, n: nat)
    requires B.ReserveSend(b, n).1.Ok?
    ensures B.ReserveSend(b, n).0 == b.(tx := B.Window(b.tx.bytesInFlight + n, b.tx.pdusInFlight + 1))
  {
  }

  // The first reply in line goes, waits or fails as told.
  lemma {:induction false} OldestVerdict(s: Session)
    requires Core(s) && Ledger(s) && Sized(s) && |s.produced| <= CAPACITY
    requires s.phase == Running && s.broker.state == B.Established && s.pending != []
    ensures var bodies := Bodies(s.pending);
      var r := SendPdu(s, s.pending[0]).1;
      if Goes(s, bodies, 0) then
        r == if s.nextTx + DivCeil(|s.pending[0].body|, CHUNK) > LAST then Err(SequenceError) else Ok(())
      else
        && r.Err? && (r == Err(WindowExhausted) ==> Stop(s, bodies, 0) == Ok(()))
        && (r != Err(WindowExhausted) ==> r == Err(LimitExceeded) == Stop(s, bodies, 0))
  {
    var m := s.pending[0];
    LedgerWaiting(s);
    CoreConfigured(s);
    SizedFits(s, m);
    assert m.id != 0 && 0 < |m.body|;
    var bodies := Bodies(s.pending);
    assert Bytes(bodies[..1]) == |m.body| by {
      PrefixSums(bodies, 0);
    }
    hide Core, Configured, FragmentOk, Pieces, PieceEvents, B.AckSend, Ledger, SendPdu, DivCeil, Fits;
    if m.id in s.reservations {
      WaitingAbove(s, m.id);
      assert false;
    }
    B.WhyRefused(s.broker, |m.body|);
    SendVerdict(s, m);
  }

  lemma SizedFits(s: Session, m: Message)
    requires Configured(s) && ReplySized(m.body, s.table.maxTransfer)
    ensures Fits(s, m) <==> |m.body| <= s.broker.maxPdu && DivCeil(|m.body|, CHUNK) <= s.maxFragments
  {
    hide DivCeil, B.HelloOk;
  }

  /** A session whose waiting replies were sent as far as they go. */
  predicate SentSoMany(s: Session, s': Session, j: nat)
    requires j <= |s.pending|
  {
    && s'.pending == s.pending[j..]
    && s'.nextTx == s.nextTx + FrameCount(Bodies(s.pending)[..j])
    && s'.broker == s.broker.(tx := s'.broker.tx)
    && s'.broker.tx.pdusInFlight == s.broker.tx.pdusInFlight + j
  }

  lemma {:induction false} NothingGoes(s: Session)
    ensures SentSoMany(s, s, 0)
  {
    assert Bodies(s.pending)[..0] == [];
  }

  lemma OneMoreGone(s: Session, m: Session, s': Session, j: nat)
    requires s.pending != [] && 1 <= j <= |s.pending| && m.pending == s.pending[1..]
    requires OneOut(s, m, s.pending[0].body) && SentSoMany(m, s', j - 1)
    ensures SentSoMany(s, s', j)
  {
    hide DivCeil, FrameCount;
    PrefixSums(Bodies(s.pending), j - 1);
    assert Bodies(s.pending)[1..] == Bodies(s.pending[1..]);
  }

  /**
   Draining, told beforehand, for every session a run leads to: the longest run of
   waiting replies that fits goes out, and the answer is an exhausted counter, or
   success, or the refusal of the reply that stays first in line.
   */
  lemma {:induction false} DrainVerdict(s: Session, j: nat)
    requires Core(s) && Ledger(s) && Sized(s) && |s.produced| <= CAPACITY
    requires s.phase == Running && s.broker.state == B.Established
    requires Longest(s, Bodies(s.pending), j)
    ensures Drain(s).1 == Answer(s, Bodies(s.pending), j)
    ensures Drain(s).1 != Err(SequenceError) ==> SentSoMany(s, Drain(s).0, j)
    decreases |s.pending|
  {
    hide Core, SendPdu, Ledger, Sized, Goes, Stop, FrameCount, SentSoMany, OneOut, LogGrows, DivCeil;
    var bodies := Bodies(s.pending);
    NothingGoes(s);
    if s.pending == [] {
      NoFrames(bodies[..0]);
      CoreConfigured(s);
      NumbersInRange(s);
    } else {
      OldestVerdict(s);
      var m, r := SendPdu(s, s.pending[0]).0, SendPdu(s, s.pending[0]).1;
      SendCore(s, s.pending[0]);
      NumbersInRange(s);
      if j == 0 {
        NoFrames(bodies[..0]);
        CoreConfigured(s);
        SendKeeps(s, s.pending[0]);
      } else if r.Ok? {
        SentIsOneOut(s, s.pending[0]);
        OldestGoneLedger(s);
        var rest := Popped(m);
        LongestNext(s, rest, bodies, j);
        assert Bodies(rest.pending) == bodies[1..];
        DrainVerdict(rest, j - 1);
        if Drain(rest).1 != Err(SequenceError) {
          OneMoreGone(s, rest, Drain(rest).0, j);
        }
      } else {
        FirstFrames(bodies, j);
      }
    }
  }

  lemma NumbersInRange(s: Session)
    requires Core(s)
    ensures s.nextTx <= LAST
  {
    CoreConfigured(s);
  }

  lemma NoFrames(bodies: seq<bytes>)
    requires bodies == []
    ensures FrameCount(bodies) == 0
  {
  }

  lemma FirstFrames(bodies: seq<bytes>, j: nat)
    requires 1 <= j <= |bodies|
    ensures FrameCount(bodies[..j]) >= DivCeil(|bodies[0]|, CHUNK)
  {
    PrefixSums(bodies, j - 1);
  }

  // A reply refused for the window or a limit leaves the session as it was.
  lemma {:induction false} SendKeeps(s: Session, m: Message)
    requires Configured(s) && SendPdu(s, m).1.Err? && SendPdu(s, m).1 != Err(SequenceError)
    ensures SendPdu(s, m).0 == s
  {
    SendOutcomes(s, m);
    hide Configured, Fits, FragmentOk, Pieces, PieceEvents, SendPdu;
  }

  // Once the oldest reply is out the accounts hold without it.
  lemma {:induction false} OldestGoneLedger(s: Session)
    requires Core(s) && Ledger(s) && Sized(s) && s.pending != [] && SendPdu(s, s.pending[0]).1.Ok?
    ensures var m := SendPdu(s, s.pending[0]).0;
      && m.pending == s.pending && Core(Popped(m)) && Ledger(Popped(m)) && Sized(Popped(m))
      && Popped(m).phase == s.phase && Popped(m).broker.state == s.broker.state && Popped(m).produced == s.produced
  {
    hide Core, SendPdu, Ledger, LogGrows, AllReplySized;
    var m := SendPdu(s, s.pending[0]).0;
    CoreConfigured(s);
    SendCore(s, s.pending[0]);
    SendOldestLedger(s);
    assert m.(pending := s.pending) == m;
    PopCore(m);
  }

  // ------------------------------------------------------------- handling

  /** Everything that would be waiting with some new replies in line. */
  function Line(s: Session, replies: seq<bytes>): seq<bytes> {
    Bodies(s.pending) + replies
  }

  /** What a call that brings some new replies answers, told from the state before it. */
  function Foretold(s: Session, replies: seq<bytes>): Result<()> {
    if |s.produced| + |replies| > CAPACITY then Err(LimitExceeded)
    else Answer(s, Line(s, replies), Leaving(s, Line(s, replies)))
  }

  // The state with new replies in line, none sent yet, is as far as the window goes the state before.
  lemma {:induction false} TakenLine(s: Session, t: E.Table, events: seq<E.ExecutorEvent>)
    requires Core(s.(table := t)) && Ledger(s) && Sized(s) && t.maxTransfer == s.table.maxTransfer
    requires |s.produced| + |RepliesIn(events)| <= CAPACITY && AllReplySized(RepliesIn(events), t.maxTransfer)
    ensures var m := Taken(s.(table := t), events);
      && HandleEvents(s.(table := t), events) == Drain(m)
      && Core(m) && Ledger(m) && Sized(m) && m.phase == s.phase && m.broker == s.broker && m.table == t
      && m.nextTx == s.nextTx && m.maxFragments == s.maxFragments
      && m.produced == s.produced + RepliesIn(events) && Bodies(m.pending) == Line(s, RepliesIn(events))
  {
    var s1 := s.(table := t);
    hide Core, TakeEvents, RepliesIn, RepliesAmong, Arrivals, ReplySized, Spent, LogGrows;
    assert Ledger(s1);
    HandleIsDrain(s1, events);
    TakenCore(s1, events);
    TakeLedger(s1, events);
    TakeEffect(s1.(produced := s1.produced + RepliesIn(events)), events);
    BodiesConcat(s.pending, Queue(s.nextInternal, RepliesIn(events)));
    BodiesOfQueue(s.nextInternal, RepliesIn(events));
  }

  lemma SameGoes(s: Session, m: Session, bodies: seq<bytes>, k: nat)
    requires m.broker == s.broker.(rx := m.broker.rx) && m.maxFragments == s.maxFragments && k < |bodies|
    ensures Goes(m, bodies, k) == Goes(s, bodies, k) && Stop(m, bodies, k) == Stop(s, bodies, k)
  {
  }

  lemma SameWindow(s: Session, m: Session, bodies: seq<bytes>, j: nat)
    requires m.broker == s.broker.(rx := m.broker.rx) && m.maxFragments == s.maxFragments && m.nextTx == s.nextTx
    ensures Longest(m, bodies, j) == Longest(s, bodies, j)
    ensures j <= |bodies| ==> Answer(m, bodies, j) == Answer(s, bodies, j)
  {
    hide Goes, Stop, FrameCount;
    forall k | 0 <= k < |bodies|
      ensures Goes(m, bodies, k) == Goes(s, bodies, k) && Stop(m, bodies, k) == Stop(s, bodies, k)
    {
      SameGoes(s, m, bodies, k);
    }
  }

  // The replies left in line and the numbers left, once as many as fit went out.
  predicate LeftInLine(s: Session, s': Session, replies: seq<bytes>) {
    var j := Leaving(s, Line(s, replies));
    && Bodies(s'.pending) == Line(s, replies)[j..]
    && s'.nextTx == s.nextTx + FrameCount(Line(s, replies)[..j])
    && s'.broker == s.broker.(tx := s'.broker.tx)
    && s'.broker.tx.pdusInFlight == s.broker.tx.pdusInFlight + j
  }

  lemma SentLine(s: Session, m: Session, s': Session, replies: seq<bytes>, j: nat)
    requires Bodies(m.pending) == Line(s, replies) && m.broker == s.broker && m.nextTx == s.nextTx
    requires j == Leaving(s, Line(s, replies)) && j <= |m.pending| && SentSoMany(m, s', j)
    ensures LeftInLine(s, s', replies)
  {
    hide FrameCount, Leaving;
    assert Bodies(m.pending[j..]) == Bodies(m.pending)[j..];
  }

  lemma {:induction false} OutOfIds(s: Session, events: seq<E.ExecutorEvent>)
    requires Ledger(s) && |s.produced| <= CAPACITY && |s.produced| + |RepliesIn(events)| > CAPACITY
    ensures HandleEvents(s, events).1 == Err(LimitExceeded)
  {
    hide RepliesAmong, Queue, RepliesIn, TakeEvents;
    TakeFails(s.(produced := s.produced + RepliesIn(events)), events);
  }

  lemma {:induction false} HandleForetold(s: Session, t: E.Table, events: seq<E.ExecutorEvent>)
    requires Core(s.(table := t)) && Ledger(s) && Sized(s) && t.maxTransfer == s.table.maxTransfer
    requires s.phase == Running && s.broker.state == B.Established
    requires |s.produced| <= CAPACITY && AllReplySized(RepliesIn(events), t.maxTransfer)
    ensures var (s', r) := HandleEvents(s.(table := t), events);
      && r == Foretold(s, RepliesIn(events))
      && (|s.produced| + |RepliesIn(events)| <= CAPACITY && r != Err(SequenceError) ==>
            LeftInLine(s, s', RepliesIn(events)))
  {
    hide Core, Ledger, Sized, RepliesIn, HandleEvents, AllReplySized, Longest, Answer, SentSoMany, LeftInLine, Leaving;
    if |s.produced| + |RepliesIn(events)| <= CAPACITY {
      TakenLine(s, t, events);
      var m := Taken(s.(table := t), events);
      var bodies := Line(s, RepliesIn(events));
      var j := Leaving(s, bodies);
      SameWindow(s, m, bodies, j);
      LongestInside(s, bodies, j);
      DrainVerdict(m, j);
      if Drain(m).1 != Err(SequenceError) {
        SentLine(s, m, Drain(m).0, RepliesIn(events), j);
      }
    } else {
      assert Ledger(s.(table := t)) by { LedgerOfTable(s, t); }
      OutOfIds(s.(table := t), events);
    }
  }

  lemma LongestInside(s: Session, bodies: seq<bytes>, j: nat)
    requires Longest(s, bodies, j)
    ensures j <= |bodies|
  {
  }

  lemma LedgerOfTable(s: Session, t: E.Table)
    requires Ledger(s)
    ensures Ledger(s.(table := t))
  {
    hide RepliesAmong, Queue;
  }

  lemma KeptParts(s: Session)
    requires Kept(s)
    ensures Ledger(s) && Sized(s)
  {
  }

  /**
   What a running session answers to anything the executor was asked. If the
   executor refused, the session is as it was. If not, the executor's part stands,
   the replies are on the account, and the answer is the one foretold: unless
   numbers ran out, exactly the replies that fit went out and the others wait.
   */
  lemma {:induction false} ExecutedForetold(s: Session, op: R.Op)
    requires Sound(s) && Kept(s) && s.phase == Running && R.Legal(s.table, op) && |s.produced| <= CAPACITY
    ensures var (t, r) := R.Step(s.table, op);
      var (s', q) := Executed(s, t, r);
      && (r.Err? ==> s' == s && q == Err(r.error))
      && (r.Ok? ==>
            var replies := RepliesIn(r.value);
            && q == Foretold(s, replies)
            && s'.table == t && s'.produced == s.produced + replies && s'.phase == Running
            && (|s.produced| + |replies| <= CAPACITY && q != Err(SequenceError) ==> LeftInLine(s, s', replies)))
  {
    hide Sound, Core, Kept, R.Legal, R.Step, R.Balanced, E.Indexed, HandleEvents, AllReplySized, LogGrows,
         Ledger, Sized, Foretold, LeftInLine, RepliesIn;
    var (t, r) := R.Step(s.table, op);
    SoundRunning(s);
    KeptParts(s);
    ExecutorReports(s.table, op);
    if r.Ok? {
      BalancedKeeps(s.table, t, r.value);
      TableSound(s, t);
      SoundCore(s.(table := t));
      HandleForetold(s, t, r.value);
      HandleCore(s.(table := t), r.value);
    } else {
      assert s.(table := t) == s;
    }
  }

  /**
   The calls and the messages that are such actions of the executor, while the
   session runs; in any other phase both calls are refused and change nothing.
   */
  lemma CallsAreActions(s: Session, token: u64, c: E.Completion, status: i32, m: Message)
    ensures s.phase == Running ==>
      var (t, r) := R.Step(s.table, R.Finish(token, c));
      CompleteTransfer(s, token, c) == Executed(s, t, r)
    ensures s.phase == Running ==>
      var (t, r) := R.Step(s.table, R.Cancel(token, status));
      CompleteCancel(s, token, status) == Executed(s, t, r)
    ensures s.phase != Running ==>
      CompleteTransfer(s, token, c) == (s, Err(InvalidState)) == CompleteCancel(s, token, status)
    ensures !Usbip.IsControl(m.body) ==>
      var (t, r) := R.Step(s.table, R.Accept(m.body)); HandlePdu(s, m) == Executed(s, t, r)
  {
    hide E.Complete, E.CompleteCancel, E.AcceptPdu, Executed;
  }

  /**
   A completion of a pending transfer stands whatever the call answers: the transfer
   is settled and its replies are on the account. So the call fails although it took
   effect exactly when the answer foretold is an error.
   */
  lemma {:induction false} CompletionStands(s: Session, token: u64, c: E.Completion)
    requires Sound(s) && Kept(s) && s.phase == Running && |s.produced| <= CAPACITY
    requires E.ValidateCompletion(s.table, token, c.actualLength, |c.data|) == Ok(true)
    ensures var (t, reported) := E.Complete(s.table, token, c);
      var (s', r) := CompleteTransfer(s, token, c);
      && reported.Ok? && RepliesIn(reported.value) != []
      && r == Foretold(s, RepliesIn(reported.value))
      && s'.table == t && token !in s'.table.byToken
      && s'.produced == s.produced + RepliesIn(reported.value)
      && (|s'.produced| <= CAPACITY && r != Err(SequenceError) ==> LeftInLine(s, s', RepliesIn(reported.value)))
  {
    SoundCore(s);
    L.ValidationPredicts(s.table, token, c);
    L.CompletionReplies(s.table, token, c);
    PendingToken(s.table, token, c);
    hide Sound, Kept, E.Complete, E.ValidateCompletion, Executed, E.Indexed, Foretold, LeftInLine, RepliesIn, Core;
    CompletionRetires(s.table, token, c);
    FirstReply(E.Complete(s.table, token, c).1.value);
    ExecutedForetold(s, R.Finish(token, c));
  }

  lemma PendingToken(t: E.Table, token: u64, c: E.Completion)
    requires E.ValidateCompletion(t, token, c.actualLength, |c.data|) == Ok(true)
    ensures token in t.byToken
  {
  }

  lemma FirstReply(events: seq<E.ExecutorEvent>)
    requires events != [] && events[0].ReplyEvent?
    ensures RepliesIn(events) != []
  {
  }

  lemma CompletionRetires(t: E.Table, token: u64, c: E.Completion)
    requires E.Complete(t, token, c).1.Ok? && token in t.byToken
    ensures token !in E.Complete(t, token, c).0.byToken
  {
    hide E.Replies, E.Remember;
  }

  lemma {:induction false} ReleasedForetold(m: Session)
    requires Core(m) && Ledger(m) && Sized(m) && |m.produced| <= CAPACITY
    requires m.phase == Running && m.broker.state == B.Established
    ensures Drain(m).1 == Foretold(m, [])
    ensures Drain(m).1 != Err(SequenceError) ==> LeftInLine(m, Drain(m).0, [])
  {
    hide Core, Ledger, Sized, Drain, Longest, Answer, SentSoMany, LeftInLine, Leaving;
    assert Line(m, []) == Bodies(m.pending);
    var j := Leaving(m, Bodies(m.pending));
    LongestInside(m, Bodies(m.pending), j);
    DrainVerdict(m, j);
    if Drain(m).1 != Err(SequenceError) {
      SentLine(m, m, Drain(m).0, [], j);
    }
  }

  // An acknowledgement outside RUNNING gives back the reservation and can send nothing.
  lemma {:induction false} IdleAcknowledgement(s: Session, id: u64)
    requires Sound(s) && s.phase != Running && id != 0 && id in s.reservations
    ensures AckOutput(s, id)
         == (Released(s, id), if s.broker.state == B.Established && s.pending == [] then Ok(()) else Err(InvalidState))
  {
    hide Sound, Core, B.AckSend, LogGrows;
    SoundCore(s);
    ReleasedOrNot(s, id);
    ReleasedKeepsQueue(s, id);
  }

  lemma ReleasedOrNot(s: Session, id: u64)
    requires Core(s) && id in s.reservations
    ensures B.AckSend(s.broker, s.reservations[id]).1.Ok? <==> s.broker.state == B.Established
    ensures s.broker.state != B.Established ==> B.AckSend(s.broker, s.reservations[id]).1 == Err(InvalidState)
  {
    hide Total, FramesIn;
    if s.broker.state == B.Established {
      ReleaseConserved(s, id);
    }
  }

  lemma ReleasedKeepsQueue(s: Session, id: u64)
    requires id in s.reservations
    ensures Released(s, id).pending == s.pending && Released(s, id).phase == s.phase
  {
    hide B.AckSend;
  }

  // An acknowledgement in RUNNING answers what sending the waiting replies answers once its share is back.
  lemma {:induction false} RunningAcknowledgement(s: Session, id: u64)
    requires Sound(s) && Kept(s) && s.phase == Running && |s.produced| <= CAPACITY && id in s.reservations
    ensures id != 0 && AckOutput(s, id).1 == Foretold(Released(s, id), [])
    ensures AckOutput(s, id).1 != Err(SequenceError) ==> LeftInLine(Released(s, id), AckOutput(s, id).0, [])
  {
    hide Sound, Kept, Core, Ledger, Sized, B.AckSend, Drain, LogGrows, LeftInLine, Foretold;
    SoundRunning(s);
    KeptParts(s);
    ReservedIds(s, id);
    ReleaseCore(s, id);
    ReleasedKeeps(s, id);
    ReleasedForetold(Released(s, id));
  }

  /**
   What an acknowledgement answers and does, told from the state before it, in every
   phase. While running, the share of the window is given back and the replies that
   then fit go out. Outside it the share is given back too, nothing goes out, and the
   answer is an error if the broker is not established or a reply waits.
   */
  lemma {:induction false} AcknowledgementForetold(s: Session, id: u64)
    requires Sound(s) && Kept(s) && |s.produced| <= CAPACITY
    ensures id == 0 ==> AckOutput(s, id) == (s, Ok(()))
    ensures id != 0 && id !in s.reservations ==> AckOutput(s, id) == (s, Err(NotFound))
    ensures id != 0 && id in s.reservations && s.phase == Running ==>
      && AckOutput(s, id).1 == Foretold(Released(s, id), [])
      && (AckOutput(s, id).1 != Err(SequenceError) ==> LeftInLine(Released(s, id), AckOutput(s, id).0, []))
    ensures id != 0 && id in s.reservations && s.phase != Running ==>
      && AckOutput(s, id).0 == Released(s, id)
      && AckOutput(s, id).1
         == if s.broker.state == B.Established && s.pending == [] then Ok(()) else Err(InvalidState)
  {
    if id != 0 && id in s.reservations {
      hide *;
      if s.phase == Running {
        RunningAcknowledgement(s, id);
      } else {
        IdleAcknowledgement(s, id);
      }
    }
  }

  lemma ReleasedKeeps(s: Session, id: u64)
    requires Ledger(s) && Sized(s) && id in s.reservations
    ensures Ledger(Released(s, id)) && Sized(Released(s, id)) && Released(s, id).produced == s.produced
  {
    hide RepliesAmong, Queue, B.AckSend;
    AckKeepsState(s.broker, s.reservations[id]);
  }

  lemma AckKeepsState(b: B.Broker, n: nat)
    ensures B.AckSend(b, n).0.state == b.state
  {
  }

  lemma ReservedIds(s: Session, id: u64)
    requires Core(s) && s.broker.state == B.Established && id in s.reservations
    ensures id != 0
  {
  }

  // --------------------------------------------------- the condition, in numbers

  // What is out never exceeds what was agreed.
  lemma OutWithin(s: Session)
    requires Sound(s) && s.phase == Running
    ensures s.broker.tx.pdusInFlight <= s.broker.maxInflight && s.broker.tx.pdusInFlight <= s.broker.txWindowPdus
  {
    SoundRunning(s);
    hide Total, FramesIn, E.Indexed;
  }

  // Replies that are small enough stop only at the window or the number negotiated.
  lemma {:induction false} WhereTheyStop(s: Session, replies: seq<bytes>)
    requires Kept(s) && AdmitsReplies(s)
    requires |s.produced| + |replies| <= CAPACITY && AllReplySized(replies, s.table.maxTransfer)
    requires s.broker.tx.pdusInFlight <= s.broker.maxInflight && s.broker.tx.pdusInFlight <= s.broker.txWindowPdus
    ensures var bodies := Line(s, replies);
      var j := Leaving(s, bodies);
      && s.broker.tx.pdusInFlight + j <= s.broker.maxInflight && s.broker.tx.pdusInFlight + j <= s.broker.txWindowPdus
      && (j < |bodies| ==>
            Stop(s, bodies, j)
            == if s.broker.tx.pdusInFlight + j == s.broker.maxInflight then Err(LimitExceeded) else Ok(()))
  {
    hide Kept, Ledger, Sized, Bytes, FrameCount, Leaving, AllReplySized, AdmitsReplies, ReplySized, Line, DivCeil;
    KeptParts(s);
    LineSized(s, replies);
    var bodies := Line(s, replies);
    var j := Leaving(s, bodies);
    if j < |bodies| {
      SmallEnough(s, bodies[j]);
    }
    if j > 0 {
      assert Goes(s, bodies, j - 1);
    }
  }

  /**
   With room for the largest reply, and ids and numbers lasting, a call fails on
   account of replies exactly when those that fit bring the messages out to the
   number negotiated, and some are left.
   */
  lemma {:induction false} FailsAtNegotiatedNumber(s: Session, replies: seq<bytes>)
    requires Sound(s) && Kept(s) && s.phase == Running && AdmitsReplies(s)
    requires |s.produced| + |replies| <= CAPACITY && AllReplySized(replies, s.table.maxTransfer)
    requires s.nextTx + FrameCount(Line(s, replies)) <= LAST
    ensures var j := Leaving(s, Line(s, replies));
      Foretold(s, replies) ==
        if j < |Line(s, replies)| && s.broker.tx.pdusInFlight + j == s.broker.maxInflight then Err(LimitExceeded)
        else Ok(())
  {
    hide Sound, Kept, FrameCount, Leaving, AllReplySized, AdmitsReplies, Line, Stop, Goes;
    OutWithin(s);
    WhereTheyStop(s, replies);
    FrameCountGrows(Line(s, replies), Leaving(s, Line(s, replies)));
  }

  lemma LineSized(s: Session, replies: seq<bytes>)
    requires Ledger(s) && Sized(s) && |s.produced| <= CAPACITY && AllReplySized(replies, s.table.maxTransfer)
    ensures AllReplySized(Line(s, replies), s.table.maxTransfer)
    ensures forall i :: 0 <= i < |Line(s, replies)| ==> ReplySized(Line(s, replies)[i], s.table.maxTransfer)
  {
    hide Ledger, Sized, ReplySized;
    LedgerWaiting(s);
  }

  lemma SmallEnough(s: Session, body: bytes)
    requires AdmitsReplies(s) && ReplySized(body, s.table.maxTransfer)
    ensures |body| <= s.broker.maxPdu && DivCeil(|body|, CHUNK) <= s.maxFragments
  {
    DivCeilMonotone(|body|, 48 + s.table.maxTransfer);
    hide DivCeil;
  }

  lemma {:induction false} FrameCountGrows(bodies: seq<bytes>, j: nat)
    requires j <= |bodies|
    ensures FrameCount(bodies[..j]) <= FrameCount(bodies)
  {
    hide DivCeil;
    if j > 0 {
      FrameCountGrows(bodies[1..], j - 1);
      assert bodies[..j][1..] == bodies[1..][..j - 1];
    } else {
      NoFrames(bodies[..j]);
    }
  }

  /**
   If the window closes before the negotiated number is reached, and admits the
   largest reply, waiting replies never make a call fail: they wait for the window.
   */
  lemma {:induction false} RoomyNeverFails(s: Session, replies: seq<bytes>)
    requires Sound(s) && Kept(s) && s.phase == Running && AdmitsReplies(s)
    requires |s.produced| + |replies| <= CAPACITY && AllReplySized(replies, s.table.maxTransfer)
    requires s.broker.txWindowPdus < s.broker.maxInflight
    ensures Foretold(s, replies) == Ok(()) || Foretold(s, replies) == Err(SequenceError)
  {
    hide Sound, Kept, FrameCount, Leaving, AllReplySized, AdmitsReplies, Line, Stop, Goes;
    OutWithin(s);
    WhereTheyStop(s, replies);
  }
}
