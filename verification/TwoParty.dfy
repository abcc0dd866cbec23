/** Two sessions joined by a channel in each direction: neither ever finds the other out of step. */
module TwoParty {
  import opened Base
  import opened Endian
  import opened Wire
  import opened Reassembly
  import opened Session
  import opened Frames
  import opened Streams
  import opened Sending
  import opened Traffic
  import opened SessionCalls
  import opened SessionRuns
  import opened SessionLaws
  import opened Peers
  import B = Broker
  import E = Execution
  import R = ExecutionRuns

  // ---------------------------------------------- calls that take nothing in

  /** What a call other than accepting a frame leaves of the incoming side. */
  ghost predicate KeepsIncoming(s: Session, s': Session) {
    && s'.nextRx == s.nextRx && s'.received == s.received
    && (Alive(s'.phase) ==> s'.buffer == s.buffer)
  }

  lemma QueueKeepsIncoming(s: Session, reservation: u64, kind: MessageType, flags: u32, payload: bytes)
    ensures var s' := QueueFrame(s, reservation, kind, flags, payload).0;
      s' == s.(nextTx := s'.nextTx, log := s'.log)
  {
    hide EncodeFrame;
  }

  lemma FinishCloseKeepsIncoming(s: Session)
    ensures KeepsIncoming(s, FinishClose(s).0)
  {
    hide QueueFrame, B.CloseBroker;
    QueueKeepsIncoming(s.(phase := Closing), 0, CloseMsg, 0, PutU64Le(s.hello.leaseToken));
  }

  lemma HandshakeKeepsIncoming(s: Session, c: Call)
    requires SetsUp(c)
    ensures KeepsIncoming(s, Step(s, c).0)
  {
    hide QueueFrame, B.AcceptHello, B.EncodeHello, EncodeCapability, EncodeOpen;
    match c
    case CallSendCapability(capability) =>
      if EncodeCapability(capability).Ok? {
        QueueKeepsIncoming(s, 0, CapabilityMsg, 0, EncodeCapability(capability).value);
      }
    case CallSendOpen =>
      var payload := EncodeOpen(Open(s.hello.leaseToken, s.hello.attachmentToken));
      if payload.Ok? {
        QueueKeepsIncoming(s, 0, OpenMsg, 0, payload.value);
      }
    case CallSendOpenOk => QueueKeepsIncoming(s, 0, OpenOkMsg, 0, []);
    case CallSendOpenReject(status) => QueueKeepsIncoming(s, 0, OpenRejectMsg, 0, PutU32Le(status));
    case _ =>
  }

  lemma OnlySentKeepsIncoming(s: Session, t: E.Table, s': Session)
    requires OnlySent(s.(table := t), s')
    ensures KeepsIncoming(s, s')
  {
    hide LogGrows;
  }

  lemma {:induction false} ExecutedKeepsIncoming(s: Session, op: R.Op)
    requires Sound(s) && s.phase == Running && R.Legal(s.table, op)
    ensures var (t, r) := R.Step(s.table, op); KeepsIncoming(s, Executed(s, t, r).0)
  {
    hide Sound, R.Legal, R.Step, E.Indexed, Executed, OnlySent, KeepsIncoming;
    var (t, r) := R.Step(s.table, op);
    SoundCore(s);
    ExecutorKeeps(s.table, op);
    ExecutedSound(s, t, r);
    OnlySentKeepsIncoming(s, t, Executed(s, t, r).0);
  }

  lemma {:induction false} CloseKeepsIncoming(s: Session, order: seq<u64>)
    requires Sound(s) && (s.phase.Running? ==> E.Lists(order, s.table.byToken.Keys))
    ensures KeepsIncoming(s, Close(s, order).0)
  {
    hide Sound, E.CloseAll, E.Lists, FinishClose, HandleEvents;
    if s.phase.Running? {
      ExecutedKeepsIncoming(s, R.Shut(order));
      var (t, events) := E.CloseAll(s.table, order);
      var (s', r) := HandleEvents(s.(table := t), events);
      assert Executed(s, t, Ok(events)).0 == s';
      if r.Ok? {
        HandlePhase(s, order);
        FinishCloseKeepsIncoming(s');
      }
    } else {
      FinishCloseKeepsIncoming(s);
    }
  }

  lemma {:induction false} SendingKeepsIncoming(s: Session, m: Message, id: u64)
    requires Sound(s)
    ensures KeepsIncoming(s, SendPdu(s, m).0) && KeepsIncoming(s, AckOutput(s, id).0)
  {
    hide Sound, Core, SendPdu, AckOutput, OnlySent, KeepsIncoming, E.Indexed;
    SoundCore(s);
    assert s.(table := s.table) == s;
    SendCore(s, m);
    OnlySentKeepsIncoming(s, s.table, SendPdu(s, m).0);
    AckCore(s, id);
    OnlySentKeepsIncoming(s, s.table, AckOutput(s, id).0);
  }

  lemma StillKeepsIncoming(s: Session)
    ensures KeepsIncoming(s, s)
  {
  }

  lemma {:induction false} TransferKeepsIncoming(s: Session, token: u64, c: E.Completion, status: i32)
    requires Sound(s)
    ensures KeepsIncoming(s, CompleteTransfer(s, token, c).0) && KeepsIncoming(s, CompleteCancel(s, token, status).0)
  {
    hide Sound, E.Complete, E.CompleteCancel, Executed, E.Lists, KeepsIncoming;
    StillKeepsIncoming(s);
    if s.phase == Running {
      ExecutedKeepsIncoming(s, R.Finish(token, c));
      ExecutedKeepsIncoming(s, R.Cancel(token, status));
    }
  }

  /** Only an arriving frame changes the incoming side; ending may drop what was half-received. */
  lemma {:induction false} CallKeepsIncoming(s: Session, c: Call)
    requires Sound(s) && Legal(s, c) && !c.CallAcceptFrame?
    ensures KeepsIncoming(s, Step(s, c).0)
  {
    match c
    case CallSendPdu(m) =>
      hide Sound, SendPdu, KeepsIncoming;
      SendingKeepsIncoming(s, m, 0);
    case CallAckOutput(id) =>
      hide Sound, AckOutput, KeepsIncoming;
      SendingKeepsIncoming(s, Message(0, []), id);
    case CallComplete(token, completion) =>
      hide Sound, CompleteTransfer, KeepsIncoming;
      TransferKeepsIncoming(s, token, completion, 0);
    case CallCancel(token, status) =>
      hide Sound, CompleteCancel, KeepsIncoming;
      TransferKeepsIncoming(s, token, E.CANCELLATION, status);
    case CallClose(order) =>
      hide Sound, Close, E.Lists, KeepsIncoming;
      CloseKeepsIncoming(s, order);
    case _ =>
      hide Sound, Step, KeepsIncoming;
      HandshakeKeepsIncoming(s, c);
  }

  // -------------------------------------------------------------- the system

  /** Two sessions, and how many of the other's frames each has been handed. */
  datatype System = System(left: Session, right: Session, leftGot: nat, rightGot: nat)

  datatype Move =
    | LeftCalls(call: Call)
    | RightCalls(call: Call)
    | FrameToLeft
    | FrameToRight

  // Handing a receiver the oldest frame still on its way to it, if there is one.
  function Hand(to: Session, got: nat, frames: seq<bytes>): (Session, nat) {
    if got < |frames| then (AcceptFrame(to, frames[got]).0, got + 1) else (to, got)
  }

  function Next(y: System, m: Move): System {
    match m
    case LeftCalls(c) => y.(left := Step(y.left, c).0)
    case RightCalls(c) => y.(right := Step(y.right, c).0)
    case FrameToLeft =>
      var (s, got) := Hand(y.left, y.leftGot, FramesIn(y.right.log));
      y.(left := s, leftGot := got)
    case FrameToRight =>
      var (s, got) := Hand(y.right, y.rightGot, FramesIn(y.left.log));
      y.(right := s, rightGot := got)
  }

  // Frames reach a session only through the channel; any other call is free.
  ghost predicate Allowed(y: System, m: Move) {
    match m
    case LeftCalls(c) => Legal(y.left, c) && !c.CallAcceptFrame?
    case RightCalls(c) => Legal(y.right, c) && !c.CallAcceptFrame?
    case _ => true
  }

  function RunSystem(y: System, moves: seq<Move>): System {
    if moves == [] then y else Next(RunSystem(y, moves[..|moves| - 1]), moves[|moves| - 1])
  }

  ghost predicate AllowedRun(y: System, moves: seq<Move>) {
    moves == [] ||
    (AllowedRun(y, moves[..|moves| - 1]) && Allowed(RunSystem(y, moves[..|moves| - 1]), moves[|moves| - 1]))
  }

  /** Two sessions as made, with the same tokens, before anything was said. */
  ghost predicate Attached(y: System) {
    && Made(y.left) && Made(y.right) && SameTokens(y.left.hello, y.right.hello)
    && y.leftGot == 0 && y.rightGot == 0
  }

  // One direction: what the receiver has made of the frames it was handed.
  ghost predicate Link(from: Session, to: Session, got: nat) {
    && got <= |FramesIn(from.log)|
    && Advanced(to, FramesIn(from.log)[..got])
  }

  ghost predicate Steady(s: Session) {
    Sound(s) && Calm(s)
  }

  ghost predicate InTouch(y: System) {
    && Steady(y.left) && Steady(y.right) && SameTokens(y.left.hello, y.right.hello)
    && Link(y.left, y.right, y.rightGot) && Link(y.right, y.left, y.leftGot)
  }

  lemma {:induction false} FramesGrow(a: seq<Event>, b: seq<Event>)
    requires a <= b
    ensures FramesIn(a) <= FramesIn(b)
  {
    Extends(a, b);
    FramesConcat(a, b[|a|..]);
  }

  // A sender that goes on only adds frames.
  lemma SenderMoves(from: Session, from': Session, to: Session, got: nat)
    requires Link(from, to, got) && from.log <= from'.log
    ensures Link(from', to, got)
  {
    hide Advanced, FramesIn;
    FramesGrow(from.log, from'.log);
    assert FramesIn(from'.log)[..got] == FramesIn(from.log)[..got];
  }

  lemma ReceiverMoves(from: Session, to: Session, to': Session, got: nat)
    requires Link(from, to, got) && KeepsIncoming(to, to') && Rank(to.phase) <= Rank(to'.phase)
    ensures Link(from, to', got)
  {
    hide Collect, SameContent, FramesIn;
  }

  lemma {:induction false} CollectPrefixOk(frames: seq<bytes>, n: nat)
    requires n <= |frames| && Collect(frames).ok
    ensures Collect(frames[..n]).ok && Collect(frames[..n]).done <= Collect(frames).done
    decreases |frames|
  {
    hide Collect;
    if n == |frames| {
      assert frames[..n] == frames;
    } else {
      var front, last := frames[..|frames| - 1], frames[|frames| - 1];
      assert front + [last] == frames;
      CollectGrows(front, last);
      CollectPrefixOk(front, n);
      assert front[..n] == frames[..n];
    }
  }

  lemma SteadyFrames(s: Session)
    requires Steady(s)
    ensures Collect(FramesIn(s.log)).ok && Collect(FramesIn(s.log)).done == s.sent
    ensures |FramesIn(s.log)| + 1 == s.nextTx <= LAST
    ensures forall i :: 0 <= i < |FramesIn(s.log)| ==> Faithful(FramesIn(s.log)[i], s.hello, i + 1)
  {
    hide Collect, FramesIn, Faithful, Windowed, E.Indexed;
  }

  lemma Snoc(frames: seq<bytes>, n: nat)
    requires n < |frames|
    ensures frames[..n] + [frames[n]] == frames[..n + 1]
  {
  }

  // An ended session refuses every frame.
  lemma DeadRefuses(s: Session, frame: bytes)
    requires !Alive(s.phase)
    ensures AcceptFrame(s, frame).1 == Err(InvalidState) && !Alive(AcceptFrame(s, frame).0.phase)
    ensures AcceptFrame(s, frame).0.received == s.received
  {
    hide DecodeFrame;
  }

  lemma LinkAdvanced(from: Session, to: Session, got: nat)
    requires Link(from, to, got)
    ensures got <= |FramesIn(from.log)|
    ensures Alive(to.phase) ==> Reading(to, FramesIn(from.log)[..got])
    ensures to.received <= Collect(FramesIn(from.log)[..got]).done
  {
    hide FramesIn, Collect, Reading;
  }

  lemma SteadySound(s: Session)
    requires Steady(s)
    ensures Sound(s) && Calm(s)
  {
  }

  // The frame a receiver finds next is faithful, and reading it goes on well.
  lemma {:induction false} NextFrame(from: Session, got: nat)
    requires Steady(from) && got < |FramesIn(from.log)|
    ensures got + 1 < LAST && Faithful(FramesIn(from.log)[got], from.hello, got + 1)
    ensures FramesIn(from.log)[..got + 1] == FramesIn(from.log)[..got] + [FramesIn(from.log)[got]]
    ensures Collect(FramesIn(from.log)[..got + 1]).ok
  {
    hide Steady, Collect, FramesIn, Faithful;
    SteadyFrames(from);
    Snoc(FramesIn(from.log), got);
    CollectPrefixOk(FramesIn(from.log), got + 1);
  }

  lemma DeadAdvanced(s: Session, frame: bytes, before: seq<bytes>)
    requires !Alive(s.phase) && s.received <= Collect(before).done
    ensures Blameless(AcceptFrame(s, frame).0, AcceptFrame(s, frame).1)
    ensures Advanced(AcceptFrame(s, frame).0, before + [frame])
  {
    hide Collect, AcceptFrame, Reading, Alive;
    DeadRefuses(s, frame);
    CollectGrows(before, frame);
  }

  /** Handing over a frame: the receiver does not accuse the sender, and stays in touch with it. */
  lemma {:induction false} HandOver(from: Session, to: Session, got: nat)
    requires Steady(from) && Steady(to) && SameTokens(from.hello, to.hello)
    requires Link(from, to, got) && got < |FramesIn(from.log)|
    ensures var (to', r) := AcceptFrame(to, FramesIn(from.log)[got]);
      Blameless(to', r) && Link(from, to', got + 1)
  {
    hide Collect, FramesIn, Faithful, AcceptFrame, Steady, Sound, Calm, Reading, Alive, Advanced, Blameless;
    LinkAdvanced(from, to, got);
    SteadySound(to);
    NextFrame(from, got);
    if Alive(to.phase) {
      AcceptNext(to, FramesIn(from.log)[got], from.hello, FramesIn(from.log)[..got]);
    } else {
      DeadAdvanced(to, FramesIn(from.log)[got], FramesIn(from.log)[..got]);
    }
  }

  // ------------------------------------------------------------ whole runs

  lemma CallSteady(s: Session, c: Call)
    requires Steady(s) && Legal(s, c)
    ensures Steady(Step(s, c).0) && Step(s, c).0.hello == s.hello && s.log <= Step(s, c).0.log
    ensures Rank(s.phase) <= Rank(Step(s, c).0.phase)
  {
    hide Sound, Calm, Legal, Step, Carried, IsClose;
    CallSound(s, c);
    PhasesNeverGoBack(s, c);
  }

  lemma FrameSteady(s: Session, frame: bytes)
    requires Steady(s)
    ensures Steady(AcceptFrame(s, frame).0) && AcceptFrame(s, frame).0.hello == s.hello
    ensures s.log <= AcceptFrame(s, frame).0.log
  {
    hide Steady, AcceptFrame;
    CallSteady(s, CallAcceptFrame(frame));
  }

  // A call on one side, seen from both directions.
  lemma {:induction false} CallInTouch(s: Session, other: Session, c: Call, sGot: nat, otherGot: nat)
    requires Steady(s) && Legal(s, c) && !c.CallAcceptFrame?
    requires Link(s, other, otherGot) && Link(other, s, sGot)
    ensures var s' := Step(s, c).0;
      Steady(s') && s'.hello == s.hello && Link(s', other, otherGot) && Link(other, s', sGot)
  {
    SteadySound(s);
    hide Steady, Legal, Step, Link, KeepsIncoming, Sound;
    CallSteady(s, c);
    CallKeepsIncoming(s, c);
    SenderMoves(s, Step(s, c).0, other, otherGot);
    ReceiverMoves(other, s, Step(s, c).0, sGot);
  }

  // A frame handed to one side, seen from both directions.
  lemma {:induction false} FrameInTouch(s: Session, other: Session, sGot: nat, otherGot: nat)
    requires Steady(s) && Steady(other) && SameTokens(other.hello, s.hello)
    requires Link(s, other, otherGot) && Link(other, s, sGot)
    ensures var (s', got) := Hand(s, sGot, FramesIn(other.log));
      Steady(s') && s'.hello == s.hello && Link(s', other, otherGot) && Link(other, s', got)
  {
    hide Steady, Advanced, AcceptFrame, FramesIn;
    if sGot < |FramesIn(other.log)| {
      HandOver(other, s, sGot);
      FrameSteady(s, FramesIn(other.log)[sGot]);
      SenderMoves(s, AcceptFrame(s, FramesIn(other.log)[sGot]).0, other, otherGot);
    }
  }

  lemma {:induction false} NextInTouch(y: System, m: Move)
    requires InTouch(y) && Allowed(y, m)
    ensures InTouch(Next(y, m))
  {
    hide Steady, Link, Legal, Step, Hand, FramesIn;
    match m
    case LeftCalls(c) => CallInTouch(y.left, y.right, c, y.leftGot, y.rightGot);
    case RightCalls(c) => CallInTouch(y.right, y.left, c, y.rightGot, y.leftGot);
    case FrameToLeft => FrameInTouch(y.left, y.right, y.leftGot, y.rightGot);
    case FrameToRight => FrameInTouch(y.right, y.left, y.rightGot, y.leftGot);
  }

  lemma MadeLinked(from: Session, to: Session)
    requires Made(from) && Made(to)
    ensures Link(from, to, 0)
  {
    assert FramesIn(from.log)[..0] == [];
    assert Collect([]) == START;
    hide Collect, FramesIn;
  }

  lemma {:induction false} AlwaysInTouch(y: System, moves: seq<Move>)
    requires Attached(y) && AllowedRun(y, moves)
    ensures InTouch(RunSystem(y, moves))
  {
    hide Steady, Link, Made, Next, Allowed;
    if moves == [] {
      MadeSteady(y.left);
      MadeSteady(y.right);
      MadeLinked(y.left, y.right);
      MadeLinked(y.right, y.left);
    } else {
      AlwaysInTouch(y, moves[..|moves| - 1]);
      NextInTouch(RunSystem(y, moves[..|moves| - 1]), moves[|moves| - 1]);
    }
  }

  lemma MadeSteady(s: Session)
    requires Made(s)
    ensures Steady(s)
  {
    hide Made, Sound, Calm;
    MadeSound(s);
  }

  /**
   Two-party safety. Whatever the two programs do, in whatever order frames are
   handed over, no frame one session emits makes the other fail as out of sequence,
   as carrying foreign tokens or as another protocol's, except when the receiver's
   own numbers run out while it answers. While the receiver is not ended, the number
   it expects and the frames on their way add up to the number the sender uses next.
   */
  lemma NeverOutOfStep(y: System, moves: seq<Move>)
    requires Attached(y) && AllowedRun(y, moves)
    ensures var z := RunSystem(y, moves);
      && BlamelessNext(z.left, z.right, z.rightGot) && BlamelessNext(z.right, z.left, z.leftGot)
      && (Alive(z.right.phase) ==> z.right.nextRx + |FramesIn(z.left.log)| - z.rightGot == z.left.nextTx)
      && (Alive(z.left.phase) ==> z.left.nextRx + |FramesIn(z.right.log)| - z.leftGot == z.right.nextTx)
  {
    hide Steady, Link, Made, Next, Allowed, Attached, AllowedRun, RunSystem, BlamelessNext, FramesIn, Alive;
    AlwaysInTouch(y, moves);
    var z := RunSystem(y, moves);
    InStepWith(z.left, z.right, z.rightGot);
    InStepWith(z.right, z.left, z.leftGot);
  }

  ghost predicate BlamelessNext(from: Session, to: Session, got: nat) {
    got < |FramesIn(from.log)| ==>
      Blameless(AcceptFrame(to, FramesIn(from.log)[got]).0, AcceptFrame(to, FramesIn(from.log)[got]).1)
  }

  lemma ReadSoFar(from: Session, to: Session, got: nat)
    requires Link(from, to, got) && Collect(FramesIn(from.log)).done == from.sent && Collect(FramesIn(from.log)).ok
    ensures to.received <= from.sent
    ensures Alive(to.phase) ==> to.nextRx == got + 1
    ensures Alive(to.phase) && got == |FramesIn(from.log)| ==> to.received == from.sent
  {
    hide FramesIn, Collect, SameContent, Alive;
    CollectPrefixOk(FramesIn(from.log), got);
    assert FramesIn(from.log)[..|FramesIn(from.log)|] == FramesIn(from.log);
  }

  lemma {:induction false} InStepWith(from: Session, to: Session, got: nat)
    requires Steady(from) && Steady(to) && SameTokens(from.hello, to.hello) && Link(from, to, got)
    ensures BlamelessNext(from, to, got)
    ensures Alive(to.phase) ==> to.nextRx + |FramesIn(from.log)| - got == from.nextTx
    ensures to.received <= from.sent
    ensures Alive(to.phase) && got == |FramesIn(from.log)| ==> to.received == from.sent
  {
    hide Steady, AcceptFrame, FramesIn, Collect, Faithful, Blameless, Link, Alive;
    SteadyFrames(from);
    ReadSoFar(from, to, got);
    if got < |FramesIn(from.log)| {
      HandOver(from, to, got);
    }
  }

  /**
   Delivery end to end: what a session has received is always a prefix of what the
   other has sent, message by message with ids, in order, none lost or doubled;
   and all of it once every frame was handed over and the receiver has not ended.
   */
  lemma ReceivedIsPrefixOfSent(y: System, moves: seq<Move>)
    requires Attached(y) && AllowedRun(y, moves)
    ensures var z := RunSystem(y, moves);
      && z.right.received <= z.left.sent && z.left.received <= z.right.sent
      && (Alive(z.right.phase) && z.rightGot == |FramesIn(z.left.log)| ==> z.right.received == z.left.sent)
      && (Alive(z.left.phase) && z.leftGot == |FramesIn(z.right.log)| ==> z.left.received == z.right.sent)
  {
    hide Steady, Link, Made, Next, Allowed, Attached, AllowedRun, RunSystem, BlamelessNext, FramesIn, Alive;
    AlwaysInTouch(y, moves);
    var z := RunSystem(y, moves);
    InStepWith(z.left, z.right, z.rightGot);
    InStepWith(z.right, z.left, z.leftGot);
  }
}
