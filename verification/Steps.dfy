/** What every call of the handshake, every frame and every message sent answers and does, down to the bytes. */
module Steps {
  import opened Base
  import opened Endian
  import opened Numerals
  import opened Wire
  import opened FrameFormat
  import opened Reassembly
  import opened Session
  import opened Frames
  import opened Sending
  import opened Traffic
  import opened ReplyQueue
  import opened SessionCalls
  import B = Broker
  import E = Execution
  import L = ExecutionLaws

  // -------------------------------------------------------------- construction

  /** Which configurations are refused, and the session that any other one makes, field by field. */
  lemma SessionMade(c: Config)
    ensures NewSession(c) ==
      if c.maxReassembly > c.hello.maxPdu || c.maxTransfer == 0 || c.maxTransfer + 48 > c.maxReassembly
         || !(48 <= c.maxReassembly <= 1048576) || !(1 <= c.maxFragments <= 4096)
         || !(1 <= c.hello.maxInflight <= 4096) then Err(InvalidArgument)
      else if !GoodHello(c.hello) then Err(Malformed)
      else if c.txWindowBytes > 16777216 || c.rxWindowBytes > 16777216 || c.txWindowPdus > 4096 || c.rxWindowPdus > 4096
      then Err(InvalidArgument)
      else
        var broker := B.Broker(c.hello, B.New, false, c.hello.maxPdu, c.hello.maxInflight,
                               if c.txWindowBytes == 0 then 16777216 else c.txWindowBytes,
                               if c.txWindowPdus == 0 then 4096 else c.txWindowPdus,
                               if c.rxWindowBytes == 0 then 16777216 else c.rxWindowBytes,
                               if c.rxWindowPdus == 0 then 4096 else c.rxWindowPdus,
                               B.Window(0, 0), B.Window(0, 0));
        var table := E.Table(c.hello.maxInflight, c.maxTransfer, 1, map[], map[], {});
        Ok(Session(c.role, New, c.hello, broker, table, Buffer(None, 0, 0, 0, [], c.maxReassembly, c.maxFragments),
                   1, 1, 0x8000_0000_0000_0000, map[], [], c.maxReassembly, c.maxFragments, [], [], [], []))
  {
    hide GoodHello, B.HelloOk, B.NewBroker, E.NewTable;
    HelloValid(c.hello);
    L.TableMade(c.hello.maxInflight, c.maxTransfer);
    B.BrokerMade(c.hello, c.txWindowBytes, c.txWindowPdus, c.rxWindowBytes, c.rxWindowPdus);
  }

  lemma HelloValid(h: B.Hello)
    ensures B.HelloOk(h) <==> GoodHello(h)
  {
    hide B.HelloOk, GoodHello, B.PutHello;
    HelloWritten(h);
  }

  // ------------------------------------------------------------ bytes of frames

  /** The bytes of a frame of a kind, from its session token, number, flags and payload. */
  function WireFrame(k: u8, flags: u32, token: u64, n: u64, payload: bytes): bytes {
    [0x52, 0x55, 0x53, 0x42, 1, k, 32, 0] + Low(flags, 4) + Low(|payload|, 4) + Low(token, 8) + Low(n, 8) + payload
  }

  lemma FrameLayout(k: u8, flags: u32, token: u64, n: u64, payload: bytes)
    requires 1 <= k <= 6 && |payload| <= 131072 && token != 0 && 1 <= n < 0xFFFF_FFFF_FFFF_FFFF
    requires flags == 0 || (flags == 1 && k == 5)
    ensures FrameBytes(token, n, KINDS[k - 1], flags, payload) == WireFrame(k, flags, token, n, payload)
  {
    hide Low, PutHeader;
    HeaderWritten(FrameHeader(KINDS[k - 1], flags, |payload|, token, n), k);
  }

  // ------------------------------------------------------------ calls of the handshake

  /** Starting says HELLO, once. */
  lemma HelloSaid(s: Session)
    requires Sound(s)
    ensures Start(s) ==
      if s.phase != New || s.broker.state != B.New then (s, Err(InvalidState))
      else (s.(broker := s.broker.(state := B.HelloSent), phase := AwaitHello,
               log := s.log + [OutputHello(B.EncodeHello(s.hello).value)]), Ok(()))
  {
    hide Core, B.PutHello, E.Indexed;
    OwnFields(s);
  }

  lemma OwnFields(s: Session)
    requires Sound(s)
    ensures B.HelloOk(s.hello) && s.broker.expected == s.hello && 1 <= s.nextTx <= LAST
    ensures s.hello.sessionToken != 0 && s.hello.leaseToken != 0 && s.hello.attachmentToken != 0
  {
    SoundCore(s);
    CoreConfigured(s);
    hide Core, Sound;
  }

  /** The peer's HELLO moves the session on exactly if the broker takes it. */
  lemma HelloHeard(s: Session, wire: bytes)
    ensures AcceptHello(s, wire) ==
      if s.phase != AwaitHello then (s, Err(InvalidState))
      else
        var (b, r) := B.AcceptHello(s.broker, wire);
        (s.(broker := b, phase := if r.Ok? then AwaitCapability else AwaitHello), r)
  {
    hide B.AcceptHello;
    assert B.AcceptHello(s.broker, wire).1.Ok? ==> B.AcceptHello(s.broker, wire).1.value == ();
  }

  // What a call that says one control frame does: the frame goes out under the next number, or numbers ran out.
  function Said(s: Session, k: u8, payload: bytes): Session {
    s.(nextTx := if s.nextTx < LAST then s.nextTx + 1 else s.nextTx,
       log := s.log + [OutputFrame(0, WireFrame(k, 0, s.hello.sessionToken, s.nextTx, payload))])
  }

  lemma ControlSaid(s: Session, k: u8, payload: bytes)
    requires Sound(s) && 1 <= k <= 6 && k != 5 && |payload| <= 131072 && Content(KINDS[k - 1], 0, payload, s.hello)
    ensures QueueFrame(s, 0, KINDS[k - 1], 0, payload) ==
      if s.nextTx == 0xFFFF_FFFF_FFFF_FFFE then (s, Err(SequenceError)) else (Said(s, k, payload), Ok(()))
  {
    hide Sound, Core, QueueFrame, Content, FrameBytes, DecodeFrame, WireFrame;
    SoundCore(s);
    OwnFields(s);
    ControlCore(s, KINDS[k - 1], payload);
    FrameLayout(k, 0, s.hello.sessionToken, s.nextTx, payload);
  }

  /** An exporter that waits for it says CAPABILITY, of a valid device under the session's own tokens. */
  lemma CapabilitySaid(s: Session, c: Capability)
    requires Sound(s)
    ensures SendCapability(s, c) ==
      if s.role != Exporter || s.phase != AwaitCapability then (s, Err(InvalidState))
      else if c.leaseToken != s.hello.leaseToken || c.attachmentToken != s.hello.attachmentToken
      then (s, Err(TokenMismatch))
      else if EncodeCapability(c).Err? then (s, Err(EncodeCapability(c).error))
      else if s.nextTx == 0xFFFF_FFFF_FFFF_FFFE then (s, Err(SequenceError))
      else (Said(s, 1, EncodeCapability(c).value).(phase := AwaitOpen), Ok(()))
  {
    hide Sound, QueueFrame, Content, EncodeCapability, Said;
    if TokensMatch(s, c.leaseToken, c.attachmentToken) && EncodeCapability(c).Ok? {
      CapabilityContent(c, s.hello);
      ControlSaid(s, 1, EncodeCapability(c).value);
    }
  }

  /** An importer that was told of the device says OPEN, with the session's own tokens. */
  lemma OpenSaid(s: Session)
    requires Sound(s)
    ensures SendOpen(s) ==
      if s.role != Importer || s.phase != AwaitOpen then (s, Err(InvalidState))
      else if s.nextTx == 0xFFFF_FFFF_FFFF_FFFE then (s, Err(SequenceError))
      else (Said(s, 2, Low(s.hello.leaseToken, 8) + Low(s.hello.attachmentToken, 8)).(phase := AwaitOpenReply), Ok(()))
  {
    hide Sound, QueueFrame, Content, Said, Low, EncodeOpen;
    OwnFields(s);
    OpenContent(s.hello);
    OpenWritten(Open(s.hello.leaseToken, s.hello.attachmentToken));
    ControlSaid(s, 2, EncodeOpen(Open(s.hello.leaseToken, s.hello.attachmentToken)).value);
  }

  /** An exporter that was asked says OPEN_OK, and runs. */
  lemma OpenOkSaid(s: Session)
    requires Sound(s)
    ensures SendOpenOk(s) ==
      if s.role != Exporter || s.phase != AwaitOpenReply then (s, Err(InvalidState))
      else if s.nextTx == 0xFFFF_FFFF_FFFF_FFFE then (s, Err(SequenceError))
      else (Log(Said(s, 3, []).(phase := Running), Opened), Ok(()))
  {
    hide Sound, QueueFrame, Said;
    ControlSaid(s, 3, []);
  }

  /** An exporter that was asked may say OPEN_REJECT with a status from 1 to 10, and is closed. */
  lemma OpenRejectSaid(s: Session, status: u32)
    requires Sound(s)
    ensures SendOpenReject(s, status) ==
      if s.role != Exporter || s.phase != AwaitOpenReply || status == 0 || status > 10 then (s, Err(InvalidState))
      else if s.nextTx == 0xFFFF_FFFF_FFFF_FFFE then (s, Err(SequenceError))
      else (Said(s, 4, Low(status, 4)).(phase := Closed), Ok(()))
  {
    hide Sound, QueueFrame, Said, Content, Low, PutU32Le;
    if 1 <= status <= 10 {
      WritesLow(status);
      RejectContent(status, s.hello);
      ControlSaid(s, 4, PutU32Le(status));
    }
  }

  // ------------------------------------------------------------------- frames

  /** The session once a frame was refused: failed, and nothing of a half-read message left. */
  function Refused(s: Session): Session {
    s.(phase := Failed, buffer := Buffer(None, 0, 0, 0, [], s.buffer.maxSize, s.buffer.maxFragments))
  }

  predicate Listens(s: Session) {
    && (s.phase == AwaitCapability || s.phase == AwaitOpen || s.phase == AwaitOpenReply || s.phase == Running)
    && s.broker.state == B.Established
  }

  /** A frame that reads, of this session, under the number expected. */
  predicate OnTurn(s: Session, wire: bytes, h: FrameHeader, payload: bytes) {
    && Listens(s) && DecodeFrame(wire) == Ok((h, payload)) && h.sessionToken == s.hello.sessionToken
    && h.sequence == s.nextRx && s.nextRx < 0xFFFF_FFFF_FFFF_FFFE
  }

  /** Any other frame is refused with this error, and ends the session without telling it anything. */
  lemma FrameOutOfTurn(s: Session, wire: bytes)
    ensures
      if !Listens(s) then AcceptFrame(s, wire) == (Refused(s), Err(InvalidState))
      else match DecodeFrame(wire)
        case Err(error) => AcceptFrame(s, wire) == (Refused(s), Err(error))
        case Ok((h, payload)) =>
          if h.sessionToken != s.hello.sessionToken then AcceptFrame(s, wire) == (Refused(s), Err(TokenMismatch))
          else if h.sequence != s.nextRx || s.nextRx >= 0xFFFF_FFFF_FFFF_FFFE
          then AcceptFrame(s, wire) == (Refused(s), Err(SequenceError))
          else OnTurn(s, wire, h, payload)
  {
    hide DecodeFrame, Arrive;
  }

  // The number of the frame is used up.
  function Counted(s: Session): Session {
    s.(nextRx := if s.nextRx < LAST then s.nextRx + 1 else s.nextRx)
  }

  /** CAPABILITY is for an importer that waits for it, reads, and carries the session's tokens. */
  lemma CapabilityHeard(s: Session, wire: bytes, h: FrameHeader, payload: bytes)
    requires OnTurn(s, wire, h, payload) && h.messageType == CapabilityMsg
    ensures AcceptFrame(s, wire) ==
      if s.role != Importer || s.phase != AwaitCapability then (Refused(Counted(s)), Err(InvalidState))
      else match DecodeCapability(payload)
        case Err(error) => (Refused(Counted(s)), Err(error))
        case Ok(c) =>
          if c.leaseToken != s.hello.leaseToken || c.attachmentToken != s.hello.attachmentToken
          then (Refused(Counted(s)), Err(TokenMismatch))
          else (Counted(s).(phase := AwaitOpen, log := s.log + [CapabilityArrived(c)]), Ok(()))
  {
    hide DecodeFrame, DecodeCapability;
  }

  /** OPEN is for an exporter that waits for it; its bytes are the session's two tokens. */
  lemma OpenHeard(s: Session, wire: bytes, h: FrameHeader, payload: bytes)
    requires OnTurn(s, wire, h, payload) && h.messageType == OpenMsg
    ensures AcceptFrame(s, wire) ==
      if s.role != Exporter || s.phase != AwaitOpen then (Refused(Counted(s)), Err(InvalidState))
      else if |payload| != 16 || LowFirst(payload[0..8]) == 0 || LowFirst(payload[8..16]) == 0
      then (Refused(Counted(s)), Err(Malformed))
      else if LowFirst(payload[0..8]) != s.hello.leaseToken || LowFirst(payload[8..16]) != s.hello.attachmentToken
      then (Refused(Counted(s)), Err(TokenMismatch))
      else (Counted(s).(phase := AwaitOpenReply,
                        log := s.log + [OpenArrived(Open(s.hello.leaseToken, s.hello.attachmentToken))]), Ok(()))
  {
    hide DecodeFrame, DecodeOpen, LowFirst;
    OpenRead(payload);
  }

  /** OPEN_OK is for an importer that has asked; its program is told that the session runs. */
  lemma OpenOkHeard(s: Session, wire: bytes, h: FrameHeader, payload: bytes)
    requires OnTurn(s, wire, h, payload) && h.messageType == OpenOkMsg
    ensures AcceptFrame(s, wire) ==
      if s.role != Importer || s.phase != AwaitOpenReply then (Refused(Counted(s)), Err(InvalidState))
      else (Counted(s).(phase := Running, log := s.log + [Opened]), Ok(()))
  {
    hide DecodeFrame;
  }

  /** OPEN_REJECT is for an importer that has asked; its program is told the status in its four bytes. */
  lemma OpenRejectHeard(s: Session, wire: bytes, h: FrameHeader, payload: bytes)
    requires OnTurn(s, wire, h, payload) && h.messageType == OpenRejectMsg
    ensures var (s', r) := AcceptFrame(s, wire);
      if s.role != Importer || s.phase != AwaitOpenReply then (s', r) == (Refused(Counted(s)), Err(InvalidState))
      else if |payload| != 4 then (s', r) == (Refused(Counted(s)), Err(Malformed))
      else
        && r == Ok(()) && |s'.log| == |s.log| + 1 && s'.log[|s.log|].OpenRejected?
        && s'.log[|s.log|].status == LowFirst(payload)
        && s' == Counted(s).(phase := Closed, log := s.log + [s'.log[|s.log|]])
  {
    hide DecodeFrame, LowFirst, GetU32Le;
    ReadsLow(payload);
  }

  /** CLOSE is heard in every phase that listens; its eight bytes are the session's lease. */
  lemma CloseHeard(s: Session, wire: bytes, h: FrameHeader, payload: bytes)
    requires OnTurn(s, wire, h, payload) && h.messageType == CloseMsg
    ensures AcceptFrame(s, wire) ==
      if |payload| != 8 then (Refused(Counted(s)), Err(Malformed))
      else if LowFirst(payload) != s.hello.leaseToken then (Refused(Counted(s)), Err(TokenMismatch))
      else (Refused(Counted(s)).(phase := Closed, log := s.log + [ClosedEvent],
                                 broker := s.broker.(state := B.Closed, tx := B.Window(0, 0), rx := B.Window(0, 0))),
            Ok(()))
  {
    hide DecodeFrame, LowFirst, GetU64Le, B.CloseBroker;
    ReadsLow(payload);
    B.BrokerStates(s.broker);
  }

  /** Data is for a running session, under its lease and within the size agreed; then reassembly judges the fragment. */
  lemma DataHeard(s: Session, wire: bytes, h: FrameHeader, payload: bytes)
    requires OnTurn(s, wire, h, payload) && h.messageType == UsbIpData
    ensures
      if s.phase != Running then AcceptFrame(s, wire) == (Refused(Counted(s)), Err(InvalidState))
      else match DecodeFragment(payload, h.flags)
        case Err(error) => AcceptFrame(s, wire) == (Refused(Counted(s)), Err(error))
        case Ok(f) =>
          if f.leaseToken != s.hello.leaseToken then AcceptFrame(s, wire) == (Refused(Counted(s)), Err(TokenMismatch))
          else if f.totalLength > s.broker.maxPdu
          then AcceptFrame(s, wire) == (Refused(Counted(s)), Err(LimitExceeded))
          else match Push(s.buffer, f)
            case (b, Err(error)) => AcceptFrame(s, wire) == (Refused(Counted(s).(buffer := b)), Err(error))
            case (b, Ok(None)) => AcceptFrame(s, wire) == (Counted(s).(buffer := b), Ok(()))
            case (b, Ok(Some(m))) =>
              var (s', r) := Deliver(Counted(s).(buffer := b), m);
              AcceptFrame(s, wire) == (if r.Ok? then s' else Refused(s'), r)
  {
    hide DecodeFrame, DecodeFragment, Push, Deliver;
  }

  // ----------------------------------------------------------------- messages

  /** The payload of the i-th frame of a message: who sent what, where this part starts, and the part. */
  function PartPayload(lease: u64, m: Message, i: nat): bytes
    requires 131040 * i < |m.body|
  {
    var part := m.body[131040 * i..Min(131040 * i + 131040, |m.body|)];
    Low(lease, 8) + Low(m.id, 8) + Low(|m.body|, 4) + Low(131040 * i, 4) + Low(|part|, 4) + [0, 0, 0, 0] + part
  }

  function PartFrame(s: Session, m: Message, i: nat): bytes
    requires 131040 * i < |m.body| && s.nextTx + i < 0xFFFF_FFFF_FFFF_FFFF
  {
    var more := if 131040 * i + 131040 < |m.body| then 1 else 0;
    WireFrame(5, more, s.hello.sessionToken, s.nextTx + i, PartPayload(s.hello.leaseToken, m, i))
  }

  // The i-th piece of a message starts where i full pieces end.
  lemma {:induction false} PieceAt(lease: u64, m: Message, offset: nat, i: nat)
    requires offset <= |m.body| <= U32_MAX && offset % CHUNK == 0 && i < |Pieces(lease, m, offset)|
    ensures offset + CHUNK * i < |m.body|
    ensures Pieces(lease, m, offset)[i] == Piece(lease, m, offset + CHUNK * i)
    decreases i
  {
    if i > 0 {
      var next := Min(offset + CHUNK, |m.body|);
      assert next < |m.body|;
      PieceAt(lease, m, next, i - 1);
      assert next + CHUNK * (i - 1) == offset + CHUNK * i;
    }
  }

  lemma PartWritten(lease: u64, m: Message, i: nat)
    requires |m.body| <= 1048576 && 131040 * i < |m.body| && FragmentOk(Piece(lease, m, 131040 * i))
    ensures var f := Piece(lease, m, 131040 * i);
      && PutFragment(f) == PartPayload(lease, m, i)
      && FlagsOf(f) == (if 131040 * i + 131040 < |m.body| then 1 else 0)
  {
    hide Low, PutFragment, FragmentOk;
    FragmentWritten(Piece(lease, m, 131040 * i));
    FragmentSendable(Piece(lease, m, 131040 * i));
  }

  lemma Ceiling(n: nat)
    ensures DivCeil(n, CHUNK) == (n + 131039) / 131040
  {
  }

  lemma SmallEnoughToSend(s: Session, m: Message)
    requires Configured(s) && Fits(s, m)
    ensures 0 < |m.body| <= 1048576
  {
    hide B.HelloOk, DivCeil;
  }

  lemma CutsCount(s: Session, m: Message)
    requires Configured(s) && Fits(s, m) && m.id != 0
    ensures |m.body| <= 1048576 && |Cuts(s, m)| == (|m.body| + 131039) / 131040
  {
    SmallEnoughToSend(s, m);
    hide Configured, Fits, Pieces, FragmentOk, DivCeil, FragmentAndQueue, Emit, Cuts, AllOk;
    FragmentEffect(s, m);
    Ceiling(|m.body|);
  }

  lemma TokensNotZero(s: Session)
    requires Configured(s)
    ensures s.hello.sessionToken != 0 && s.hello.leaseToken != 0
  {
    ConfiguredFrames(s);
    hide Configured;
  }

  lemma PieceLayout(token: u64, n: u64, lease: u64, m: Message, i: nat)
    requires token != 0 && 1 <= n < LAST && |m.body| <= 1048576 && 131040 * i < |m.body|
    requires FragmentOk(Piece(lease, m, 131040 * i))
    ensures var more := if 131040 * i + 131040 < |m.body| then 1 else 0;
      PieceFrame(token, n, Piece(lease, m, 131040 * i)) == WireFrame(5, more, token, n, PartPayload(lease, m, i))
  {
    PartWritten(lease, m, i);
    hide Low, PutFragment, FragmentOk, FrameBytes, PartPayload, WireFrame, Piece, ValidatePayload;
    var f := Piece(lease, m, 131040 * i);
    FragmentSendable(f);
    FrameLayout(5, FlagsOf(f), token, n, PutFragment(f));
  }

  lemma CutIs(s: Session, m: Message, i: nat)
    requires |m.body| <= 1048576 && AllOk(Cuts(s, m)) && i < |Cuts(s, m)|
    ensures 131040 * i < |m.body|
    ensures Cuts(s, m)[i] == Piece(s.hello.leaseToken, m, 131040 * i)
    ensures FragmentOk(Cuts(s, m)[i]) && Cuts(s, m)[i].pduId == m.id
  {
    hide FragmentOk, Pieces;
    PieceAt(s.hello.leaseToken, m, 0, i);
  }

  lemma PartSaid(s: Session, m: Message, i: nat)
    requires Configured(s) && Fits(s, m) && AllOk(Cuts(s, m))
    requires i < |Cuts(s, m)| && s.nextTx + |Cuts(s, m)| <= LAST
    ensures 131040 * i < |m.body|
    ensures PieceEvent(s.hello.sessionToken, s.nextTx + i, Cuts(s, m)[i]) == OutputFrame(m.id, PartFrame(s, m, i))
  {
    hide Configured, Fits, FragmentOk, PieceFrame, WireFrame, PartPayload, Cuts, AllOk, Piece;
    SmallEnoughToSend(s, m);
    TokensNotZero(s);
    NumbersPositive(s);
    CutIs(s, m, i);
    PieceLayout(s.hello.sessionToken, s.nextTx + i, s.hello.leaseToken, m, i);
  }

  lemma NumbersPositive(s: Session)
    requires Configured(s)
    ensures s.nextTx >= 1
  {
    ConfiguredFrames(s);
    hide Configured;
  }

  /**
   A message that is sent goes out in as few frames of 131040 bytes as hold it, under
   consecutive numbers, each byte as laid out above, all of them under its own id; and
   it takes its share of the send window until that id is acknowledged.
   */
  lemma {:induction false} MessageSaid(s: Session, m: Message)
    requires Sound(s) && SendPdu(s, m).1.Ok?
    ensures var s' := SendPdu(s, m).0;
      var n := (|m.body| + 131039) / 131040;
      && s'.nextTx == s.nextTx + n <= 0xFFFF_FFFF_FFFF_FFFE
      && |s'.log| == |s.log| + n && s.log <= s'.log
      && (forall i {:trigger s'.log[|s.log| + i]} :: 0 <= i < n ==>
            && 131040 * i < |m.body|
            && s'.log[|s.log| + i] == OutputFrame(m.id, PartFrame(s, m, i)))
      && s'.reservations == s.reservations[m.id := |m.body|] && s'.sent == s.sent + [m]
      && s'.broker == s.broker.(tx := B.Window(s.broker.tx.bytesInFlight + |m.body|, s.broker.tx.pdusInFlight + 1))
  {
    hide Core, SendPdu, E.Indexed, Pieces, PieceFrame, FragmentOk, B.ReserveSend, PartFrame, Low;
    OwnFields(s);
    CoreConfigured(s);
    SendOutcomes(s, m);
    B.ReservationVerdict(s.broker, |m.body|);
    var n := |Cuts(s, m)|;
    CutsCount(s, m);
    forall i | 0 <= i < n
      ensures 131040 * i < |m.body|
      ensures PieceEvent(s.hello.sessionToken, s.nextTx + i, Cuts(s, m)[i]) == OutputFrame(m.id, PartFrame(s, m, i))
    {
      PartSaid(s, m, i);
    }
  }
}
