/** The authenticated HELLO and the flow-control windows agreed through it. */
module Broker {
  import opened Base
  import opened Endian

  const MAGIC: u32 := 0x4253_5552
  const PROTOCOL_VERSION: u16 := 1
  const HELLO_SIZE: nat := 84
  const MIN_PDU_SIZE: u32 := 49
  const MAX_PDU_SIZE: u32 := 1024 * 1024
  const MAX_INFLIGHT: u32 := 4096
  const MAX_WINDOW_BYTES: u64 := 16 * 1024 * 1024

  type Uuid = s: bytes | |s| == 16 witness Zeros(16)

  datatype Hello = Hello(
    clientUuid: Uuid,
    streamGeneration: u64,
    sessionToken: u64,
    attachmentToken: u64,
    leaseToken: u64,
    capabilityNonce: Uuid,
    maxPdu: u32,
    maxInflight: u32,
    isochronous: bool)

  predicate HelloOk(h: Hello) {
    && !AllZero(h.clientUuid)
    && h.streamGeneration != 0
    && h.sessionToken != 0
    && h.attachmentToken != 0
    && h.leaseToken != 0
    && !AllZero(h.capabilityNonce)
    && MIN_PDU_SIZE <= h.maxPdu <= MAX_PDU_SIZE
    && 1 <= h.maxInflight <= MAX_INFLIGHT
    && !h.isochronous
  }

  function PutHello(h: Hello): (s: bytes)
    ensures |s| == HELLO_SIZE
  {
    PutU32Le(MAGIC) + PutU16Le(PROTOCOL_VERSION) + PutU16Le(HELLO_SIZE)
    + h.clientUuid + PutU64Le(h.streamGeneration) + PutU64Le(h.sessionToken)
    + PutU64Le(h.attachmentToken) + PutU64Le(h.leaseToken) + h.capabilityNonce
    + PutU32Le(h.maxPdu) + PutU32Le(h.maxInflight) + [if h.isochronous then 1 else 0] + [0, 0, 0]
  }

  function EncodeHello(h: Hello): Result<bytes> {
    if HelloOk(h) then Ok(PutHello(h)) else Err(Malformed)
  }

  function DecodeHello(wire: bytes): Result<Hello> {
    if |wire| != HELLO_SIZE then Err(Malformed)
    else if GetU32Le(wire[0..4]) != MAGIC then Err(BadMagic)
    else if GetU16Le(wire[4..6]) != PROTOCOL_VERSION then Err(VersionMismatch)
    else if GetU16Le(wire[6..8]) != HELLO_SIZE || !AllZero(wire[81..84]) then Err(Malformed)
    else
      var h := Hello(wire[8..24], GetU64Le(wire[24..32]), GetU64Le(wire[32..40]), GetU64Le(wire[40..48]),
                     GetU64Le(wire[48..56]), wire[56..72], GetU32Le(wire[72..76]), GetU32Le(wire[76..80]),
                     wire[80] != 0);
      if HelloOk(h) then Ok(h) else Err(Malformed)
  }

  lemma HelloFields(h: Hello)
    ensures var w := PutHello(h);
      && GetU32Le(w[0..4]) == MAGIC
      && GetU16Le(w[4..6]) == PROTOCOL_VERSION
      && GetU16Le(w[6..8]) == HELLO_SIZE
      && w[8..24] == h.clientUuid
      && GetU64Le(w[24..32]) == h.streamGeneration
      && GetU64Le(w[32..40]) == h.sessionToken
      && GetU64Le(w[40..48]) == h.attachmentToken
      && GetU64Le(w[48..56]) == h.leaseToken
      && w[56..72] == h.capabilityNonce
      && GetU32Le(w[72..76]) == h.maxPdu
      && GetU32Le(w[76..80]) == h.maxInflight
      && w[80] == (if h.isochronous then 1 else 0)
      && AllZero(w[81..84])
  {
    hide PutU16Le, GetU16Le, PutU32Le, GetU32Le, PutU64Le, GetU64Le;
    var w := PutHello(h);
    assert w[0..4] == PutU32Le(MAGIC);
    assert w[4..6] == PutU16Le(PROTOCOL_VERSION);
    assert w[6..8] == PutU16Le(HELLO_SIZE);
    assert w[24..32] == PutU64Le(h.streamGeneration);
    assert w[32..40] == PutU64Le(h.sessionToken);
    assert w[40..48] == PutU64Le(h.attachmentToken);
    assert w[48..56] == PutU64Le(h.leaseToken);
    assert w[72..76] == PutU32Le(h.maxPdu);
    assert w[76..80] == PutU32Le(h.maxInflight);
    U32Le(MAGIC);
    U16Le(PROTOCOL_VERSION);
    U16Le(HELLO_SIZE);
    U64Le(h.streamGeneration);
    U64Le(h.sessionToken);
    U64Le(h.attachmentToken);
    U64Le(h.leaseToken);
    U32Le(h.maxPdu);
    U32Le(h.maxInflight);
  }

  lemma HelloRoundTrip(h: Hello)
    requires HelloOk(h)
    ensures DecodeHello(PutHello(h)) == Ok(h)
  {
    hide PutU16Le, GetU16Le, PutU32Le, GetU32Le, PutU64Le, GetU64Le;
    HelloFields(h);
  }

  // The last byte before the reserved ones is the only freedom an accepted HELLO has,
  // and a valid one has it zero.
  lemma HelloReencode(wire: bytes)
    requires DecodeHello(wire).Ok?
    ensures EncodeHello(DecodeHello(wire).value) == Ok(wire)
  {
    hide PutU16Le, GetU16Le, PutU32Le, GetU32Le, PutU64Le, GetU64Le;
    U32LeBytes(wire[0..4]);
    U16LeBytes(wire[4..6]);
    U16LeBytes(wire[6..8]);
    U64LeBytes(wire[24..32]);
    U64LeBytes(wire[32..40]);
    U64LeBytes(wire[40..48]);
    U64LeBytes(wire[48..56]);
    U32LeBytes(wire[72..76]);
    U32LeBytes(wire[76..80]);
    assert wire[..4] == wire[0..4];
    Cut(wire, 4, 6);
    Cut(wire, 6, 8);
    Cut(wire, 8, 24);
    Cut(wire, 24, 32);
    Cut(wire, 32, 40);
    Cut(wire, 40, 48);
    Cut(wire, 48, 56);
    Cut(wire, 56, 72);
    Cut(wire, 72, 76);
    Cut(wire, 76, 80);
    Cut(wire, 80, 81);
    Cut(wire, 81, 84);
    assert wire[80..81] == [0];
    assert wire[81..84] == [0, 0, 0];
    assert wire == wire[..84];
  }

  // ------------------------------------------------------------------ windows

  datatype BrokerState = New | HelloSent | Established | Closed | Failed

  // Bytes and messages of one direction that are out and not yet acknowledged.
  datatype Window = Window(bytesInFlight: u64, pdusInFlight: u32)

  datatype Broker = Broker(
    expected: Hello,
    state: BrokerState,
    nonceConsumed: bool,
    maxPdu: u32,
    maxInflight: u32,
    txWindowBytes: u64,
    txWindowPdus: u32,
    rxWindowBytes: u64,
    rxWindowPdus: u32,
    tx: Window,
    rx: Window)

  const NOTHING := Window(0, 0)

  function Default(value: nat, default: nat): nat {
    if value == 0 then default else value
  }

  function NewBroker(expected: Hello, txBytes: u64, txPdus: u32, rxBytes: u64, rxPdus: u32): Result<Broker> {
    if !HelloOk(expected) then Err(Malformed)
    else
      var tb, tp := Default(txBytes, MAX_WINDOW_BYTES), Default(txPdus, MAX_INFLIGHT);
      var rb, rp := Default(rxBytes, MAX_WINDOW_BYTES), Default(rxPdus, MAX_INFLIGHT);
      if tb > MAX_WINDOW_BYTES || rb > MAX_WINDOW_BYTES || tp > MAX_INFLIGHT || rp > MAX_INFLIGHT
      then Err(InvalidArgument)
      else Ok(Broker(expected, New, false, expected.maxPdu, expected.maxInflight, tb, tp, rb, rp, NOTHING, NOTHING))
  }

  function MarkHelloSent(b: Broker): (Broker, Result<()>) {
    if b.state != New then (b, Err(InvalidState)) else (b.(state := HelloSent), Ok(()))
  }

  predicate SameIdentity(a: Hello, b: Hello) {
    && a.clientUuid == b.clientUuid
    && a.streamGeneration == b.streamGeneration
    && a.sessionToken == b.sessionToken
    && a.attachmentToken == b.attachmentToken
    && a.leaseToken == b.leaseToken
    && a.capabilityNonce == b.capabilityNonce
    && a.isochronous == b.isochronous
  }

  function AcceptHello(b: Broker, wire: bytes): (Broker, Result<()>) {
    if b.nonceConsumed then (b, Err(Duplicate))
    else if b.state != New && b.state != HelloSent then (b, Err(InvalidState))
    else
      var decoded := DecodeHello(wire);
      if decoded.Err? then (b.(state := Failed), Err(decoded.error))
      else
        var peer := decoded.value;
        if !SameIdentity(peer, b.expected) then (b.(state := Failed), Err(TokenMismatch))
        else if peer.maxPdu > b.expected.maxPdu || peer.maxInflight > b.expected.maxInflight
        then (b.(state := Failed), Err(LimitExceeded))
        else (b.(maxPdu := Min(b.expected.maxPdu, peer.maxPdu),
                 maxInflight := Min(b.expected.maxInflight, peer.maxInflight),
                 nonceConsumed := true,
                 state := Established), Ok(()))
  }

  function Reserve(state: BrokerState, bytes: nat, w: Window, windowBytes: u64, windowPdus: u32,
                   maxPdu: u32, maxInflight: u32): Result<Window>
  {
    if state != Established then Err(InvalidState)
    else if bytes == 0 then Err(InvalidArgument)
    else if bytes > maxPdu || w.pdusInFlight >= maxInflight then Err(LimitExceeded)
    else
      var room: int := windowBytes - w.bytesInFlight;
      if bytes > (if room < 0 then 0 else room) || w.pdusInFlight >= windowPdus then Err(WindowExhausted)
      else Ok(Window(w.bytesInFlight + bytes, w.pdusInFlight + 1))
  }

  function Consume(state: BrokerState, bytes: nat, w: Window): Result<Window> {
    if state != Established then Err(InvalidState)
    else if bytes == 0 || bytes > w.bytesInFlight || w.pdusInFlight == 0 then Err(InvalidArgument)
    else Ok(Window(w.bytesInFlight - bytes, w.pdusInFlight - 1))
  }

  function WithTx(b: Broker, r: Result<Window>): (Broker, Result<()>) {
    if r.Ok? then (b.(tx := r.value), Ok(())) else (b, Err(r.error))
  }

  function WithRx(b: Broker, r: Result<Window>): (Broker, Result<()>) {
    if r.Ok? then (b.(rx := r.value), Ok(())) else (b, Err(r.error))
  }

  function ReserveSend(b: Broker, bytes: nat): (Broker, Result<()>) {
    WithTx(b, Reserve(b.state, bytes, b.tx, b.txWindowBytes, b.txWindowPdus, b.maxPdu, b.maxInflight))
  }

  function AckSend(b: Broker, bytes: nat): (Broker, Result<()>) {
    WithTx(b, Consume(b.state, bytes, b.tx))
  }

  function ReserveReceive(b: Broker, bytes: nat): (Broker, Result<()>) {
    WithRx(b, Reserve(b.state, bytes, b.rx, b.rxWindowBytes, b.rxWindowPdus, b.maxPdu, b.maxInflight))
  }

  function ConsumeReceive(b: Broker, bytes: nat): (Broker, Result<()>) {
    WithRx(b, Consume(b.state, bytes, b.rx))
  }

  function CloseBroker(b: Broker): (Broker, Result<()>) {
    if b.state == Failed then (b, Err(InvalidState))
    else (b.(tx := NOTHING, rx := NOTHING, state := Closed), Ok(()))
  }

  /** An acknowledgement undoes the reservation it answers, exactly. */
  lemma AckUndoesReserve(b: Broker, bytes: nat)
    requires ReserveSend(b, bytes).1.Ok?
    ensures AckSend(ReserveSend(b, bytes).0, bytes) == (b, Ok(()))
  {
  }

  /**
   When a reservation is refused: the message can never go, or as many messages
   as negotiated are out, or the window is full for now. Only the last is reported
   as an exhausted window.
   */
  lemma WhyRefused(b: Broker, bytes: nat)
    requires b.state == Established && bytes > 0
    ensures ReserveSend(b, bytes).1 == Err(LimitExceeded)
       <==> bytes > b.maxPdu || b.tx.pdusInFlight >= b.maxInflight
    ensures ReserveSend(b, bytes).1 == Err(WindowExhausted)
       <==> bytes <= b.maxPdu && b.tx.pdusInFlight < b.maxInflight
            && (b.tx.bytesInFlight + bytes > b.txWindowBytes || b.tx.pdusInFlight >= b.txWindowPdus)
    ensures ReserveSend(b, bytes).1.Err? ==> ReserveSend(b, bytes).0 == b
  {
  }

  /** What a reservation answers, in either direction, and that it takes exactly its share of its own window. */
  lemma ReservationVerdict(b: Broker, bytes: nat)
    ensures ReserveSend(b, bytes) ==
      if b.state != Established then (b, Err(InvalidState))
      else if bytes == 0 then (b, Err(InvalidArgument))
      else if bytes > b.maxPdu || b.tx.pdusInFlight >= b.maxInflight then (b, Err(LimitExceeded))
      else if b.tx.bytesInFlight + bytes > b.txWindowBytes || b.tx.pdusInFlight >= b.txWindowPdus
      then (b, Err(WindowExhausted))
      else (b.(tx := Window(b.tx.bytesInFlight + bytes, b.tx.pdusInFlight + 1)), Ok(()))
    ensures ReserveReceive(b, bytes) ==
      if b.state != Established then (b, Err(InvalidState))
      else if bytes == 0 then (b, Err(InvalidArgument))
      else if bytes > b.maxPdu || b.rx.pdusInFlight >= b.maxInflight then (b, Err(LimitExceeded))
      else if b.rx.bytesInFlight + bytes > b.rxWindowBytes || b.rx.pdusInFlight >= b.rxWindowPdus
      then (b, Err(WindowExhausted))
      else (b.(rx := Window(b.rx.bytesInFlight + bytes, b.rx.pdusInFlight + 1)), Ok(()))
  {
  }

  /** What giving a share back answers, in either direction, and that it leaves the other window alone. */
  lemma ReturnVerdict(b: Broker, bytes: nat)
    ensures AckSend(b, bytes) ==
      if b.state != Established then (b, Err(InvalidState))
      else if bytes == 0 || bytes > b.tx.bytesInFlight || b.tx.pdusInFlight == 0 then (b, Err(InvalidArgument))
      else (b.(tx := Window(b.tx.bytesInFlight - bytes, b.tx.pdusInFlight - 1)), Ok(()))
    ensures ConsumeReceive(b, bytes) ==
      if b.state != Established then (b, Err(InvalidState))
      else if bytes == 0 || bytes > b.rx.bytesInFlight || b.rx.pdusInFlight == 0 then (b, Err(InvalidArgument))
      else (b.(rx := Window(b.rx.bytesInFlight - bytes, b.rx.pdusInFlight - 1)), Ok(()))
  {
  }

  // A window as configured: zero stands for the largest there is.
  function Configured(value: nat, largest: nat): nat {
    if value > 0 then value else largest
  }

  /** Which brokers can be made, with each of the four windows in its place. */
  lemma BrokerMade(h: Hello, txBytes: u64, txPdus: u32, rxBytes: u64, rxPdus: u32)
    ensures NewBroker(h, txBytes, txPdus, rxBytes, rxPdus) ==
      if !HelloOk(h) then Err(Malformed)
      else if txBytes > 16777216 || rxBytes > 16777216 || txPdus > 4096 || rxPdus > 4096 then Err(InvalidArgument)
      else Ok(Broker(h, New, false, h.maxPdu, h.maxInflight, Configured(txBytes, 16777216), Configured(txPdus, 4096),
                     Configured(rxBytes, 16777216), Configured(rxPdus, 4096), Window(0, 0), Window(0, 0)))
  {
  }

  /**
   What a broker makes of any bytes as the peer's HELLO. One it has taken already is
   a duplicate; any refusal while it waits leaves it failed.
   */
  lemma HelloJudged(b: Broker, wire: bytes)
    ensures var (b', r) := AcceptHello(b, wire);
      if b.nonceConsumed then b' == b && r == Err(Duplicate)
      else if b.state == Established || b.state == Closed || b.state == Failed then b' == b && r == Err(InvalidState)
      else match DecodeHello(wire)
        case Err(error) => b' == b.(state := Failed) && r == Err(error)
        case Ok(peer) =>
          if peer.clientUuid != b.expected.clientUuid || peer.streamGeneration != b.expected.streamGeneration
             || peer.sessionToken != b.expected.sessionToken || peer.attachmentToken != b.expected.attachmentToken
             || peer.leaseToken != b.expected.leaseToken || peer.capabilityNonce != b.expected.capabilityNonce
             || peer.isochronous != b.expected.isochronous
          then b' == b.(state := Failed) && r == Err(TokenMismatch)
          else if peer.maxPdu > b.expected.maxPdu || peer.maxInflight > b.expected.maxInflight
          then b' == b.(state := Failed) && r == Err(LimitExceeded)
          else
            && r == Ok(())
            && b' == b.(state := Established, nonceConsumed := true, maxPdu := peer.maxPdu,
                        maxInflight := peer.maxInflight)
  {
    hide DecodeHello;
  }

  /** HELLO is said once, before anything else; closing empties both windows, unless the broker has failed. */
  lemma BrokerStates(b: Broker)
    ensures MarkHelloSent(b) == if b.state == New then (b.(state := HelloSent), Ok(())) else (b, Err(InvalidState))
    ensures CloseBroker(b) ==
      if b.state == Failed then (b, Err(InvalidState))
      else (b.(state := Closed, tx := Window(0, 0), rx := Window(0, 0)), Ok(()))
  {
  }

  // Ready to be handed the peer's HELLO.
  predicate Awaiting(b: Broker) {
    (b.state == New || b.state == HelloSent) && !b.nonceConsumed && HelloOk(b.expected)
  }

  /** What a broker answers to a valid HELLO: a peer that asks for more than this side allows is refused. */
  lemma HelloVerdict(b: Broker, peer: Hello)
    requires Awaiting(b) && HelloOk(peer)
    ensures var (b', r) := AcceptHello(b, PutHello(peer));
      && r == (if !SameIdentity(peer, b.expected) then Err(TokenMismatch)
               else if peer.maxPdu > b.expected.maxPdu || peer.maxInflight > b.expected.maxInflight
               then Err(LimitExceeded) else Ok(()))
      && (r.Ok? ==> b'.state == Established && b'.maxPdu == peer.maxPdu && b'.maxInflight == peer.maxInflight)
      && (r.Err? ==> b'.state == Failed)
  {
    hide PutHello, DecodeHello, SameIdentity, HelloOk;
    HelloRoundTrip(peer);
  }

  /**
   Two brokers handed each other's HELLO both establish exactly when they name the
   same session and the same limits, and then under the limits both asked for. Each
   side refuses a larger value than its own, so with different limits one side fails.
   */
  lemma HelloAgreement(a: Broker, b: Broker)
    requires Awaiting(a) && Awaiting(b)
    ensures var (a', ra) := AcceptHello(a, PutHello(b.expected));
      var (b', rb) := AcceptHello(b, PutHello(a.expected));
      && (ra.Ok? && rb.Ok? <==> a.expected == b.expected)
      && (ra.Ok? && rb.Ok? ==>
            && a'.state == Established && b'.state == Established
            && a'.maxPdu == a.expected.maxPdu == b'.maxPdu
            && a'.maxInflight == a.expected.maxInflight == b'.maxInflight)
      && (ra.Err? || rb.Err? ==> a'.state == Failed || b'.state == Failed)
  {
    hide PutHello, DecodeHello;
    HelloVerdict(a, b.expected);
    HelloVerdict(b, a.expected);
  }

  // ------------------------------------------------------------------ objects

  class BrokerSession {
    const expected: Hello
    var state: BrokerState
    var nonceConsumed: bool
    var maxPdu: u32
    var maxInflight: u32
    const txWindowBytes: u64
    const txWindowPdus: u32
    const rxWindowBytes: u64
    const rxWindowPdus: u32
    var txBytesInFlight: u64
    var txPdusInFlight: u32
    var rxBytesInFlight: u64
    var rxPdusInFlight: u32

    function Model(): Broker
      reads this
    {
      Broker(expected, state, nonceConsumed, maxPdu, maxInflight,
             txWindowBytes, txWindowPdus, rxWindowBytes, rxWindowPdus,
             Window(txBytesInFlight, txPdusInFlight), Window(rxBytesInFlight, rxPdusInFlight))
    }

    constructor (b: Broker)
      ensures Model() == b
    {
      expected, state, nonceConsumed, maxPdu, maxInflight := b.expected, b.state, b.nonceConsumed, b.maxPdu,
          b.maxInflight;
      txWindowBytes, txWindowPdus := b.txWindowBytes, b.txWindowPdus;
      rxWindowBytes, rxWindowPdus := b.rxWindowBytes, b.rxWindowPdus;
      txBytesInFlight, txPdusInFlight := b.tx.bytesInFlight, b.tx.pdusInFlight;
      rxBytesInFlight, rxPdusInFlight := b.rx.bytesInFlight, b.rx.pdusInFlight;
    }

    method HelloWasSent() returns (r: Result<()>)
      modifies this
      ensures (Model(), r) == MarkHelloSent(old(Model()))
    {
      if state != New {
        return Err(InvalidState);
      }
      state := HelloSent;
      return Ok(());
    }

    method Negotiate(wire: bytes) returns (r: Result<()>)
      modifies this
      ensures (Model(), r) == AcceptHello(old(Model()), wire)
    {
      if nonceConsumed {
        return Err(Duplicate);
      }
      if state != New && state != HelloSent {
        return Err(InvalidState);
      }
      var decoded := DecodeHello(wire);
      if decoded.Err? {
        state := Failed;
        return Err(decoded.error);
      }
      var peer := decoded.value;
      if !SameIdentity(peer, expected) {
        state := Failed;
        return Err(TokenMismatch);
      }
      if peer.maxPdu > expected.maxPdu || peer.maxInflight > expected.maxInflight {
        state := Failed;
        return Err(LimitExceeded);
      }
      maxPdu := Min(expected.maxPdu, peer.maxPdu);
      maxInflight := Min(expected.maxInflight, peer.maxInflight);
      nonceConsumed := true;
      state := Established;
      return Ok(());
    }

    method TakeSend(bytes: nat) returns (r: Result<()>)
      modifies this
      ensures (Model(), r) == ReserveSend(old(Model()), bytes)
    {
      var w := Reserve(state, bytes, Window(txBytesInFlight, txPdusInFlight), txWindowBytes, txWindowPdus, maxPdu,
          maxInflight);
      if w.Err? {
        return Err(w.error);
      }
      txBytesInFlight, txPdusInFlight := w.value.bytesInFlight, w.value.pdusInFlight;
      return Ok(());
    }

    method ReturnSend(bytes: nat) returns (r: Result<()>)
      modifies this
      ensures (Model(), r) == AckSend(old(Model()), bytes)
    {
      var w := Consume(state, bytes, Window(txBytesInFlight, txPdusInFlight));
      if w.Err? {
        return Err(w.error);
      }
      txBytesInFlight, txPdusInFlight := w.value.bytesInFlight, w.value.pdusInFlight;
      return Ok(());
    }

    method TakeReceive(bytes: nat) returns (r: Result<()>)
      modifies this
      ensures (Model(), r) == ReserveReceive(old(Model()), bytes)
    {
      var w := Reserve(state, bytes, Window(rxBytesInFlight, rxPdusInFlight), rxWindowBytes, rxWindowPdus, maxPdu,
          maxInflight);
      if w.Err? {
        return Err(w.error);
      }
      rxBytesInFlight, rxPdusInFlight := w.value.bytesInFlight, w.value.pdusInFlight;
      return Ok(());
    }

    method ReturnReceive(bytes: nat) returns (r: Result<()>)
      modifies this
      ensures (Model(), r) == ConsumeReceive(old(Model()), bytes)
    {
      var w := Consume(state, bytes, Window(rxBytesInFlight, rxPdusInFlight));
      if w.Err? {
        return Err(w.error);
      }
      rxBytesInFlight, rxPdusInFlight := w.value.bytesInFlight, w.value.pdusInFlight;
      return Ok(());
    }

    method Close() returns (r: Result<()>)
      modifies this
      ensures (Model(), r) == CloseBroker(old(Model()))
    {
      if state == Failed {
        return Err(InvalidState);
      }
      txBytesInFlight, txPdusInFlight, rxBytesInFlight, rxPdusInFlight := 0, 0, 0, 0;
      state := Closed;
      return Ok(());
    }
  }
}
