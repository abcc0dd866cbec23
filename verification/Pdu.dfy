/**
 The 48-byte USB/IP transfer messages: CMD_SUBMIT, CMD_UNLINK, RET_SUBMIT and
 RET_UNLINK, in network byte order.
 */
module Pdu {
  import opened Base
  import opened Endian

  const HEADER_SIZE: nat := 48
  const MAX_SIZE: nat := 1024 * 1024
  const MAX_TRANSFER_SIZE: nat := MAX_SIZE - HEADER_SIZE
  const NON_ISO_PACKETS: i32 := -1

  const CMD_SUBMIT: u32 := 1
  const CMD_UNLINK: u32 := 2
  const RET_SUBMIT: u32 := 3
  const RET_UNLINK: u32 := 4

  type Setup = s: bytes | |s| == 8 witness [0, 0, 0, 0, 0, 0, 0, 0]

  datatype Direction = Out | In

  datatype SubmitRequest = SubmitRequest(
    seqnum: u32,
    deviceId: u32,
    direction: Direction,
    endpoint: u32,
    transferFlags: u32,
    transferBufferLength: u32,
    startFrame: i32,
    interval: i32,
    setup: Setup,
    data: bytes)

  datatype UnlinkRequest = UnlinkRequest(
    seqnum: u32,
    deviceId: u32,
    direction: Direction,
    endpoint: u32,
    targetSeqnum: u32)

  datatype Request = Submit(submit: SubmitRequest) | Unlink(unlink: UnlinkRequest)

  datatype SubmitReply = SubmitReply(
    seqnum: u32,
    direction: Direction,
    status: i32,
    actualLength: u32,
    startFrame: i32,
    errorCount: i32,
    data: bytes)

  datatype UnlinkReply = UnlinkReply(seqnum: u32, status: i32)

  datatype Reply = SubmitRet(submit: SubmitReply) | UnlinkRet(unlink: UnlinkReply)

  function DirectionCode(d: Direction): u32 {
    if d.Out? then 0 else 1
  }

  function DirectionOf(code: u32): Result<Direction> {
    if code == 0 then Ok(Out) else if code == 1 then Ok(In) else Err(Malformed)
  }

  predicate CommonOk(seqnum: u32, endpoint: u32) {
    seqnum != 0 && endpoint <= 15
  }

  // ---------------------------------------------------------------- requests

  function PutCommon(command: u32, seqnum: u32, deviceId: u32, direction: Direction, endpoint: u32): (s: bytes)
    ensures |s| == 20
  {
    PutU32Be(command) + PutU32Be(seqnum) + PutU32Be(deviceId)
    + PutU32Be(DirectionCode(direction)) + PutU32Be(endpoint)
  }

  function PutSubmit(r: SubmitRequest): (s: bytes)
    ensures |s| == HEADER_SIZE + |r.data|
  {
    PutCommon(CMD_SUBMIT, r.seqnum, r.deviceId, r.direction, r.endpoint)
    + PutU32Be(r.transferFlags) + PutU32Be(r.transferBufferLength) + PutI32Be(r.startFrame)
    + PutI32Be(NON_ISO_PACKETS) + PutI32Be(r.interval) + r.setup + r.data
  }

  function PutUnlink(r: UnlinkRequest): (s: bytes)
    ensures |s| == HEADER_SIZE
  {
    PutCommon(CMD_UNLINK, r.seqnum, r.deviceId, r.direction, r.endpoint)
    + PutU32Be(r.targetSeqnum) + Zeros(24)
  }

  // The bytes a SUBMIT carries after its header.
  function SubmitDataLength(direction: Direction, transferBufferLength: u32): nat {
    if direction.Out? then transferBufferLength else 0
  }

  function EncodeSubmit(r: SubmitRequest): Result<bytes> {
    if !CommonOk(r.seqnum, r.endpoint) then Err(Malformed)
    else if r.transferBufferLength > MAX_TRANSFER_SIZE
         || |r.data| != SubmitDataLength(r.direction, r.transferBufferLength) then Err(Malformed)
    else Ok(PutSubmit(r))
  }

  function EncodeUnlink(r: UnlinkRequest): Result<bytes> {
    if !CommonOk(r.seqnum, r.endpoint) then Err(Malformed)
    else if r.targetSeqnum == 0 then Err(Malformed)
    else Ok(PutUnlink(r))
  }

  function EncodeRequest(r: Request): Result<bytes> {
    match r
    case Submit(s) => EncodeSubmit(s)
    case Unlink(u) => EncodeUnlink(u)
  }

  function DecodeSubmit(wire: bytes): Result<SubmitRequest>
    requires |wire| >= HEADER_SIZE
  {
    var seqnum := GetU32Be(wire[4..8]);
    var direction :- DirectionOf(GetU32Be(wire[12..16]));
    var endpoint := GetU32Be(wire[16..20]);
    if !CommonOk(seqnum, endpoint) then Err(Malformed)
    else
      var length := GetI32Be(wire[24..28]);
      var packets := GetI32Be(wire[32..36]);
      if length < 0 || (packets != NON_ISO_PACKETS && packets != 0) then Err(Malformed)
      else if length > MAX_TRANSFER_SIZE then Err(LimitExceeded)
      else if |wire| != HEADER_SIZE + SubmitDataLength(direction, length) then Err(Malformed)
      else Ok(SubmitRequest(seqnum, GetU32Be(wire[8..12]), direction, endpoint,
                            GetU32Be(wire[20..24]), length, GetI32Be(wire[28..32]),
                            GetI32Be(wire[36..40]), wire[40..48], wire[48..]))
  }

  function DecodeUnlink(wire: bytes): Result<UnlinkRequest>
    requires |wire| >= HEADER_SIZE
  {
    if |wire| != HEADER_SIZE || !AllZero(wire[24..48]) then Err(Malformed)
    else
      var direction :- DirectionOf(GetU32Be(wire[12..16]));
      var r := UnlinkRequest(GetU32Be(wire[4..8]), GetU32Be(wire[8..12]), direction,
                             GetU32Be(wire[16..20]), GetU32Be(wire[20..24]));
      if !CommonOk(r.seqnum, r.endpoint) then Err(Malformed)
      else if r.targetSeqnum == 0 then Err(Malformed)
      else Ok(r)
  }

  function DecodeRequest(wire: bytes): Result<Request> {
    if |wire| < HEADER_SIZE then Err(Malformed)
    else if |wire| > MAX_SIZE then Err(LimitExceeded)
    else
      var command := GetU32Be(wire[0..4]);
      if command == CMD_SUBMIT then
        var r :- DecodeSubmit(wire);
        Ok(Submit(r))
      else if command == CMD_UNLINK then
        var r :- DecodeUnlink(wire);
        Ok(Unlink(r))
      else Err(Unsupported)
  }

  // ----------------------------------------------------------------- replies

  function PutSubmitReply(r: SubmitReply): (s: bytes)
    ensures |s| == HEADER_SIZE + |r.data|
  {
    PutU32Be(RET_SUBMIT) + PutU32Be(r.seqnum) + Zeros(12) + PutI32Be(r.status)
    + PutU32Be(r.actualLength) + PutI32Be(r.startFrame) + PutI32Be(NON_ISO_PACKETS)
    + PutI32Be(r.errorCount) + Zeros(8) + r.data
  }

  function PutUnlinkReply(r: UnlinkReply): (s: bytes)
    ensures |s| == HEADER_SIZE
  {
    PutU32Be(RET_UNLINK) + PutU32Be(r.seqnum) + Zeros(12) + PutI32Be(r.status) + Zeros(24)
  }

  function EncodeSubmitReply(r: SubmitReply): Result<bytes> {
    if r.seqnum == 0
       || r.actualLength > MAX_TRANSFER_SIZE
       || |r.data| != (if r.direction.In? then r.actualLength else 0) then Err(Malformed)
    else Ok(PutSubmitReply(r))
  }

  function EncodeUnlinkReply(r: UnlinkReply): Result<bytes> {
    if r.seqnum == 0 then Err(Malformed) else Ok(PutUnlinkReply(r))
  }

  function EncodeReply(r: Reply): Result<bytes> {
    match r
    case SubmitRet(s) => EncodeSubmitReply(s)
    case UnlinkRet(u) => EncodeUnlinkReply(u)
  }

  function DecodeSubmitReply(wire: bytes): Result<SubmitReply>
    requires |wire| >= HEADER_SIZE
  {
    if !AllZero(wire[8..20]) || !AllZero(wire[40..48]) then Err(Malformed)
    else
      var seqnum := GetU32Be(wire[4..8]);
      var actual := GetI32Be(wire[24..28]);
      var packets := GetI32Be(wire[32..36]);
      if seqnum == 0 || actual < 0 || (packets != NON_ISO_PACKETS && packets != 0) then Err(Malformed)
      else
        var direction :-
          if |wire| == HEADER_SIZE + actual then Ok(In)
          else if |wire| == HEADER_SIZE then Ok(Out)
          else Err(Malformed);
        Ok(SubmitReply(seqnum, direction, GetI32Be(wire[20..24]), actual,
                       GetI32Be(wire[28..32]), GetI32Be(wire[36..40]), wire[48..]))
  }

  function DecodeUnlinkReply(wire: bytes): Result<UnlinkReply>
    requires |wire| >= HEADER_SIZE
  {
    if |wire| != HEADER_SIZE || !AllZero(wire[8..20]) || !AllZero(wire[24..48]) then Err(Malformed)
    else
      var seqnum := GetU32Be(wire[4..8]);
      if seqnum == 0 then Err(Malformed) else Ok(UnlinkReply(seqnum, GetI32Be(wire[20..24])))
  }

  function DecodeReply(wire: bytes): Result<Reply> {
    if |wire| < HEADER_SIZE || |wire| > MAX_SIZE then Err(Malformed)
    else
      var command := GetU32Be(wire[0..4]);
      if command == RET_SUBMIT then
        var r :- DecodeSubmitReply(wire);
        Ok(SubmitRet(r))
      else if command == RET_UNLINK then
        var r :- DecodeUnlinkReply(wire);
        Ok(UnlinkRet(r))
      else Err(Unsupported)
  }

  // --------------------------------------------------------------- the fields

  lemma CommonFields(command: u32, seqnum: u32, deviceId: u32, direction: Direction, endpoint: u32, rest: bytes)
    ensures var w := PutCommon(command, seqnum, deviceId, direction, endpoint) + rest;
      && GetU32Be(w[0..4]) == command
      && GetU32Be(w[4..8]) == seqnum
      && GetU32Be(w[8..12]) == deviceId
      && GetU32Be(w[12..16]) == DirectionCode(direction)
      && GetU32Be(w[16..20]) == endpoint
      && w[20..] == rest
  {
    hide PutU16Be, GetU16Be, PutU32Be, GetU32Be, PutI32Be, GetI32Be;
    var w := PutCommon(command, seqnum, deviceId, direction, endpoint) + rest;
    assert w[0..4] == PutU32Be(command);
    assert w[4..8] == PutU32Be(seqnum);
    assert w[8..12] == PutU32Be(deviceId);
    assert w[12..16] == PutU32Be(DirectionCode(direction));
    assert w[16..20] == PutU32Be(endpoint);
    U32Be(command);
    U32Be(seqnum);
    U32Be(deviceId);
    U32Be(DirectionCode(direction));
    U32Be(endpoint);
  }

  lemma SubmitFields(r: SubmitRequest)
    ensures var w := PutSubmit(r);
      && GetU32Be(w[0..4]) == CMD_SUBMIT
      && GetU32Be(w[4..8]) == r.seqnum
      && GetU32Be(w[8..12]) == r.deviceId
      && GetU32Be(w[12..16]) == DirectionCode(r.direction)
      && GetU32Be(w[16..20]) == r.endpoint
      && GetU32Be(w[20..24]) == r.transferFlags
      && GetU32Be(w[24..28]) == r.transferBufferLength
      && GetI32Be(w[28..32]) == r.startFrame
      && GetI32Be(w[32..36]) == NON_ISO_PACKETS
      && GetI32Be(w[36..40]) == r.interval
      && w[40..48] == r.setup
      && w[48..] == r.data
  {
    hide PutU16Be, GetU16Be, PutU32Be, GetU32Be, PutI32Be, GetI32Be;
    var w := PutSubmit(r);
    var rest := PutU32Be(r.transferFlags) + PutU32Be(r.transferBufferLength) + PutI32Be(r.startFrame)
      + PutI32Be(NON_ISO_PACKETS) + PutI32Be(r.interval) + r.setup + r.data;
    assert w == PutCommon(CMD_SUBMIT, r.seqnum, r.deviceId, r.direction, r.endpoint) + rest;
    CommonFields(CMD_SUBMIT, r.seqnum, r.deviceId, r.direction, r.endpoint, rest);
    assert w[20..24] == PutU32Be(r.transferFlags);
    assert w[24..28] == PutU32Be(r.transferBufferLength);
    assert w[28..32] == PutI32Be(r.startFrame);
    assert w[32..36] == PutI32Be(NON_ISO_PACKETS);
    assert w[36..40] == PutI32Be(r.interval);
    U32Be(r.transferFlags);
    U32Be(r.transferBufferLength);
    I32Be(r.startFrame);
    I32Be(NON_ISO_PACKETS);
    I32Be(r.interval);
  }

  lemma UnlinkFields(r: UnlinkRequest)
    ensures var w := PutUnlink(r);
      && GetU32Be(w[0..4]) == CMD_UNLINK
      && GetU32Be(w[4..8]) == r.seqnum
      && GetU32Be(w[8..12]) == r.deviceId
      && GetU32Be(w[12..16]) == DirectionCode(r.direction)
      && GetU32Be(w[16..20]) == r.endpoint
      && GetU32Be(w[20..24]) == r.targetSeqnum
      && AllZero(w[24..48])
  {
    hide PutU16Be, GetU16Be, PutU32Be, GetU32Be, PutI32Be, GetI32Be;
    var w := PutUnlink(r);
    var rest := PutU32Be(r.targetSeqnum) + Zeros(24);
    assert w == PutCommon(CMD_UNLINK, r.seqnum, r.deviceId, r.direction, r.endpoint) + rest;
    CommonFields(CMD_UNLINK, r.seqnum, r.deviceId, r.direction, r.endpoint, rest);
    assert w[20..24] == PutU32Be(r.targetSeqnum);
    assert w[24..48] == Zeros(24);
    U32Be(r.targetSeqnum);
  }

  lemma SubmitReplyFields(r: SubmitReply)
    ensures var w := PutSubmitReply(r);
      && GetU32Be(w[0..4]) == RET_SUBMIT
      && GetU32Be(w[4..8]) == r.seqnum
      && AllZero(w[8..20])
      && GetI32Be(w[20..24]) == r.status
      && GetU32Be(w[24..28]) == r.actualLength
      && GetI32Be(w[28..32]) == r.startFrame
      && GetI32Be(w[32..36]) == NON_ISO_PACKETS
      && GetI32Be(w[36..40]) == r.errorCount
      && AllZero(w[40..48])
      && w[48..] == r.data
  {
    hide PutU16Be, GetU16Be, PutU32Be, GetU32Be, PutI32Be, GetI32Be;
    var w := PutSubmitReply(r);
    assert w[0..4] == PutU32Be(RET_SUBMIT);
    assert w[4..8] == PutU32Be(r.seqnum);
    assert w[8..20] == Zeros(12);
    assert w[20..24] == PutI32Be(r.status);
    assert w[24..28] == PutU32Be(r.actualLength);
    assert w[28..32] == PutI32Be(r.startFrame);
    assert w[32..36] == PutI32Be(NON_ISO_PACKETS);
    assert w[36..40] == PutI32Be(r.errorCount);
    assert w[40..48] == Zeros(8);
    U32Be(RET_SUBMIT);
    U32Be(r.seqnum);
    I32Be(r.status);
    U32Be(r.actualLength);
    I32Be(r.startFrame);
    I32Be(NON_ISO_PACKETS);
    I32Be(r.errorCount);
  }

  lemma UnlinkReplyFields(r: UnlinkReply)
    ensures var w := PutUnlinkReply(r);
      && GetU32Be(w[0..4]) == RET_UNLINK
      && GetU32Be(w[4..8]) == r.seqnum
      && AllZero(w[8..20])
      && GetI32Be(w[20..24]) == r.status
      && AllZero(w[24..48])
  {
    hide PutU16Be, GetU16Be, PutU32Be, GetU32Be, PutI32Be, GetI32Be;
    var w := PutUnlinkReply(r);
    assert w[0..4] == PutU32Be(RET_UNLINK);
    assert w[4..8] == PutU32Be(r.seqnum);
    assert w[8..20] == Zeros(12);
    assert w[20..24] == PutI32Be(r.status);
    assert AllZero(w[24..48]);
    U32Be(RET_UNLINK);
    U32Be(r.seqnum);
    I32Be(r.status);
  }

  // -------------------------------------------------------------- round trips

  /** What a peer encodes is what it gets back, for every request that encodes. */
  lemma RequestRoundTrip(r: Request)
    requires EncodeRequest(r).Ok?
    ensures DecodeRequest(EncodeRequest(r).value) == Ok(r)
  {
    hide PutU16Be, GetU16Be, PutU32Be, GetU32Be, PutI32Be, GetI32Be;
    match r
    case Submit(s) =>
      SubmitFields(s);
      SmallSigned(PutSubmit(s)[24..28]);
    case Unlink(u) =>
      UnlinkFields(u);
  }

  // A field below 2^31 reads the same with and without a sign.
  lemma SmallSigned(s: bytes)
    requires |s| == 4
    ensures GetU32Be(s) < 0x8000_0000 ==> GetI32Be(s) == GetU32Be(s)
    ensures GetI32Be(s) >= 0 ==> GetU32Be(s) == GetI32Be(s)
  {
  }

  // The first eight words of a message, one by one.
  lemma Words32(wire: bytes)
    requires |wire| >= 32
    ensures wire[..24] == wire[0..4] + wire[4..8] + wire[8..12] + wire[12..16] + wire[16..20] + wire[20..24]
    ensures wire[..32] == wire[..24] + wire[24..28] + wire[28..32]
  {
    assert wire[..4] == wire[0..4];
    Cut(wire, 4, 8);
    Cut(wire, 8, 12);
    Cut(wire, 12, 16);
    Cut(wire, 16, 20);
    Cut(wire, 20, 24);
    Cut(wire, 24, 28);
    Cut(wire, 28, 32);
  }

  /** Re-encoding a received SUBMIT changes nothing but the packet count, which becomes -1. */
  lemma SubmitReencode(wire: bytes)
    requires DecodeRequest(wire).Ok? && DecodeRequest(wire).value.Submit?
    ensures EncodeRequest(DecodeRequest(wire).value)
         == Ok(wire[..32] + PutI32Be(NON_ISO_PACKETS) + wire[36..])
  {
    hide PutU16Be, GetU16Be, PutU32Be, GetU32Be, PutI32Be, GetI32Be;
    var r := DecodeRequest(wire).value.submit;
    U32BeBytes(wire[0..4]);
    U32BeBytes(wire[4..8]);
    U32BeBytes(wire[8..12]);
    U32BeBytes(wire[12..16]);
    U32BeBytes(wire[16..20]);
    U32BeBytes(wire[20..24]);
    U32BeBytes(wire[24..28]);
    SmallSigned(wire[24..28]);
    I32BeBytes(wire[28..32]);
    I32BeBytes(wire[36..40]);
    Words32(wire);
    assert wire[36..] == wire[36..40] + (wire[40..48] + wire[48..]);
    assert PutSubmit(r) == wire[..32] + PutI32Be(NON_ISO_PACKETS) + wire[36..];
  }

  /** Re-encoding a received UNLINK gives back its bytes. */
  lemma UnlinkReencode(wire: bytes)
    requires DecodeRequest(wire).Ok? && DecodeRequest(wire).value.Unlink?
    ensures EncodeRequest(DecodeRequest(wire).value) == Ok(wire)
  {
    hide PutU16Be, GetU16Be, PutU32Be, GetU32Be, PutI32Be, GetI32Be;
    var r := DecodeRequest(wire).value.unlink;
    U32BeBytes(wire[0..4]);
    U32BeBytes(wire[4..8]);
    U32BeBytes(wire[8..12]);
    U32BeBytes(wire[12..16]);
    U32BeBytes(wire[16..20]);
    U32BeBytes(wire[20..24]);
    AllZeroIsZeros(wire[24..48]);
    Words32(wire);
    assert wire == wire[..24] + wire[24..48];
  }

  // A reply header carries no direction: an empty OUT reply reads as IN.
  function Readable(r: Reply): Reply {
    match r
    case SubmitRet(s) => SubmitRet(if s.actualLength == 0 then s.(direction := In) else s)
    case UnlinkRet(_) => r
  }

  /** A reply comes back as sent, except that an OUT reply of actual length zero reads as IN. */
  lemma ReplyRoundTrip(r: Reply)
    requires EncodeReply(r).Ok?
    ensures DecodeReply(EncodeReply(r).value) == Ok(Readable(r))
  {
    hide PutU16Be, GetU16Be, PutU32Be, GetU32Be, PutI32Be, GetI32Be;
    match r
    case SubmitRet(s) =>
      SubmitReplyFields(s);
      SmallSigned(PutSubmitReply(s)[24..28]);
    case UnlinkRet(u) =>
      UnlinkReplyFields(u);
  }

  /**
   Re-encoding a received reply. RET_UNLINK gives back its bytes. RET_SUBMIT changes
   nothing but the packet count, which becomes -1, and is refused exactly if the
   actual length read is longer than any transfer, which only an OUT reply can claim.
   */
  lemma ReplyReencode(wire: bytes)
    requires DecodeReply(wire).Ok?
    ensures DecodeReply(wire).value.UnlinkRet? ==> EncodeReply(DecodeReply(wire).value) == Ok(wire)
    ensures DecodeReply(wire).value.SubmitRet? ==>
      EncodeReply(DecodeReply(wire).value)
      == if GetI32Be(wire[24..28]) > MAX_TRANSFER_SIZE then Err(Malformed)
         else Ok(wire[..32] + PutI32Be(NON_ISO_PACKETS) + wire[36..])
  {
    hide PutU16Be, GetU16Be, PutU32Be, GetU32Be, PutI32Be, GetI32Be;
    U32BeBytes(wire[0..4]);
    U32BeBytes(wire[4..8]);
    AllZeroIsZeros(wire[8..20]);
    I32BeBytes(wire[20..24]);
    Words32(wire);
    Cut(wire, 8, 20);
    match DecodeReply(wire).value
    case UnlinkRet(u) =>
      AllZeroIsZeros(wire[24..48]);
      assert wire == wire[0..4] + wire[4..8] + wire[8..20] + wire[20..24] + wire[24..48];
      assert PutUnlinkReply(u) == wire;
    case SubmitRet(r) =>
      U32BeBytes(wire[24..28]);
      SmallSigned(wire[24..28]);
      I32BeBytes(wire[28..32]);
      I32BeBytes(wire[36..40]);
      AllZeroIsZeros(wire[40..48]);
      assert wire[36..] == wire[36..40] + (wire[40..48] + wire[48..]);
      assert PutSubmitReply(r) == wire[..32] + PutI32Be(NON_ISO_PACKETS) + wire[36..];
  }

  /** No transfer message starts with the USB/IP version word 0x0111 of the control messages. */
  lemma UrbLead(wire: bytes)
    requires DecodeRequest(wire).Ok? || DecodeReply(wire).Ok?
    ensures GetU16Be(wire[..2]) == 0
  {
    assert wire[0..4][..2] == wire[..2];
    Digits(GetU16Be(wire[0..4][..2]), GetU16Be(wire[0..4][2..]), 0x1_0000);
  }
}
