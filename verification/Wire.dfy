/**
 The session's own wire format: a 32-byte frame header followed by one of the
 control payloads or by a fragment of a USB/IP message.
 */
module Wire {
  import opened Base
  import opened Endian

  const MAGIC: u32 := 0x4253_5552
  const PROTOCOL_VERSION: u8 := 1
  const HEADER_SIZE: nat := 32
  const MAX_PAYLOAD: nat := 128 * 1024
  const MAX_REASSEMBLY: nat := 1024 * 1024
  const MAX_FRAGMENTS: nat := 4096
  const CAPABILITY_PREFIX_SIZE: nat := 34
  const OPEN_SIZE: nat := 16
  const FRAGMENT_PREFIX_SIZE: nat := 32
  const FLAG_MORE: u32 := 1

  datatype MessageType = CapabilityMsg | OpenMsg | OpenOkMsg | OpenRejectMsg | UsbIpData | CloseMsg

  function TypeCode(t: MessageType): u8 {
    match t
    case CapabilityMsg => 1
    case OpenMsg => 2
    case OpenOkMsg => 3
    case OpenRejectMsg => 4
    case UsbIpData => 5
    case CloseMsg => 6
  }

  function TypeOf(code: u8): Result<MessageType> {
    if code == 1 then Ok(CapabilityMsg)
    else if code == 2 then Ok(OpenMsg)
    else if code == 3 then Ok(OpenOkMsg)
    else if code == 4 then Ok(OpenRejectMsg)
    else if code == 5 then Ok(UsbIpData)
    else if code == 6 then Ok(CloseMsg)
    else Err(Malformed)
  }

  // ------------------------------------------------------------ frame header

  datatype FrameHeader = FrameHeader(
    messageType: MessageType,
    flags: u32,
    payloadLength: u32,
    sessionToken: u64,
    sequence: u64)

  function ValidateHeader(h: FrameHeader): Result<()> {
    if h.sessionToken == 0 || h.sequence == 0 || h.sequence == U64_MAX then Err(SequenceError)
    else if h.payloadLength > MAX_PAYLOAD then Err(LimitExceeded)
    else if (h.flags != 0 && h.flags != FLAG_MORE) || (h.flags != 0 && h.messageType != UsbIpData)
    then Err(Malformed)
    else Ok(())
  }

  function PutHeader(h: FrameHeader): (s: bytes)
    ensures |s| == HEADER_SIZE
  {
    PutU32Le(MAGIC) + [PROTOCOL_VERSION, TypeCode(h.messageType)] + PutU16Le(HEADER_SIZE)
    + PutU32Le(h.flags) + PutU32Le(h.payloadLength) + PutU64Le(h.sessionToken) + PutU64Le(h.sequence)
  }

  function EncodeHeader(h: FrameHeader): Result<bytes> {
    var _ :- ValidateHeader(h);
    Ok(PutHeader(h))
  }

  function DecodeHeader(wire: bytes): Result<FrameHeader> {
    if |wire| != HEADER_SIZE then Err(Malformed)
    else if GetU32Le(wire[0..4]) != MAGIC then Err(BadMagic)
    else if wire[4] != PROTOCOL_VERSION then Err(VersionMismatch)
    else if GetU16Le(wire[6..8]) != HEADER_SIZE then Err(Malformed)
    else
      var t :- TypeOf(wire[5]);
      var h := FrameHeader(t, GetU32Le(wire[8..12]), GetU32Le(wire[12..16]),
                           GetU64Le(wire[16..24]), GetU64Le(wire[24..32]));
      var _ :- ValidateHeader(h);
      Ok(h)
  }

  // -------------------------------------------------------------- capability

  datatype Endpoint = Endpoint(
    interfaceNumber: u8,
    alternateSetting: u8,
    address: u8,
    attributes: u8,
    maxPacketSize: u16,
    interval: u8)

  datatype Capability = Capability(
    leaseToken: u64,
    attachmentToken: u64,
    vendorId: u16,
    productId: u16,
    deviceBcd: u16,
    deviceClass: u8,
    deviceSubclass: u8,
    deviceProtocol: u8,
    busId: bytes,
    rawDescriptors: bytes,
    endpoints: seq<Endpoint>)

  predicate CapabilityOk(c: Capability) {
    && c.leaseToken != 0
    && c.attachmentToken != 0
    && 1 <= |c.busId| <= 31
    && 0 !in c.busId
    && 1 <= |c.rawDescriptors| <= 64 * 1024
    && |c.endpoints| <= 256
  }

  function PutEndpoint(e: Endpoint): (s: bytes)
    ensures |s| == 8
  {
    [e.interfaceNumber, e.alternateSetting, e.address, e.attributes]
    + PutU16Le(e.maxPacketSize) + [e.interval, 0]
  }

  function PutEndpoints(es: seq<Endpoint>): (s: bytes)
    ensures |s| == 8 * |es|
  {
    if es == [] then [] else PutEndpoints(es[..|es| - 1]) + PutEndpoint(es[|es| - 1])
  }

  function CapabilityLength(c: Capability): nat {
    CAPABILITY_PREFIX_SIZE + |c.busId| + |c.rawDescriptors| + 8 * |c.endpoints|
  }

  function PutCapabilityPrefix(c: Capability): (s: bytes)
    requires CapabilityOk(c)
    ensures |s| == CAPABILITY_PREFIX_SIZE
  {
    PutU64Le(c.leaseToken) + PutU64Le(c.attachmentToken)
    + PutU16Le(c.vendorId) + PutU16Le(c.productId) + PutU16Le(c.deviceBcd)
    + [c.deviceClass, c.deviceSubclass, c.deviceProtocol, |c.busId|]
    + PutU16Le(|c.endpoints|) + [0, 0] + PutU32Le(|c.rawDescriptors|)
  }

  function PutCapability(c: Capability): (s: bytes)
    requires CapabilityOk(c)
    ensures |s| == CapabilityLength(c)
  {
    PutCapabilityPrefix(c) + c.busId + c.rawDescriptors + PutEndpoints(c.endpoints)
  }

  function EncodeCapability(c: Capability): Result<bytes> {
    if !CapabilityOk(c) then Err(Malformed)
    else if CapabilityLength(c) > MAX_PAYLOAD then Err(LimitExceeded)
    else Ok(PutCapability(c))
  }

  function DecodeEndpoint(s: bytes): Result<Endpoint>
    requires |s| == 8
  {
    if s[7] != 0 then Err(Malformed)
    else Ok(Endpoint(s[0], s[1], s[2], s[3], GetU16Le(s[4..6]), s[6]))
  }

  // The first n endpoint records of a buffer; the first bad record refuses them all.
  function DecodeEndpoints(s: bytes, n: nat): (r: Result<seq<Endpoint>>)
    requires 8 * n <= |s|
    ensures r.Ok? ==> |r.value| == n
  {
    if n == 0 then Ok([])
    else
      var front :- DecodeEndpoints(s, n - 1);
      var last :- DecodeEndpoint(s[8 * (n - 1)..8 * n]);
      Ok(front + [last])
  }

  function DecodeCapability(payload: bytes): Result<Capability> {
    if |payload| < CAPABILITY_PREFIX_SIZE || !AllZero(payload[28..30]) then Err(Malformed)
    else
      var busEnd: nat := CAPABILITY_PREFIX_SIZE + payload[25];
      var count: nat := GetU16Le(payload[26..28]);
      var rawEnd: nat := busEnd + GetU32Le(payload[30..34]);
      if |payload| != rawEnd + 8 * count then Err(Malformed)
      else
        var endpoints :- DecodeEndpoints(payload[rawEnd..], count);
        var c := Capability(GetU64Le(payload[0..8]), GetU64Le(payload[8..16]),
                            GetU16Le(payload[16..18]), GetU16Le(payload[18..20]), GetU16Le(payload[20..22]),
                            payload[22], payload[23], payload[24],
                            payload[CAPABILITY_PREFIX_SIZE..busEnd], payload[busEnd..rawEnd], endpoints);
        if CapabilityOk(c) then Ok(c) else Err(Malformed)
  }

  // -------------------------------------------------------------------- open

  datatype Open = Open(leaseToken: u64, attachmentToken: u64)

  function EncodeOpen(o: Open): Result<bytes> {
    if o.leaseToken == 0 || o.attachmentToken == 0 then Err(Malformed)
    else Ok(PutU64Le(o.leaseToken) + PutU64Le(o.attachmentToken))
  }

  function DecodeOpen(payload: bytes): Result<Open> {
    if |payload| != OPEN_SIZE then Err(Malformed)
    else
      var o := Open(GetU64Le(payload[0..8]), GetU64Le(payload[8..16]));
      var _ :- EncodeOpen(o);
      Ok(o)
  }

  // --------------------------------------------------------------- fragments

  datatype Fragment = Fragment(
    leaseToken: u64,
    pduId: u64,
    totalLength: u32,
    offset: u32,
    data: bytes,
    more: bool)

  predicate FragmentOk(f: Fragment) {
    var end: int := f.offset + |f.data|;
    && f.leaseToken != 0
    && f.pduId != 0
    && f.data != []
    && 0 < f.totalLength <= MAX_REASSEMBLY
    && end <= f.totalLength
    && f.more == (end < f.totalLength)
    && FRAGMENT_PREFIX_SIZE + |f.data| <= MAX_PAYLOAD
  }

  function PutFragment(f: Fragment): (s: bytes)
    requires FragmentOk(f)
    ensures |s| == FRAGMENT_PREFIX_SIZE + |f.data|
  {
    PutU64Le(f.leaseToken) + PutU64Le(f.pduId) + PutU32Le(f.totalLength) + PutU32Le(f.offset)
    + PutU32Le(|f.data|) + Zeros(4) + f.data
  }

  function EncodeFragment(f: Fragment): Result<bytes> {
    if !FragmentOk(f) then Err(Malformed) else Ok(PutFragment(f))
  }

  function DecodeFragment(payload: bytes, flags: u32): Result<Fragment> {
    if |payload| < FRAGMENT_PREFIX_SIZE || !AllZero(payload[28..32]) then Err(Malformed)
    else if |payload| != FRAGMENT_PREFIX_SIZE + GetU32Le(payload[24..28]) then Err(Malformed)
    else
      var f := Fragment(GetU64Le(payload[0..8]), GetU64Le(payload[8..16]), GetU32Le(payload[16..20]),
                        GetU32Le(payload[20..24]), payload[32..], flags == FLAG_MORE);
      if FragmentOk(f) then Ok(f) else Err(Malformed)
  }

  function FlagsOf(f: Fragment): u32 {
    if f.more then FLAG_MORE else 0
  }

  // ------------------------------------------------------------------ frames

  function ValidatePayload(kind: MessageType, flags: u32, payload: bytes): Result<()> {
    match kind
    case CapabilityMsg =>
      var _ :- DecodeCapability(payload);
      Ok(())
    case OpenMsg =>
      var _ :- DecodeOpen(payload);
      Ok(())
    case OpenOkMsg =>
      if payload == [] then Ok(()) else Err(Malformed)
    case OpenRejectMsg =>
      if |payload| == 4 && 1 <= GetU32Le(payload) <= 10 then Ok(()) else Err(Malformed)
    case UsbIpData =>
      var _ :- DecodeFragment(payload, flags);
      Ok(())
    case CloseMsg =>
      if |payload| == 8 && GetU64Le(payload) != 0 then Ok(()) else Err(Malformed)
  }

  function EncodeFrame(h: FrameHeader, payload: bytes): Result<bytes> {
    if |payload| != h.payloadLength then Err(InvalidArgument)
    else
      var _ :- ValidatePayload(h.messageType, h.flags, payload);
      var header :- EncodeHeader(h);
      Ok(header + payload)
  }

  function DecodeFrame(wire: bytes): Result<(FrameHeader, bytes)> {
    if |wire| < HEADER_SIZE then Err(Malformed)
    else
      var h :- DecodeHeader(wire[..HEADER_SIZE]);
      if |wire| != HEADER_SIZE + h.payloadLength then Err(Malformed)
      else Ok((h, wire[HEADER_SIZE..]))
  }

  // ------------------------------------------------------- codecs are inverse

  lemma HeaderFields(h: FrameHeader)
    ensures var w := PutHeader(h);
      && GetU32Le(w[0..4]) == MAGIC
      && w[4] == PROTOCOL_VERSION
      && w[5] == TypeCode(h.messageType)
      && GetU16Le(w[6..8]) == HEADER_SIZE
      && GetU32Le(w[8..12]) == h.flags
      && GetU32Le(w[12..16]) == h.payloadLength
      && GetU64Le(w[16..24]) == h.sessionToken
      && GetU64Le(w[24..32]) == h.sequence
  {
    hide PutU16Le, GetU16Le, PutU32Le, GetU32Le, PutU64Le, GetU64Le;
    var w := PutHeader(h);
    assert w[0..4] == PutU32Le(MAGIC);
    assert w[6..8] == PutU16Le(HEADER_SIZE);
    assert w[8..12] == PutU32Le(h.flags);
    assert w[12..16] == PutU32Le(h.payloadLength);
    assert w[16..24] == PutU64Le(h.sessionToken);
    assert w[24..32] == PutU64Le(h.sequence);
    U32Le(MAGIC);
    U16Le(HEADER_SIZE);
    U32Le(h.flags);
    U32Le(h.payloadLength);
    U64Le(h.sessionToken);
    U64Le(h.sequence);
  }

  /** A frame that encodes decodes to its own header and payload, and only such frames decode. */
  lemma FrameRoundTrip(h: FrameHeader, payload: bytes)
    requires EncodeFrame(h, payload).Ok?
    ensures DecodeFrame(EncodeFrame(h, payload).value) == Ok((h, payload))
  {
    hide PutU16Le, GetU16Le, PutU32Le, GetU32Le, PutU64Le, GetU64Le;
    var wire := EncodeFrame(h, payload).value;
    HeaderFields(h);
    Seam(PutHeader(h), payload);
    assert wire[..HEADER_SIZE] == PutHeader(h);
    assert TypeOf(TypeCode(h.messageType)) == Ok(h.messageType);
  }

  /** The header of an accepted frame can be rebuilt from its decoded form, byte for byte. */
  lemma FrameReencode(wire: bytes)
    requires DecodeFrame(wire).Ok?
    ensures var (h, payload) := DecodeFrame(wire).value;
      && EncodeHeader(h) == Ok(wire[..HEADER_SIZE])
      && wire == PutHeader(h) + payload
      && (ValidatePayload(h.messageType, h.flags, payload).Ok? ==> EncodeFrame(h, payload) == Ok(wire))
  {
    hide PutU16Le, GetU16Le, PutU32Le, GetU32Le, PutU64Le, GetU64Le;
    var w := wire[..HEADER_SIZE];
    U32LeBytes(w[0..4]);
    U16LeBytes(w[6..8]);
    U32LeBytes(w[8..12]);
    U32LeBytes(w[12..16]);
    U64LeBytes(w[16..24]);
    U64LeBytes(w[24..32]);
    assert w[4..6] == [w[4], w[5]];
    assert w[..4] == w[0..4];
    Cut(w, 4, 6);
    Cut(w, 6, 8);
    Cut(w, 8, 12);
    Cut(w, 12, 16);
    Cut(w, 16, 24);
    Cut(w, 24, 32);
    assert w == w[..32];
    var (h, payload) := DecodeFrame(wire).value;
    assert w == PutHeader(h);
    assert wire == w + payload;
  }

  lemma OpenRoundTrip(o: Open)
    requires o.leaseToken != 0 && o.attachmentToken != 0
    ensures EncodeOpen(o).Ok? && |EncodeOpen(o).value| == OPEN_SIZE
    ensures DecodeOpen(EncodeOpen(o).value) == Ok(o)
  {
    hide PutU16Le, GetU16Le, PutU32Le, GetU32Le, PutU64Le, GetU64Le;
    var w := EncodeOpen(o).value;
    Seam(PutU64Le(o.leaseToken), PutU64Le(o.attachmentToken));
    assert w[0..8] == PutU64Le(o.leaseToken);
    assert w[8..16] == PutU64Le(o.attachmentToken);
    U64Le(o.leaseToken);
    U64Le(o.attachmentToken);
  }

  /** Every OPEN accepted encodes back to the same bytes. */
  lemma OpenReencode(payload: bytes)
    requires DecodeOpen(payload).Ok?
    ensures EncodeOpen(DecodeOpen(payload).value) == Ok(payload)
  {
    hide PutU64Le, GetU64Le;
    U64LeBytes(payload[0..8]);
    U64LeBytes(payload[8..16]);
    assert payload == payload[0..8] + payload[8..16];
  }

  /** Every fragment accepted encodes back to the same bytes. */
  lemma FragmentReencode(payload: bytes, flags: u32)
    requires DecodeFragment(payload, flags).Ok?
    ensures EncodeFragment(DecodeFragment(payload, flags).value) == Ok(payload)
  {
    hide PutU32Le, GetU32Le, PutU64Le, GetU64Le;
    U64LeBytes(payload[0..8]);
    U64LeBytes(payload[8..16]);
    U32LeBytes(payload[16..20]);
    U32LeBytes(payload[20..24]);
    U32LeBytes(payload[24..28]);
    AllZeroIsZeros(payload[28..32]);
    assert payload == payload[0..8] + payload[8..16] + payload[16..20] + payload[20..24] + payload[24..28]
                      + payload[28..32] + payload[32..];
  }

  /** A fragment that encodes decodes to itself under the flags its frame carries. */
  lemma FragmentRoundTrip(f: Fragment)
    requires FragmentOk(f)
    ensures DecodeFragment(PutFragment(f), FlagsOf(f)) == Ok(f)
  {
    hide PutU16Le, GetU16Le, PutU32Le, GetU32Le, PutU64Le, GetU64Le;
    var w := PutFragment(f);
    assert w[0..8] == PutU64Le(f.leaseToken);
    assert w[8..16] == PutU64Le(f.pduId);
    assert w[16..20] == PutU32Le(f.totalLength);
    assert w[20..24] == PutU32Le(f.offset);
    assert w[24..28] == PutU32Le(|f.data|);
    assert AllZero(w[28..32]);
    assert w[32..] == f.data;
    U64Le(f.leaseToken);
    U64Le(f.pduId);
    U32Le(f.totalLength);
    U32Le(f.offset);
    U32Le(|f.data|);
  }

  lemma EndpointRoundTrip(e: Endpoint)
    ensures DecodeEndpoint(PutEndpoint(e)) == Ok(e)
  {
    assert PutEndpoint(e)[4..6] == PutU16Le(e.maxPacketSize);
    U16Le(e.maxPacketSize);
  }

  lemma EndpointReencode(s: bytes)
    requires |s| == 8 && DecodeEndpoint(s).Ok?
    ensures PutEndpoint(DecodeEndpoint(s).value) == s
  {
    U16LeBytes(s[4..6]);
    assert s == s[..4] + s[4..6] + s[6..8];
  }

  lemma EndpointsStep(s: bytes, n: nat, front: seq<Endpoint>, last: Endpoint)
    requires 8 * n + 8 <= |s|
    requires DecodeEndpoints(s, n) == Ok(front)
    requires s[8 * n..8 * n + 8] == PutEndpoint(last)
    ensures DecodeEndpoints(s, n + 1) == Ok(front + [last])
  {
    EndpointRoundTrip(last);
    assert s[8 * (n + 1 - 1)..8 * (n + 1)] == s[8 * n..8 * n + 8];
  }

  lemma PutEndpointsLast(es: seq<Endpoint>, n: nat)
    requires |es| == n + 1
    ensures PutEndpoints(es) == PutEndpoints(es[..n]) + PutEndpoint(es[n])
  {
  }

  lemma {:induction false} EndpointsRoundTrip(es: seq<Endpoint>, rest: bytes)
    ensures DecodeEndpoints(PutEndpoints(es) + rest, |es|) == Ok(es)
  {
    if es != [] {
      hide PutEndpoint, DecodeEndpoint, PutEndpoints, DecodeEndpoints;
      var n := |es| - 1;
      var front, last := es[..n], es[n];
      PutEndpointsLast(es, n);
      EndpointsRoundTrip(front, PutEndpoint(last) + rest);
      var s := PutEndpoints(es) + rest;
      assert s == PutEndpoints(front) + (PutEndpoint(last) + rest);
      EndpointsStep(s, n, front, last);
      assert es == front + [last];
    }
  }

  lemma {:induction false} EndpointsReencode(s: bytes, n: nat)
    requires 8 * n <= |s| && DecodeEndpoints(s, n).Ok?
    ensures PutEndpoints(DecodeEndpoints(s, n).value) == s[..8 * n]
  {
    hide PutU16Le, GetU16Le, PutU32Le, GetU32Le, PutU64Le, GetU64Le;
    if n != 0 {
      EndpointsReencode(s, n - 1);
      var es := DecodeEndpoints(s, n).value;
      EndpointReencode(s[8 * (n - 1)..8 * n]);
      assert es[..n - 1] == DecodeEndpoints(s, n - 1).value;
      assert s[..8 * n] == s[..8 * (n - 1)] + s[8 * (n - 1)..8 * n];
    }
  }

  /** The payload limit never refuses a valid capability: the longest one is under MAX_PAYLOAD. */
  lemma CapabilityAlwaysFits(c: Capability)
    ensures EncodeCapability(c).Ok? <==> CapabilityOk(c)
    ensures CapabilityOk(c) ==> CapabilityLength(c) <= 34 + 31 + 65536 + 2048 < MAX_PAYLOAD
  {
  }

  lemma CapabilityPrefixFields(c: Capability, rest: bytes)
    requires CapabilityOk(c)
    ensures var w := PutCapabilityPrefix(c) + rest;
      && GetU64Le(w[0..8]) == c.leaseToken
      && GetU64Le(w[8..16]) == c.attachmentToken
      && GetU16Le(w[16..18]) == c.vendorId
      && GetU16Le(w[18..20]) == c.productId
      && GetU16Le(w[20..22]) == c.deviceBcd
      && w[22] == c.deviceClass && w[23] == c.deviceSubclass && w[24] == c.deviceProtocol
      && w[25] == |c.busId|
      && GetU16Le(w[26..28]) == |c.endpoints|
      && AllZero(w[28..30])
      && GetU32Le(w[30..34]) == |c.rawDescriptors|
      && w[34..] == rest
  {
    hide PutU16Le, GetU16Le, PutU32Le, GetU32Le, PutU64Le, GetU64Le;
    var w := PutCapabilityPrefix(c) + rest;
    assert w[0..8] == PutU64Le(c.leaseToken);
    assert w[8..16] == PutU64Le(c.attachmentToken);
    assert w[16..18] == PutU16Le(c.vendorId);
    assert w[18..20] == PutU16Le(c.productId);
    assert w[20..22] == PutU16Le(c.deviceBcd);
    assert w[26..28] == PutU16Le(|c.endpoints|);
    assert w[28..30] == [0, 0];
    assert w[30..34] == PutU32Le(|c.rawDescriptors|);
    U64Le(c.leaseToken);
    U64Le(c.attachmentToken);
    U16Le(c.vendorId);
    U16Le(c.productId);
    U16Le(c.deviceBcd);
    U16Le(|c.endpoints|);
    U32Le(|c.rawDescriptors|);
  }

  /** Decoding undoes encoding for every capability, all three variable-length sections included. */
  lemma CapabilityRoundTrip(c: Capability)
    requires CapabilityOk(c)
    ensures EncodeCapability(c).Ok?
    ensures DecodeCapability(EncodeCapability(c).value) == Ok(c)
  {
    hide PutU16Le, GetU16Le, PutU32Le, GetU32Le, PutU64Le, GetU64Le;
    CapabilityAlwaysFits(c);
    var rest := c.busId + c.rawDescriptors + PutEndpoints(c.endpoints);
    CapabilityPrefixFields(c, rest);
    var w := PutCapability(c);
    assert w == PutCapabilityPrefix(c) + rest;
    var busEnd := 34 + |c.busId|;
    var rawEnd := busEnd + |c.rawDescriptors|;
    assert w[34..busEnd] == c.busId;
    assert w[busEnd..rawEnd] == c.rawDescriptors;
    assert w[rawEnd..] == PutEndpoints(c.endpoints) + [];
    EndpointsRoundTrip(c.endpoints, []);
  }

  lemma CapabilityPrefixReencode(payload: bytes)
    requires DecodeCapability(payload).Ok?
    ensures PutCapabilityPrefix(DecodeCapability(payload).value) == payload[..34]
  {
    hide PutU16Le, GetU16Le, PutU32Le, GetU32Le, PutU64Le, GetU64Le;
    var c := DecodeCapability(payload).value;
    U64LeBytes(payload[0..8]);
    U64LeBytes(payload[8..16]);
    U16LeBytes(payload[16..18]);
    U16LeBytes(payload[18..20]);
    U16LeBytes(payload[20..22]);
    U16LeBytes(payload[26..28]);
    U32LeBytes(payload[30..34]);
    assert payload[22..26] == [c.deviceClass, c.deviceSubclass, c.deviceProtocol, |c.busId|];
    assert payload[28..30] == [0, 0];
    assert payload[..8] == payload[0..8];
    Cut(payload, 8, 16);
    Cut(payload, 16, 18);
    Cut(payload, 18, 20);
    Cut(payload, 20, 22);
    Cut(payload, 22, 26);
    Cut(payload, 26, 28);
    Cut(payload, 28, 30);
    Cut(payload, 30, 34);
  }

  /** Encoding undoes decoding for every accepted payload: no two byte strings mean the same capability. */
  lemma CapabilityReencode(payload: bytes)
    requires DecodeCapability(payload).Ok?
    ensures EncodeCapability(DecodeCapability(payload).value) == Ok(payload)
  {
    hide PutU16Le, GetU16Le, PutU32Le, GetU32Le, PutU64Le, GetU64Le;
    var c := DecodeCapability(payload).value;
    CapabilityAlwaysFits(c);
    CapabilityPrefixReencode(payload);
    CapabilitySections(payload);
    JoinSections(payload, 34, 34 + |c.busId|, 34 + |c.busId| + |c.rawDescriptors|);
  }

  lemma CapabilitySections(payload: bytes)
    requires DecodeCapability(payload).Ok?
    ensures var c := DecodeCapability(payload).value;
      var busEnd := 34 + |c.busId|;
      var rawEnd := busEnd + |c.rawDescriptors|;
      && rawEnd <= |payload|
      && c.busId == payload[34..busEnd]
      && c.rawDescriptors == payload[busEnd..rawEnd]
      && PutEndpoints(c.endpoints) == payload[rawEnd..]
  {
    hide PutEndpoints, DecodeEndpoints, PutEndpoint, DecodeEndpoint, CapabilityOk;
    hide PutU16Le, GetU16Le, PutU32Le, GetU32Le, PutU64Le, GetU64Le;
    var c := DecodeCapability(payload).value;
    var rawEnd := 34 + |c.busId| + |c.rawDescriptors|;
    var tail := payload[rawEnd..];
    EndpointsReencode(tail, |c.endpoints|);
    assert tail[..8 * |c.endpoints|] == tail;
  }

  lemma JoinSections(s: bytes, i: nat, j: nat, k: nat)
    requires i <= j <= k <= |s|
    ensures s[..i] + s[i..j] + s[j..k] + s[k..] == s
  {
  }
}
