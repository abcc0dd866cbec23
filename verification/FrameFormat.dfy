/** The session's own formats byte by byte: what is written, what is read, and what is refused and why. */
module FrameFormat {
  import opened Base
  import opened Endian
  import opened Numerals
  import opened Wire
  import B = Broker

  // The kinds of frame in the order of their codes, which start at 1.
  const KINDS: seq<MessageType> := [CapabilityMsg, OpenMsg, OpenOkMsg, OpenRejectMsg, UsbIpData, CloseMsg]

  // ------------------------------------------------------------ frame header

  /** A header is written as 32 bytes, or refused for its numbers, its length or its flags, in that order. */
  lemma HeaderWritten(h: FrameHeader, k: u8)
    requires 1 <= k <= 6 && h.messageType == KINDS[k - 1]
    ensures EncodeHeader(h) ==
      if h.sessionToken == 0 || h.sequence == 0 || h.sequence == 0xFFFF_FFFF_FFFF_FFFF then Err(SequenceError)
      else if h.payloadLength > 131072 then Err(LimitExceeded)
      else if h.flags != 0 && !(h.flags == 1 && k == 5) then Err(Malformed)
      else Ok([0x52, 0x55, 0x53, 0x42, 1, k, 32, 0] + Low(h.flags, 4) + Low(h.payloadLength, 4)
              + Low(h.sessionToken, 8) + Low(h.sequence, 8))
  {
    LeadWords();
    hide Low, PutU16Le, PutU32Le, PutU64Le;
    WritesLow(h.flags);
    WritesLow(h.payloadLength);
    WritesLow(h.sessionToken);
    WritesLow(h.sequence);
    assert [0x52, 0x55, 0x53, 0x42] + [1, k] + [32, 0] == [0x52, 0x55, 0x53, 0x42, 1, k, 32, 0];
  }

  lemma LeadWords()
    ensures PutU32Le(MAGIC) == [0x52, 0x55, 0x53, 0x42] == PutU32Le(B.MAGIC)
    ensures PutU16Le(32) == [32, 0] && PutU16Le(84) == [84, 0] && PutU16Le(1) == [1, 0]
  {
    assert PutU32Le(0x4253_5552) == PutU16Le(0x5552) + PutU16Le(0x4253);
    assert PutU16Le(0x5552) == [0x52, 0x55] && PutU16Le(0x4253) == [0x53, 0x42];
  }

  // A field reads as the magic exactly if it holds its bytes.
  lemma ReadsLead(s: bytes)
    ensures |s| == 4 ==> (GetU32Le(s) == MAGIC <==> s == [0x52, 0x55, 0x53, 0x42])
    ensures |s| == 4 ==> (GetU32Le(s) == B.MAGIC <==> s == [0x52, 0x55, 0x53, 0x42])
    ensures |s| == 2 ==> (GetU16Le(s) == 32 <==> s == [32, 0])
    ensures |s| == 2 ==> (GetU16Le(s) == 84 <==> s == [84, 0])
    ensures |s| == 2 ==> (GetU16Le(s) == 1 <==> s == [1, 0])
  {
    LeadWords();
    hide PutU32Le, GetU32Le, PutU16Le, GetU16Le;
    U32Le(MAGIC);
    U32Le(B.MAGIC);
    U16Le(32);
    U16Le(84);
    U16Le(1);
    if |s| == 4 {
      U32LeBytes(s);
    } else if |s| == 2 {
      U16LeBytes(s);
    }
  }

  /** How 32 bytes are read as a header, and which other bytes are refused with which error. */
  lemma HeaderRead(w: bytes)
    ensures var r := DecodeHeader(w);
      if |w| != 32 then r == Err(Malformed)
      else if w[0..4] != [0x52, 0x55, 0x53, 0x42] then r == Err(BadMagic)
      else if w[4] != 1 then r == Err(VersionMismatch)
      else if w[6..8] != [32, 0] || !(1 <= w[5] <= 6) then r == Err(Malformed)
      else if LowFirst(w[16..24]) == 0 || LowFirst(w[24..32]) == 0
           || LowFirst(w[24..32]) == 0xFFFF_FFFF_FFFF_FFFF then r == Err(SequenceError)
      else if LowFirst(w[12..16]) > 131072 then r == Err(LimitExceeded)
      else if LowFirst(w[8..12]) != 0 && !(LowFirst(w[8..12]) == 1 && w[5] == 5) then r == Err(Malformed)
      else
        && r.Ok? && r.value.messageType == KINDS[w[5] - 1]
        && r.value.flags == LowFirst(w[8..12]) && r.value.payloadLength == LowFirst(w[12..16])
        && r.value.sessionToken == LowFirst(w[16..24]) && r.value.sequence == LowFirst(w[24..32])
  {
    hide LowFirst, GetU16Le, GetU32Le, GetU64Le;
    if |w| == 32 {
      ReadsLead(w[0..4]);
      ReadsLead(w[6..8]);
      ReadsLow(w[8..12]);
      ReadsLow(w[12..16]);
      ReadsLow(w[16..24]);
      ReadsLow(w[24..32]);
    }
  }

  /** A frame is its header and as many bytes as that announces; the header is judged first. */
  lemma FrameRead(w: bytes)
    ensures var r := DecodeFrame(w);
      if |w| < 32 then r == Err(Malformed)
      else if DecodeHeader(w[..32]).Err? then r == Err(DecodeHeader(w[..32]).error)
      else if |w| != 32 + LowFirst(w[12..16]) then r == Err(Malformed)
      else r == Ok((DecodeHeader(w[..32]).value, w[32..]))
  {
    hide LowFirst, DecodeHeader;
    if |w| >= 32 {
      HeaderRead(w[..32]);
      assert w[..32][12..16] == w[12..16];
    }
  }

  /** A frame is written as its header and its payload, once the length, the payload and the header are in order. */
  lemma FrameWritten(h: FrameHeader, payload: bytes)
    ensures EncodeFrame(h, payload) ==
      if |payload| != h.payloadLength then Err(InvalidArgument)
      else if ValidatePayload(h.messageType, h.flags, payload).Err? then Err(Malformed)
      else match EncodeHeader(h)
        case Err(error) => Err(error)
        case Ok(header) => Ok(header + payload)
  {
    hide EncodeHeader, ValidatePayload;
    PayloadAllowed(h.messageType, h.flags, payload);
  }

  // --------------------------------------------------------------- payloads

  /** Which payloads a frame of each kind may carry. */
  lemma PayloadAllowed(kind: MessageType, flags: u32, payload: bytes)
    ensures var r := ValidatePayload(kind, flags, payload);
      && (r.Err? ==> r.error == Malformed)
      && (r.Ok? <==>
            match kind
            case CapabilityMsg => DecodeCapability(payload).Ok?
            case OpenMsg => DecodeOpen(payload).Ok?
            case OpenOkMsg => payload == []
            case OpenRejectMsg => |payload| == 4 && 1 <= LowFirst(payload) <= 10
            case UsbIpData => DecodeFragment(payload, flags).Ok?
            case CloseMsg => |payload| == 8 && LowFirst(payload) != 0)
  {
    hide LowFirst, GetU32Le, GetU64Le, DecodeOpen, DecodeFragment;
    ReadsLow(payload);
    CapabilityRead(payload);
    OpenRead(payload);
    FragmentRead(payload, flags);
  }

  /** OPEN is two tokens, neither zero. */
  lemma OpenWritten(o: Open)
    ensures EncodeOpen(o) ==
      if o.leaseToken == 0 || o.attachmentToken == 0 then Err(Malformed)
      else Ok(Low(o.leaseToken, 8) + Low(o.attachmentToken, 8))
  {
    hide Low, PutU64Le;
    WritesLow(o.leaseToken);
    WritesLow(o.attachmentToken);
  }

  lemma OpenRead(payload: bytes)
    ensures DecodeOpen(payload).Ok? || DecodeOpen(payload) == Err(Malformed)
    ensures DecodeOpen(payload).Ok? <==>
      |payload| == 16 && LowFirst(payload[0..8]) != 0 && LowFirst(payload[8..16]) != 0
    ensures DecodeOpen(payload).Ok? ==>
      && DecodeOpen(payload).value.leaseToken == LowFirst(payload[0..8])
      && DecodeOpen(payload).value.attachmentToken == LowFirst(payload[8..16])
  {
    hide LowFirst, GetU64Le;
    if |payload| == 16 {
      ReadsLow(payload[0..8]);
      ReadsLow(payload[8..16]);
    }
  }

  // ------------------------------------------------------------- capability

  function EndpointRecords(es: seq<Endpoint>): bytes {
    if es == [] then []
    else
      var e := es[|es| - 1];
      EndpointRecords(es[..|es| - 1])
      + [e.interfaceNumber, e.alternateSetting, e.address, e.attributes] + Low(e.maxPacketSize, 2) + [e.interval, 0]
  }

  lemma {:induction false} EndpointsWritten(es: seq<Endpoint>)
    ensures PutEndpoints(es) == EndpointRecords(es)
  {
    hide Low, PutU16Le;
    if es != [] {
      EndpointsWritten(es[..|es| - 1]);
      WritesLow(es[|es| - 1].maxPacketSize);
    }
  }

  /** CAPABILITY byte by byte, and which device descriptions are refused. */
  lemma CapabilityWritten(c: Capability)
    ensures EncodeCapability(c) ==
      if c.leaseToken == 0 || c.attachmentToken == 0 || !(1 <= |c.busId| <= 31) || 0 in c.busId
         || !(1 <= |c.rawDescriptors| <= 65536) || |c.endpoints| > 256 then Err(Malformed)
      else Ok(Low(c.leaseToken, 8) + Low(c.attachmentToken, 8) + Low(c.vendorId, 2) + Low(c.productId, 2)
              + Low(c.deviceBcd, 2) + [c.deviceClass, c.deviceSubclass, c.deviceProtocol, |c.busId|]
              + Low(|c.endpoints|, 2) + [0, 0] + Low(|c.rawDescriptors|, 4)
              + c.busId + c.rawDescriptors + EndpointRecords(c.endpoints))
  {
    hide Low, PutU16Le, PutU32Le, PutU64Le, EndpointRecords, PutEndpoints;
    WritesLow(c.leaseToken);
    WritesLow(c.attachmentToken);
    WritesLow(c.vendorId);
    WritesLow(c.productId);
    WritesLow(c.deviceBcd);
    EndpointsWritten(c.endpoints);
    if CapabilityOk(c) {
      WritesLow(|c.endpoints|);
      WritesLow(|c.rawDescriptors|);
    }
  }

  /** Exactly the bytes some capability is written as are read, as that capability. */
  lemma CapabilityRead(payload: bytes)
    ensures DecodeCapability(payload).Ok? || DecodeCapability(payload) == Err(Malformed)
    ensures DecodeCapability(payload).Ok? <==> exists c :: EncodeCapability(c) == Ok(payload)
    ensures forall c :: EncodeCapability(c) == Ok(payload) ==> DecodeCapability(payload) == Ok(c)
  {
    OnlyMalformed(payload);
    hide DecodeCapability, EncodeCapability, CapabilityOk;
    if DecodeCapability(payload).Ok? {
      CapabilityReencode(payload);
      assert EncodeCapability(DecodeCapability(payload).value) == Ok(payload);
    }
    forall c | EncodeCapability(c) == Ok(payload)
      ensures DecodeCapability(payload) == Ok(c)
    {
      CapabilityAlwaysFits(c);
      CapabilityRoundTrip(c);
    }
  }

  lemma {:induction false} EndpointsMalformed(s: bytes, n: nat)
    requires 8 * n <= |s|
    ensures DecodeEndpoints(s, n).Err? ==> DecodeEndpoints(s, n).error == Malformed
  {
    if n > 0 {
      EndpointsMalformed(s, n - 1);
    }
  }

  lemma OnlyMalformed(payload: bytes)
    ensures DecodeCapability(payload).Err? ==> DecodeCapability(payload).error == Malformed
  {
    hide DecodeEndpoints, GetU64Le, GetU32Le, GetU16Le;
    if |payload| >= 34 {
      var count: nat := GetU16Le(payload[26..28]);
      var rawEnd := 34 + payload[25] as nat + GetU32Le(payload[30..34]);
      if |payload| == rawEnd + 8 * count {
        EndpointsMalformed(payload[rawEnd..], count);
      }
    }
  }

  // --------------------------------------------------------------- fragments

  /** A fragment byte by byte, and which fragments are refused. */
  lemma FragmentWritten(f: Fragment)
    ensures EncodeFragment(f) ==
      if f.leaseToken == 0 || f.pduId == 0 || f.data == [] || !(1 <= f.totalLength <= 1048576)
         || f.offset as int + |f.data| > f.totalLength || f.more != (f.offset as int + |f.data| < f.totalLength)
         || |f.data| > 131040 then Err(Malformed)
      else Ok(Low(f.leaseToken, 8) + Low(f.pduId, 8) + Low(f.totalLength, 4) + Low(f.offset, 4)
              + Low(|f.data|, 4) + [0, 0, 0, 0] + f.data)
  {
    hide Low, PutU32Le, PutU64Le;
    WritesLow(f.leaseToken);
    WritesLow(f.pduId);
    WritesLow(f.totalLength);
    WritesLow(f.offset);
    assert Zeros(4) == [0, 0, 0, 0];
    if FragmentOk(f) {
      WritesLow(|f.data|);
    }
  }

  /** Exactly the bytes some fragment is written as are read, as that one, if the flags say whether more follows. */
  lemma FragmentRead(payload: bytes, flags: u32)
    ensures DecodeFragment(payload, flags).Ok? || DecodeFragment(payload, flags) == Err(Malformed)
    ensures DecodeFragment(payload, flags).Ok? <==>
      exists f :: EncodeFragment(f) == Ok(payload) && f.more == (flags == 1)
    ensures forall f :: EncodeFragment(f) == Ok(payload) && f.more == (flags == 1) ==>
      DecodeFragment(payload, flags) == Ok(f)
  {
    ReadMore(payload, flags);
    hide DecodeFragment, FragmentOk, PutFragment;
    if DecodeFragment(payload, flags).Ok? {
      FragmentReencode(payload, flags);
      assert EncodeFragment(DecodeFragment(payload, flags).value) == Ok(payload);
    }
    forall f | EncodeFragment(f) == Ok(payload) && f.more == (flags == 1)
      ensures DecodeFragment(payload, flags) == Ok(f)
    {
      FragmentRoundTrip(f);
      FlagsAlike(payload, flags, FlagsOf(f));
    }
  }

  lemma ReadMore(payload: bytes, flags: u32)
    ensures DecodeFragment(payload, flags).Err? ==> DecodeFragment(payload, flags).error == Malformed
    ensures DecodeFragment(payload, flags).Ok? ==> DecodeFragment(payload, flags).value.more == (flags == 1)
  {
  }

  lemma FlagsAlike(payload: bytes, a: u32, b: u32)
    requires (a == 1) == (b == 1)
    ensures DecodeFragment(payload, a) == DecodeFragment(payload, b)
  {
  }

  // -------------------------------------------------------------------- HELLO

  /** What makes a HELLO valid. */
  predicate GoodHello(h: B.Hello) {
    && (exists i :: 0 <= i < 16 && h.clientUuid[i] != 0) && (exists i :: 0 <= i < 16 && h.capabilityNonce[i] != 0)
    && h.streamGeneration != 0 && h.sessionToken != 0 && h.attachmentToken != 0 && h.leaseToken != 0
    && 49 <= h.maxPdu <= 1048576 && 1 <= h.maxInflight <= 4096 && !h.isochronous
  }

  /** HELLO byte by byte, and which are refused. */
  lemma HelloWritten(h: B.Hello)
    ensures B.EncodeHello(h) ==
      if !GoodHello(h) then Err(Malformed)
      else Ok([0x52, 0x55, 0x53, 0x42, 1, 0, 84, 0] + h.clientUuid + Low(h.streamGeneration, 8) + Low(h.sessionToken, 8)
              + Low(h.attachmentToken, 8) + Low(h.leaseToken, 8) + h.capabilityNonce + Low(h.maxPdu, 4)
              + Low(h.maxInflight, 4) + [0, 0, 0, 0])
  {
    LeadWords();
    hide Low, PutU16Le, PutU32Le, PutU64Le;
    WritesLow(h.streamGeneration);
    WritesLow(h.sessionToken);
    WritesLow(h.attachmentToken);
    WritesLow(h.leaseToken);
    WritesLow(h.maxPdu);
    WritesLow(h.maxInflight);
    assert [0x52, 0x55, 0x53, 0x42] + [1, 0] + [84, 0] == [0x52, 0x55, 0x53, 0x42, 1, 0, 84, 0];
    assert B.HelloOk(h) <==> GoodHello(h);
    if GoodHello(h) {
      var front := [0x52, 0x55, 0x53, 0x42, 1, 0, 84, 0] + h.clientUuid + Low(h.streamGeneration, 8)
                   + Low(h.sessionToken, 8) + Low(h.attachmentToken, 8) + Low(h.leaseToken, 8) + h.capabilityNonce
                   + Low(h.maxPdu, 4) + Low(h.maxInflight, 4);
      assert B.PutHello(h) == front + [0] + [0, 0, 0];
      assert front + [0] + [0, 0, 0] == front + [0, 0, 0, 0];
    }
  }

  /** Exactly the bytes some HELLO is written as are read, as that HELLO; others are refused in this order. */
  lemma HelloRead(w: bytes)
    ensures var r := B.DecodeHello(w);
      if |w| != 84 then r == Err(Malformed)
      else if w[0..4] != [0x52, 0x55, 0x53, 0x42] then r == Err(BadMagic)
      else if w[4..6] != [1, 0] then r == Err(VersionMismatch)
      else r.Ok? || r == Err(Malformed)
    ensures B.DecodeHello(w).Ok? <==> exists h :: B.EncodeHello(h) == Ok(w)
    ensures forall h :: B.EncodeHello(h) == Ok(w) ==> B.DecodeHello(w) == Ok(h)
  {
    HelloRefused(w);
    hide B.DecodeHello, B.PutHello, B.HelloOk;
    if B.DecodeHello(w).Ok? {
      B.HelloReencode(w);
      assert B.EncodeHello(B.DecodeHello(w).value) == Ok(w);
    }
    forall h | B.EncodeHello(h) == Ok(w)
      ensures B.DecodeHello(w) == Ok(h)
    {
      B.HelloRoundTrip(h);
    }
  }

  lemma HelloRefused(w: bytes)
    ensures var r := B.DecodeHello(w);
      if |w| != 84 then r == Err(Malformed)
      else if w[0..4] != [0x52, 0x55, 0x53, 0x42] then r == Err(BadMagic)
      else if w[4..6] != [1, 0] then r == Err(VersionMismatch)
      else r.Ok? || r == Err(Malformed)
  {
    hide GetU16Le, GetU32Le, GetU64Le, B.HelloOk;
    if |w| == 84 {
      ReadsLead(w[0..4]);
      ReadsLead(w[4..6]);
    }
  }
}
