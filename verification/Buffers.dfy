/**
 The encoders as the program writes them: a zeroed buffer filled in place from
 front to back, and loops over the records of the variable-length messages. Each
 one yields exactly the bytes, or the refusal, of the codec it implements.
 */
module Buffers {
  import opened Base
  import opened Endian
  import B = Broker
  import W = Wire
  import P = Pdu
  import U = Usbip

  /** A buffer filled up to a position and zero from there on. */
  ghost predicate Filled(buf: array<u8>, at: nat, front: bytes)
    reads buf
  {
    && at <= buf.Length
    && buf[..at] == front
    && forall i :: at <= i < buf.Length ==> buf[i] == 0
  }

  method Zeroed(n: nat) returns (buf: array<u8>)
    ensures fresh(buf) && buf.Length == n && Filled(buf, 0, [])
  {
    buf := new u8[n](_ => 0);
  }

  method Put(buf: array<u8>, at: nat, data: bytes, ghost front: bytes) returns (ghost filled: bytes)
    requires Filled(buf, at, front) && at + |data| <= buf.Length
    modifies buf
    ensures filled == front + data && Filled(buf, at + |data|, filled)
  {
    forall i | 0 <= i < |data| {
      buf[at + i] := data[i];
    }
    filled := front + data;
  }

  // Bytes left alone stay zero.
  lemma Skip(buf: array<u8>, at: nat, n: nat, front: bytes)
    requires Filled(buf, at, front) && at + n <= buf.Length
    ensures Filled(buf, at + n, front + Zeros(n))
  {
  }

  lemma Full(buf: array<u8>, front: bytes)
    requires Filled(buf, buf.Length, front)
    ensures buf[..] == front
  {
  }

  lemma Start(data: bytes)
    ensures [] + data == data
  {
  }

  // ------------------------------------------------------------------- HELLO

  method EncodeHello(h: B.Hello) returns (r: Result<bytes>)
    ensures r == B.EncodeHello(h)
  {
    hide PutU16Le, PutU32Le, PutU64Le, Filled;
    if !B.HelloOk(h) {
      return Err(Malformed);
    }
    var wire := Zeroed(B.HELLO_SIZE);
    ghost var f := Put(wire, 0, PutU32Le(B.MAGIC), []);
    Start(PutU32Le(B.MAGIC));
    f := Put(wire, 4, PutU16Le(B.PROTOCOL_VERSION), f);
    f := Put(wire, 6, PutU16Le(B.HELLO_SIZE), f);
    f := Put(wire, 8, h.clientUuid, f);
    f := Put(wire, 24, PutU64Le(h.streamGeneration), f);
    f := Put(wire, 32, PutU64Le(h.sessionToken), f);
    f := Put(wire, 40, PutU64Le(h.attachmentToken), f);
    f := Put(wire, 48, PutU64Le(h.leaseToken), f);
    f := Put(wire, 56, h.capabilityNonce, f);
    f := Put(wire, 72, PutU32Le(h.maxPdu), f);
    f := Put(wire, 76, PutU32Le(h.maxInflight), f);
    f := Put(wire, 80, [if h.isochronous then 1 else 0], f);
    Skip(wire, 81, 3, f);
    Full(wire, f + Zeros(3));
    AllZeroIsZeros([0, 0, 0]);
    return Ok(wire[..]);
  }

  // ------------------------------------------------------------------ frames

  method EncodeHeader(h: W.FrameHeader) returns (r: Result<bytes>)
    ensures r == W.EncodeHeader(h)
  {
    hide PutU16Le, PutU32Le, PutU64Le, Filled;
    var _ :- W.ValidateHeader(h);
    var wire := Zeroed(W.HEADER_SIZE);
    ghost var f := Put(wire, 0, PutU32Le(W.MAGIC), []);
    Start(PutU32Le(W.MAGIC));
    f := Put(wire, 4, [W.PROTOCOL_VERSION, W.TypeCode(h.messageType)], f);
    f := Put(wire, 6, PutU16Le(W.HEADER_SIZE), f);
    f := Put(wire, 8, PutU32Le(h.flags), f);
    f := Put(wire, 12, PutU32Le(h.payloadLength), f);
    f := Put(wire, 16, PutU64Le(h.sessionToken), f);
    f := Put(wire, 24, PutU64Le(h.sequence), f);
    Full(wire, f);
    return Ok(wire[..]);
  }

  method EncodeFragment(g: W.Fragment) returns (r: Result<bytes>)
    ensures r == W.EncodeFragment(g)
  {
    hide PutU32Le, PutU64Le, Filled;
    if !W.FragmentOk(g) {
      return Err(Malformed);
    }
    var payload := Zeroed(W.FRAGMENT_PREFIX_SIZE + |g.data|);
    ghost var f := Put(payload, 0, PutU64Le(g.leaseToken), []);
    Start(PutU64Le(g.leaseToken));
    f := Put(payload, 8, PutU64Le(g.pduId), f);
    f := Put(payload, 16, PutU32Le(g.totalLength), f);
    f := Put(payload, 20, PutU32Le(g.offset), f);
    f := Put(payload, 24, PutU32Le(|g.data|), f);
    Skip(payload, 28, 4, f);
    f := Put(payload, 32, g.data, f + Zeros(4));
    Full(payload, f);
    return Ok(payload[..]);
  }

  method PutEndpoint(payload: array<u8>, at: nat, e: W.Endpoint, ghost front: bytes) returns (ghost filled: bytes)
    requires Filled(payload, at, front) && at + 8 <= payload.Length
    modifies payload
    ensures filled == front + W.PutEndpoint(e) && Filled(payload, at + 8, filled)
  {
    hide PutU16Le, Filled;
    ghost var f := Put(payload, at, [e.interfaceNumber, e.alternateSetting, e.address, e.attributes], front);
    f := Put(payload, at + 4, PutU16Le(e.maxPacketSize), f);
    f := Put(payload, at + 6, [e.interval], f);
    Skip(payload, at + 7, 1, f);
    filled := f + Zeros(1);
    assert filled == front + W.PutEndpoint(e);
  }

  method PutCapabilityPrefix(payload: array<u8>, c: W.Capability) returns (ghost filled: bytes)
    requires W.CapabilityOk(c) && Filled(payload, 0, []) && W.CAPABILITY_PREFIX_SIZE <= payload.Length
    modifies payload
    ensures filled == W.PutCapabilityPrefix(c) && Filled(payload, W.CAPABILITY_PREFIX_SIZE, filled)
  {
    hide PutU16Le, PutU32Le, PutU64Le, Filled;
    ghost var f := Put(payload, 0, PutU64Le(c.leaseToken), []);
    Start(PutU64Le(c.leaseToken));
    f := Put(payload, 8, PutU64Le(c.attachmentToken), f);
    f := Put(payload, 16, PutU16Le(c.vendorId), f);
    f := Put(payload, 18, PutU16Le(c.productId), f);
    f := Put(payload, 20, PutU16Le(c.deviceBcd), f);
    f := Put(payload, 22, [c.deviceClass, c.deviceSubclass, c.deviceProtocol, |c.busId|], f);
    f := Put(payload, 26, PutU16Le(|c.endpoints|), f);
    Skip(payload, 28, 2, f);
    AllZeroIsZeros([0, 0]);
    f := Put(payload, 30, PutU32Le(|c.rawDescriptors|), f + [0, 0]);
    filled := f;
  }

  method EncodeCapability(c: W.Capability) returns (r: Result<bytes>)
    ensures r == W.EncodeCapability(c)
  {
    hide Filled, W.PutCapabilityPrefix, W.PutEndpoint;
    if !W.CapabilityOk(c) {
      return Err(Malformed);
    }
    var length := W.CapabilityLength(c);
    if length > W.MAX_PAYLOAD {
      return Err(LimitExceeded);
    }
    var payload := Zeroed(length);
    ghost var f := PutCapabilityPrefix(payload, c);
    var offset := W.CAPABILITY_PREFIX_SIZE;
    f := Put(payload, offset, c.busId, f);
    offset := offset + |c.busId|;
    f := Put(payload, offset, c.rawDescriptors, f);
    offset := offset + |c.rawDescriptors|;
    ghost var before := f;
    assert before + [] == before;
    for i := 0 to |c.endpoints|
      invariant offset == W.CAPABILITY_PREFIX_SIZE + |c.busId| + |c.rawDescriptors| + 8 * i
      invariant fresh(payload) && payload.Length == length
      invariant f == before + W.PutEndpoints(c.endpoints[..i]) && Filled(payload, offset, f)
    {
      f := PutEndpoint(payload, offset, c.endpoints[i], f);
      offset := offset + 8;
      assert c.endpoints[..i + 1][..i] == c.endpoints[..i];
      assert f == before + (W.PutEndpoints(c.endpoints[..i]) + W.PutEndpoint(c.endpoints[i]));
    }
    assert c.endpoints[..|c.endpoints|] == c.endpoints;
    Full(payload, f);
    return Ok(payload[..]);
  }

  // An endpoint record that is bad spoils every longer list.
  lemma {:induction false} BadEndpoint(s: bytes, k: nat, n: nat)
    requires k <= n && 8 * n <= |s| && W.DecodeEndpoints(s, k).Err?
    ensures W.DecodeEndpoints(s, n) == Err(Malformed)
    decreases n
  {
    if k < n {
      BadEndpoint(s, k, n - 1);
    } else {
      if W.DecodeEndpoints(s, n - 1).Err? {
        BadEndpoint(s, n - 1, n - 1);
      }
    }
  }

  method DecodeCapability(payload: bytes) returns (r: Result<W.Capability>)
    ensures r == W.DecodeCapability(payload)
  {
    hide GetU16Le, GetU32Le, GetU64Le;
    if |payload| < W.CAPABILITY_PREFIX_SIZE || !AllZero(payload[28..30]) {
      return Err(Malformed);
    }
    var busEnd: nat := W.CAPABILITY_PREFIX_SIZE + payload[25];
    var count: nat := GetU16Le(payload[26..28]);
    var rawEnd: nat := busEnd + GetU32Le(payload[30..34]);
    if |payload| != rawEnd + 8 * count {
      return Err(Malformed);
    }
    ghost var records := payload[rawEnd..];
    var endpoints: seq<W.Endpoint> := [];
    for i := 0 to count
      invariant W.DecodeEndpoints(records, i) == Ok(endpoints)
    {
      var offset := rawEnd + 8 * i;
      assert payload[offset..offset + 8] == records[8 * i..8 * (i + 1)];
      var record := W.DecodeEndpoint(payload[offset..offset + 8]);
      if record.Err? {
        BadEndpoint(records, i + 1, count);
        return Err(Malformed);
      }
      endpoints := endpoints + [record.value];
    }
    var c := W.Capability(GetU64Le(payload[0..8]), GetU64Le(payload[8..16]),
                          GetU16Le(payload[16..18]), GetU16Le(payload[18..20]), GetU16Le(payload[20..22]),
                          payload[22], payload[23], payload[24],
                          payload[W.CAPABILITY_PREFIX_SIZE..busEnd], payload[busEnd..rawEnd], endpoints);
    return if W.CapabilityOk(c) then Ok(c) else Err(Malformed);
  }

  // --------------------------------------------------------------- transfers

  method PutCommon(wire: array<u8>, command: u32, seqnum: u32, deviceId: u32, direction: P.Direction, endpoint: u32)
    returns (ghost filled: bytes)
    requires Filled(wire, 0, []) && 20 <= wire.Length
    modifies wire
    ensures filled == P.PutCommon(command, seqnum, deviceId, direction, endpoint) && Filled(wire, 20, filled)
  {
    hide PutU32Be, Filled;
    filled := Put(wire, 0, PutU32Be(command), []);
    Start(PutU32Be(command));
    filled := Put(wire, 4, PutU32Be(seqnum), filled);
    filled := Put(wire, 8, PutU32Be(deviceId), filled);
    filled := Put(wire, 12, PutU32Be(P.DirectionCode(direction)), filled);
    filled := Put(wire, 16, PutU32Be(endpoint), filled);
  }

  method EncodeSubmit(q: P.SubmitRequest) returns (r: Result<bytes>)
    ensures r == P.EncodeSubmit(q)
  {
    hide PutU32Be, PutI32Be, Filled, P.PutCommon;
    if !P.CommonOk(q.seqnum, q.endpoint) {
      return Err(Malformed);
    }
    if q.transferBufferLength > P.MAX_TRANSFER_SIZE
       || |q.data| != P.SubmitDataLength(q.direction, q.transferBufferLength) {
      return Err(Malformed);
    }
    var wire := Zeroed(P.HEADER_SIZE + |q.data|);
    ghost var f := PutCommon(wire, P.CMD_SUBMIT, q.seqnum, q.deviceId, q.direction, q.endpoint);
    f := Put(wire, 20, PutU32Be(q.transferFlags), f);
    f := Put(wire, 24, PutU32Be(q.transferBufferLength), f);
    f := Put(wire, 28, PutI32Be(q.startFrame), f);
    f := Put(wire, 32, PutI32Be(P.NON_ISO_PACKETS), f);
    f := Put(wire, 36, PutI32Be(q.interval), f);
    f := Put(wire, 40, q.setup, f);
    f := Put(wire, 48, q.data, f);
    Full(wire, f);
    return Ok(wire[..]);
  }

  method EncodeUnlink(q: P.UnlinkRequest) returns (r: Result<bytes>)
    ensures r == P.EncodeUnlink(q)
  {
    hide PutU32Be, Filled, P.PutCommon;
    if !P.CommonOk(q.seqnum, q.endpoint) {
      return Err(Malformed);
    }
    if q.targetSeqnum == 0 {
      return Err(Malformed);
    }
    var wire := Zeroed(P.HEADER_SIZE);
    ghost var f := PutCommon(wire, P.CMD_UNLINK, q.seqnum, q.deviceId, q.direction, q.endpoint);
    f := Put(wire, 20, PutU32Be(q.targetSeqnum), f);
    Skip(wire, 24, 24, f);
    Full(wire, f + Zeros(24));
    return Ok(wire[..]);
  }

  method EncodeSubmitReply(q: P.SubmitReply) returns (r: Result<bytes>)
    ensures r == P.EncodeSubmitReply(q)
  {
    hide PutU32Be, PutI32Be, Filled;
    if q.seqnum == 0 || q.actualLength > P.MAX_TRANSFER_SIZE
       || |q.data| != (if q.direction.In? then q.actualLength else 0) {
      return Err(Malformed);
    }
    var wire := Zeroed(P.HEADER_SIZE + |q.data|);
    ghost var f := Put(wire, 0, PutU32Be(P.RET_SUBMIT), []);
    Start(PutU32Be(P.RET_SUBMIT));
    f := Put(wire, 4, PutU32Be(q.seqnum), f);
    Skip(wire, 8, 12, f);
    f := Put(wire, 20, PutI32Be(q.status), f + Zeros(12));
    f := Put(wire, 24, PutU32Be(q.actualLength), f);
    f := Put(wire, 28, PutI32Be(q.startFrame), f);
    f := Put(wire, 32, PutI32Be(P.NON_ISO_PACKETS), f);
    f := Put(wire, 36, PutI32Be(q.errorCount), f);
    Skip(wire, 40, 8, f);
    f := Put(wire, 48, q.data, f + Zeros(8));
    Full(wire, f);
    return Ok(wire[..]);
  }

  method EncodeUnlinkReply(q: P.UnlinkReply) returns (r: Result<bytes>)
    ensures r == P.EncodeUnlinkReply(q)
  {
    hide PutU32Be, PutI32Be, Filled;
    if q.seqnum == 0 {
      return Err(Malformed);
    }
    var wire := Zeroed(P.HEADER_SIZE);
    ghost var f := Put(wire, 0, PutU32Be(P.RET_UNLINK), []);
    Start(PutU32Be(P.RET_UNLINK));
    f := Put(wire, 4, PutU32Be(q.seqnum), f);
    Skip(wire, 8, 12, f);
    f := Put(wire, 20, PutI32Be(q.status), f + Zeros(12));
    Skip(wire, 24, 24, f);
    Full(wire, f + Zeros(24));
    return Ok(wire[..]);
  }

  // ----------------------------------------------------------------- control

  method EncodeDevice(d: U.Device) returns (r: Result<bytes>)
    ensures r == U.EncodeDevice(d)
  {
    hide PutU16Be, PutU32Be, Filled;
    if !U.DeviceOk(d) {
      return Err(Malformed);
    }
    var wire := Zeroed(U.DEVICE_SIZE);
    ghost var f := Put(wire, 0, d.path, []);
    Start(d.path);
    Skip(wire, |d.path|, U.PATH_SIZE - |d.path|, f);
    f := f + Zeros(U.PATH_SIZE - |d.path|);
    f := Put(wire, 256, d.busId, f);
    Skip(wire, 256 + |d.busId|, U.BUS_ID_SIZE - |d.busId|, f);
    f := f + Zeros(U.BUS_ID_SIZE - |d.busId|);
    assert f == U.PutField(d.path, U.PATH_SIZE) + U.PutField(d.busId, U.BUS_ID_SIZE);
    hide U.PutField;
    f := Put(wire, 288, PutU32Be(d.busNumber), f);
    f := Put(wire, 292, PutU32Be(d.deviceNumber), f);
    f := Put(wire, 296, PutU32Be(d.speed), f);
    f := Put(wire, 300, PutU16Be(d.vendorId), f);
    f := Put(wire, 302, PutU16Be(d.productId), f);
    f := Put(wire, 304, PutU16Be(d.deviceBcd), f);
    f := Put(wire, 306, [d.deviceClass, d.deviceSubclass, d.deviceProtocol,
                         d.configurationValue, d.configurationCount, d.interfaceCount], f);
    Full(wire, f);
    return Ok(wire[..]);
  }

  // A record that cannot be written spoils every longer list.
  lemma {:induction false} BadRecord(records: seq<U.DeviceRecord>, k: nat)
    requires k <= |records| && U.EncodeRecords(records[..k]).Err?
    ensures U.EncodeRecords(records) == Err(Malformed)
    decreases |records|
  {
    hide U.RecordOk, U.PutRecord;
    if k == |records| {
      assert records[..k] == records;
    } else {
      assert records[..|records| - 1][..k] == records[..k];
      BadRecord(records[..|records| - 1], k);
    }
  }

  /** The device list, grown record by record and interface by interface. */
  method EncodeRecords(records: seq<U.DeviceRecord>) returns (r: Result<bytes>)
    ensures r == U.EncodeRecords(records)
  {
    hide U.PutDevice, U.PutInterface, U.DeviceOk;
    var wire: bytes := [];
    for i := 0 to |records|
      invariant U.EncodeRecords(records[..i]) == Ok(wire)
    {
      var record := records[i];
      ghost var before := wire;
      assert records[..i + 1][..i] == records[..i];
      if |record.interfaces| != record.device.interfaceCount {
        BadRecord(records, i + 1);
        return Err(Malformed);
      }
      var device := EncodeDevice(record.device);
      if device.Err? {
        BadRecord(records, i + 1);
        return Err(Malformed);
      }
      wire := wire + device.value;
      assert wire == before + device.value + U.PutInterfaces([]);
      for j := 0 to |record.interfaces|
        invariant wire == before + device.value + U.PutInterfaces(record.interfaces[..j])
      {
        var entry := record.interfaces[j];
        wire := wire + [entry.class_, entry.subclass, entry.protocol, 0];
        InterfaceNext(before + device.value, record.interfaces, j);
      }
      assert record.interfaces[..|record.interfaces|] == record.interfaces;
      assert wire == before + U.PutRecord(record);
    }
    assert records[..|records|] == records;
    return Ok(wire);
  }

  lemma InterfaceNext(front: bytes, list: seq<U.Interface>, j: nat)
    requires j < |list|
    ensures front + U.PutInterfaces(list[..j + 1])
         == front + U.PutInterfaces(list[..j]) + [list[j].class_, list[j].subclass, list[j].protocol, 0]
  {
    assert list[..j + 1][..j] == list[..j];
  }

  method EncodeControlReply(q: U.ControlReply) returns (r: Result<bytes>)
    ensures r == U.EncodeReply(q)
  {
    hide U.EncodeRecords, U.EncodeCommon, U.EncodeDevice;
    match q
    case DeviceListReply(status, devices) =>
      if status != 0 {
        return U.EncodeCommon(U.Common(U.OP_REP_DEVLIST, status));
      }
      if |devices| > U.MAX_DEVICES {
        return Err(LimitExceeded);
      }
      var common :- U.EncodeCommon(U.Common(U.OP_REP_DEVLIST, 0));
      var wire := common + PutU32Be(|devices|);
      var records :- EncodeRecords(devices);
      wire := wire + records;
      return if |wire| > U.MAX_LIST_SIZE then Err(LimitExceeded) else Ok(wire);
    case ImportReply(status, device) =>
      if (status == 0) != device.Some? {
        return Err(Malformed);
      }
      var wire :- U.EncodeCommon(U.Common(U.OP_REP_IMPORT, status));
      if device.Some? {
        var body :- EncodeDevice(device.value);
        wire := wire + body;
      }
      return Ok(wire);
  }

  // An interface that cannot be read spoils every longer list.
  lemma {:induction false} BadInterface(s: bytes, k: nat, n: nat)
    requires k <= n && U.INTERFACE_SIZE * n <= |s| && U.DecodeInterfaces(s, k).Err?
    ensures U.DecodeInterfaces(s, n) == U.DecodeInterfaces(s, k)
    decreases n
  {
    if k < n {
      BadInterface(s, k, n - 1);
    }
  }

  method DecodeInterfaces(s: bytes, n: nat) returns (r: Result<seq<U.Interface>>)
    requires |s| == U.INTERFACE_SIZE * n
    ensures r == U.DecodeInterfaces(s, n)
  {
    var list: seq<U.Interface> := [];
    for i := 0 to n
      invariant U.DecodeInterfaces(s, i) == Ok(list)
    {
      var entry := U.DecodeInterface(s[U.INTERFACE_SIZE * i..U.INTERFACE_SIZE * (i + 1)]);
      if entry.Err? {
        BadInterface(s, i + 1, n);
        return Err(entry.error);
      }
      list := list + [entry.value];
    }
    return Ok(list);
  }

  // A record that cannot be read spoils every longer list.
  lemma {:induction false} UnreadableRecord(wire: bytes, start: nat, k: nat, n: nat)
    requires start <= |wire| && k <= n && U.DecodeRecords(wire, start, k).Err?
    ensures U.DecodeRecords(wire, start, n) == Err(U.DecodeRecords(wire, start, k).error)
    decreases n
  {
    hide U.DecodeRecord;
    if k < n {
      UnreadableRecord(wire, start, k, n - 1);
    }
  }

  method DecodeRecord(wire: bytes, at: nat) returns (r: Result<(U.DeviceRecord, nat)>)
    requires at <= |wire|
    ensures r == U.DecodeRecord(wire, at)
  {
    hide U.DecodeDevice, U.DecodeInterfaces;
    var offset := at;
    if offset + U.DEVICE_SIZE > |wire| {
      return Err(Malformed);
    }
    var device :- U.DecodeDevice(wire[offset..offset + U.DEVICE_SIZE]);
    offset := offset + U.DEVICE_SIZE;
    var end := offset + U.INTERFACE_SIZE * device.interfaceCount;
    if end > |wire| {
      return Err(Malformed);
    }
    var interfaces :- DecodeInterfaces(wire[offset..end], device.interfaceCount);
    return Ok((U.DeviceRecord(device, interfaces), end));
  }

  /** Reading a reply, with an offset that moves through the device list record by record. */
  method DecodeControlReply(wire: bytes) returns (r: Result<U.ControlReply>)
    ensures r == U.DecodeReply(wire)
  {
    hide U.DecodeRecord, U.DecodeCommon, U.DecodeDevice, GetU32Be;
    var common :- U.DecodeCommon(wire);
    if common.code == U.OP_REP_IMPORT {
      if common.status == 0 {
        if |wire| != U.COMMON_SIZE + U.DEVICE_SIZE {
          return Err(Malformed);
        }
        var device :- U.DecodeDevice(wire[U.COMMON_SIZE..]);
        return Ok(U.ImportReply(0, Some(device)));
      }
      return if |wire| == U.COMMON_SIZE then Ok(U.ImportReply(common.status, None)) else Err(Malformed);
    }
    if common.code != U.OP_REP_DEVLIST {
      return Err(Unsupported);
    }
    if common.status != 0 {
      return if |wire| == U.COMMON_SIZE then Ok(U.DeviceListReply(common.status, [])) else Err(Malformed);
    }
    if |wire| < U.COMMON_SIZE + 4 || |wire| > U.MAX_LIST_SIZE {
      return Err(Malformed);
    }
    var count := GetU32Be(wire[8..12]);
    if count > U.MAX_DEVICES {
      return Err(LimitExceeded);
    }
    var offset := 12;
    var devices: seq<U.DeviceRecord> := [];
    for i := 0 to count
      invariant offset <= |wire|
      invariant U.DecodeRecords(wire, 12, i) == Ok((devices, offset))
    {
      var record := DecodeRecord(wire, offset);
      if record.Err? {
        UnreadableRecord(wire, 12, i + 1, count);
        return Err(record.error);
      }
      devices, offset := devices + [record.value.0], record.value.1;
    }
    return if offset != |wire| then Err(Malformed) else Ok(U.DeviceListReply(0, devices));
  }
}
