/** The USB/IP control messages: device lists and imports. */
module Usbip {
  import opened Base
  import opened Endian
  import Pdu

  const VERSION: u16 := 0x0111
  const OP_REQ_IMPORT: u16 := 0x8003
  const OP_REP_IMPORT: u16 := 0x0003
  const OP_REQ_DEVLIST: u16 := 0x8005
  const OP_REP_DEVLIST: u16 := 0x0005
  const COMMON_SIZE: nat := 8
  const BUS_ID_SIZE: nat := 32
  const PATH_SIZE: nat := 256
  const DEVICE_SIZE: nat := 312
  const INTERFACE_SIZE: nat := 4
  const MAX_DEVICES: nat := 1024
  const MAX_LIST_SIZE: nat := 4 * 1024 * 1024

  // -------------------------------------------------------------------- text

  predicate Tail(b: u8) {
    0x80 <= b <= 0xBF
  }

  /** Well-formed UTF-8, as in table 3-7 of the Unicode standard. */
  predicate Utf8(s: bytes) {
    if |s| == 0 then true
    else if s[0] < 0x80 then Utf8(s[1..])
    else if |s| >= 2 && 0xC2 <= s[0] <= 0xDF && Tail(s[1]) then Utf8(s[2..])
    else if |s| >= 3 && 0xE0 <= s[0] <= 0xEF && Tail(s[1]) && Tail(s[2])
         && (s[0] == 0xE0 ==> s[1] >= 0xA0) && (s[0] == 0xED ==> s[1] <= 0x9F) then Utf8(s[3..])
    else if |s| >= 4 && 0xF0 <= s[0] <= 0xF4 && Tail(s[1]) && Tail(s[2]) && Tail(s[3])
         && (s[0] == 0xF0 ==> s[1] >= 0x90) && (s[0] == 0xF4 ==> s[1] <= 0x8F) then Utf8(s[4..])
    else false
  }

  type Text = s: bytes | Utf8(s) witness []

  predicate FieldOk(value: Text, capacity: nat) {
    value != [] && |value| < capacity && 0 !in value
  }

  function PutField(value: Text, capacity: nat): (s: bytes)
    requires |value| <= capacity
    ensures |s| == capacity
  {
    value + Zeros(capacity - |value|)
  }

  // The position of the first zero byte, or the length if there is none.
  function FirstZero(s: bytes): (n: nat)
    ensures n <= |s|
    ensures forall i :: 0 <= i < n ==> s[i] != 0
    ensures n < |s| ==> s[n] == 0
  {
    if s == [] || s[0] == 0 then 0 else 1 + FirstZero(s[1..])
  }

  function DecodeField(s: bytes): Result<Text> {
    var end := FirstZero(s);
    if end == 0 || !AllZero(s[end..]) then Err(Malformed)
    else if Utf8(s[..end]) then Ok(s[..end])
    else Err(Malformed)
  }

  lemma FieldRoundTrip(value: Text, capacity: nat)
    requires FieldOk(value, capacity)
    ensures DecodeField(PutField(value, capacity)) == Ok(value)
  {
    var s := PutField(value, capacity);
    var end := FirstZero(s);
    assert s[|value|] == 0;
    assert forall i :: 0 <= i < |value| ==> s[i] == value[i];
    assert end == |value|;
    assert s[..end] == value;
  }

  // ------------------------------------------------------------------ common

  datatype Common = Common(code: u16, status: u32)

  predicate KnownCode(code: u16) {
    code == OP_REQ_IMPORT || code == OP_REP_IMPORT || code == OP_REQ_DEVLIST || code == OP_REP_DEVLIST
  }

  function PutCommon(c: Common): (s: bytes)
    ensures |s| == COMMON_SIZE
  {
    PutU16Be(VERSION) + PutU16Be(c.code) + PutU32Be(c.status)
  }

  function EncodeCommon(c: Common): Result<bytes> {
    if !KnownCode(c.code) || c.status > 5 then Err(Malformed) else Ok(PutCommon(c))
  }

  function DecodeCommon(wire: bytes): Result<Common> {
    if |wire| < COMMON_SIZE then Err(Malformed)
    else if GetU16Be(wire[0..2]) != VERSION then Err(VersionMismatch)
    else
      var c := Common(GetU16Be(wire[2..4]), GetU32Be(wire[4..8]));
      if !KnownCode(c.code) || c.status > 5 then Err(Malformed) else Ok(c)
  }

  lemma CommonRoundTrip(c: Common, rest: bytes)
    requires EncodeCommon(c).Ok?
    ensures DecodeCommon(PutCommon(c) + rest) == Ok(c)
    ensures GetU16Be((PutCommon(c) + rest)[..2]) == VERSION
  {
    hide PutU16Be, GetU16Be, PutU32Be, GetU32Be;
    var w := PutCommon(c) + rest;
    assert w[0..2] == w[..2] == PutU16Be(VERSION);
    assert w[2..4] == PutU16Be(c.code);
    assert w[4..8] == PutU32Be(c.status);
    U16Be(VERSION);
    U16Be(c.code);
    U32Be(c.status);
  }

  // ---------------------------------------------------------------- requests

  datatype ControlRequest = DeviceListRequest | ImportRequest(busId: Text)

  function EncodeRequest(r: ControlRequest): Result<bytes> {
    match r
    case DeviceListRequest => EncodeCommon(Common(OP_REQ_DEVLIST, 0))
    case ImportRequest(busId) =>
      if !FieldOk(busId, BUS_ID_SIZE) then Err(Malformed)
      else
        var common :- EncodeCommon(Common(OP_REQ_IMPORT, 0));
        Ok(common + PutField(busId, BUS_ID_SIZE))
  }

  function DecodeRequest(wire: bytes): Result<ControlRequest> {
    var c :- DecodeCommon(wire);
    if c.status != 0 then Err(Malformed)
    else if c.code == OP_REQ_DEVLIST && |wire| == COMMON_SIZE then Ok(DeviceListRequest)
    else if c.code == OP_REQ_DEVLIST && |wire| == COMMON_SIZE + 4 && AllZero(wire[8..12]) then Ok(DeviceListRequest)
    else if c.code == OP_REQ_IMPORT && |wire| == COMMON_SIZE + BUS_ID_SIZE then
      var busId :- DecodeField(wire[COMMON_SIZE..]);
      if FieldOk(busId, BUS_ID_SIZE) then Ok(ImportRequest(busId)) else Err(Malformed)
    else Err(Malformed)
  }

  lemma ControlRequestRoundTrip(r: ControlRequest)
    requires EncodeRequest(r).Ok?
    ensures DecodeRequest(EncodeRequest(r).value) == Ok(r)
  {
    match r
    case DeviceListRequest =>
      var c := Common(OP_REQ_DEVLIST, 0);
      CommonRoundTrip(c, []);
      assert PutCommon(c) + [] == PutCommon(c);
    case ImportRequest(busId) =>
      var c := Common(OP_REQ_IMPORT, 0);
      CommonRoundTrip(c, PutField(busId, BUS_ID_SIZE));
      Seam(PutCommon(c), PutField(busId, BUS_ID_SIZE));
      FieldRoundTrip(busId, BUS_ID_SIZE);
  }

  // ----------------------------------------------------------------- devices

  datatype Device = Device(
    path: Text,
    busId: Text,
    busNumber: u32,
    deviceNumber: u32,
    speed: u32,
    vendorId: u16,
    productId: u16,
    deviceBcd: u16,
    deviceClass: u8,
    deviceSubclass: u8,
    deviceProtocol: u8,
    configurationValue: u8,
    configurationCount: u8,
    interfaceCount: u8)

  predicate DeviceOk(d: Device) {
    FieldOk(d.path, PATH_SIZE) && FieldOk(d.busId, BUS_ID_SIZE)
  }

  function PutDevice(d: Device): (s: bytes)
    requires DeviceOk(d)
    ensures |s| == DEVICE_SIZE
  {
    PutField(d.path, PATH_SIZE) + PutField(d.busId, BUS_ID_SIZE)
    + PutU32Be(d.busNumber) + PutU32Be(d.deviceNumber) + PutU32Be(d.speed)
    + PutU16Be(d.vendorId) + PutU16Be(d.productId) + PutU16Be(d.deviceBcd)
    + [d.deviceClass, d.deviceSubclass, d.deviceProtocol,
       d.configurationValue, d.configurationCount, d.interfaceCount]
  }

  function EncodeDevice(d: Device): Result<bytes> {
    if DeviceOk(d) then Ok(PutDevice(d)) else Err(Malformed)
  }

  function DecodeDevice(wire: bytes): Result<Device> {
    if |wire| != DEVICE_SIZE then Err(Malformed)
    else
      var path :- DecodeField(wire[..256]);
      var busId :- DecodeField(wire[256..288]);
      Ok(Device(path, busId, GetU32Be(wire[288..292]), GetU32Be(wire[292..296]), GetU32Be(wire[296..300]),
                GetU16Be(wire[300..302]), GetU16Be(wire[302..304]), GetU16Be(wire[304..306]),
                wire[306], wire[307], wire[308], wire[309], wire[310], wire[311]))
  }

  lemma DeviceRoundTrip(d: Device)
    requires DeviceOk(d)
    ensures DecodeDevice(PutDevice(d)) == Ok(d)
  {
    hide PutU16Be, GetU16Be, PutU32Be, GetU32Be, PutField, DecodeField;
    var w := PutDevice(d);
    assert w[..256] == PutField(d.path, PATH_SIZE);
    assert w[256..288] == PutField(d.busId, BUS_ID_SIZE);
    assert w[288..292] == PutU32Be(d.busNumber);
    assert w[292..296] == PutU32Be(d.deviceNumber);
    assert w[296..300] == PutU32Be(d.speed);
    assert w[300..302] == PutU16Be(d.vendorId);
    assert w[302..304] == PutU16Be(d.productId);
    assert w[304..306] == PutU16Be(d.deviceBcd);
    FieldRoundTrip(d.path, PATH_SIZE);
    FieldRoundTrip(d.busId, BUS_ID_SIZE);
    U32Be(d.busNumber);
    U32Be(d.deviceNumber);
    U32Be(d.speed);
    U16Be(d.vendorId);
    U16Be(d.productId);
    U16Be(d.deviceBcd);
  }

  // -------------------------------------------------------------- interfaces

  datatype Interface = Interface(class_: u8, subclass: u8, protocol: u8)

  function PutInterface(i: Interface): (s: bytes)
    ensures |s| == INTERFACE_SIZE
  {
    [i.class_, i.subclass, i.protocol, 0]
  }

  function DecodeInterface(s: bytes): Result<Interface> {
    if |s| != INTERFACE_SIZE || s[3] != 0 then Err(Malformed) else Ok(Interface(s[0], s[1], s[2]))
  }

  function PutInterfaces(list: seq<Interface>): (s: bytes)
    ensures |s| == INTERFACE_SIZE * |list|
  {
    if list == [] then [] else PutInterfaces(list[..|list| - 1]) + PutInterface(list[|list| - 1])
  }

  // The first n interface records of a buffer.
  function DecodeInterfaces(s: bytes, n: nat): (r: Result<seq<Interface>>)
    requires INTERFACE_SIZE * n <= |s|
    ensures r.Ok? ==> |r.value| == n
  {
    if n == 0 then Ok([])
    else
      var front :- DecodeInterfaces(s, n - 1);
      var last :- DecodeInterface(s[INTERFACE_SIZE * (n - 1)..INTERFACE_SIZE * n]);
      Ok(front + [last])
  }

  lemma InterfacesStep(s: bytes, n: nat, front: seq<Interface>, last: Interface)
    requires INTERFACE_SIZE * n + INTERFACE_SIZE <= |s|
    requires DecodeInterfaces(s, n) == Ok(front)
    requires s[INTERFACE_SIZE * n..INTERFACE_SIZE * n + INTERFACE_SIZE] == PutInterface(last)
    ensures DecodeInterfaces(s, n + 1) == Ok(front + [last])
  {
    assert s[INTERFACE_SIZE * (n + 1 - 1)..INTERFACE_SIZE * (n + 1)]
        == s[INTERFACE_SIZE * n..INTERFACE_SIZE * n + INTERFACE_SIZE];
  }

  lemma {:induction false} InterfacesRoundTrip(list: seq<Interface>, rest: bytes)
    ensures DecodeInterfaces(PutInterfaces(list) + rest, |list|) == Ok(list)
  {
    if list != [] {
      var n := |list| - 1;
      var last := PutInterface(list[n]);
      assert PutInterfaces(list) == PutInterfaces(list[..n]) + last;
      hide PutInterface, DecodeInterface, PutInterfaces, DecodeInterfaces;
      InterfacesRoundTrip(list[..n], last + rest);
      var s := PutInterfaces(list) + rest;
      assert s == PutInterfaces(list[..n]) + (last + rest);
      InterfacesStep(s, n, list[..n], list[n]);
      assert list == list[..n] + [list[n]];
    }
  }

  // ----------------------------------------------------------------- replies

  datatype DeviceRecord = DeviceRecord(device: Device, interfaces: seq<Interface>)

  datatype ControlReply =
    | DeviceListReply(status: u32, devices: seq<DeviceRecord>)
    | ImportReply(status: u32, device: Option<Device>)

  predicate RecordOk(r: DeviceRecord) {
    |r.interfaces| == r.device.interfaceCount && DeviceOk(r.device)
  }

  function PutRecord(r: DeviceRecord): (s: bytes)
    requires RecordOk(r)
    ensures |s| == DEVICE_SIZE + INTERFACE_SIZE * |r.interfaces|
  {
    PutDevice(r.device) + PutInterfaces(r.interfaces)
  }

  // Records are appended one by one; the first bad one refuses the list.
  function EncodeRecords(records: seq<DeviceRecord>): (r: Result<bytes>)
    ensures r.Ok? <==> forall i :: 0 <= i < |records| ==> RecordOk(records[i])
    ensures r.Err? ==> r.error == Malformed
    ensures r.Ok? ==> |r.value| <= |records| * (DEVICE_SIZE + 255 * INTERFACE_SIZE)
  {
    if records == [] then Ok([])
    else
      var front :- EncodeRecords(records[..|records| - 1]);
      if RecordOk(records[|records| - 1]) then Ok(front + PutRecord(records[|records| - 1])) else Err(Malformed)
  }

  function EncodeReply(r: ControlReply): Result<bytes> {
    match r
    case DeviceListReply(status, devices) =>
      if status != 0 then EncodeCommon(Common(OP_REP_DEVLIST, status))
      else if |devices| > MAX_DEVICES then Err(LimitExceeded)
      else
        var common :- EncodeCommon(Common(OP_REP_DEVLIST, 0));
        var records :- EncodeRecords(devices);
        var wire := common + PutU32Be(|devices|) + records;
        if |wire| > MAX_LIST_SIZE then Err(LimitExceeded) else Ok(wire)
    case ImportReply(status, device) =>
      if (status == 0) != device.Some? then Err(Malformed)
      else
        var common :- EncodeCommon(Common(OP_REP_IMPORT, status));
        if device.None? then Ok(common)
        else
          var body :- EncodeDevice(device.value);
          Ok(common + body)
  }

  function DecodeRecord(wire: bytes, offset: nat): (r: Result<(DeviceRecord, nat)>)
    requires offset <= |wire|
    ensures r.Ok? ==> offset < r.value.1 <= |wire|
  {
    if offset + DEVICE_SIZE > |wire| then Err(Malformed)
    else
      var device :- DecodeDevice(wire[offset..offset + DEVICE_SIZE]);
      var start := offset + DEVICE_SIZE;
      var end := start + INTERFACE_SIZE * device.interfaceCount;
      if end > |wire| then Err(Malformed)
      else
        var interfaces :- DecodeInterfaces(wire[start..end], device.interfaceCount);
        Ok((DeviceRecord(device, interfaces), end))
  }

  // n records from an offset on, and the offset after them.
  function DecodeRecords(wire: bytes, offset: nat, n: nat): (r: Result<(seq<DeviceRecord>, nat)>)
    requires offset <= |wire|
    ensures r.Ok? ==> |r.value.0| == n && offset <= r.value.1 <= |wire|
  {
    if n == 0 then Ok(([], offset))
    else
      var (front, mid) :- DecodeRecords(wire, offset, n - 1);
      var (last, end) :- DecodeRecord(wire, mid);
      Ok((front + [last], end))
  }

  function DecodeReply(wire: bytes): Result<ControlReply> {
    var c :- DecodeCommon(wire);
    if c.code == OP_REP_IMPORT then
      if c.status == 0 then
        if |wire| != COMMON_SIZE + DEVICE_SIZE then Err(Malformed)
        else
          var device :- DecodeDevice(wire[COMMON_SIZE..]);
          Ok(ImportReply(0, Some(device)))
      else if |wire| == COMMON_SIZE then Ok(ImportReply(c.status, None))
      else Err(Malformed)
    else if c.code == OP_REP_DEVLIST then
      if c.status != 0 then
        if |wire| == COMMON_SIZE then Ok(DeviceListReply(c.status, [])) else Err(Malformed)
      else if |wire| < COMMON_SIZE + 4 || |wire| > MAX_LIST_SIZE then Err(Malformed)
      else
        var count := GetU32Be(wire[8..12]);
        if count > MAX_DEVICES then Err(LimitExceeded)
        else
          var (devices, end) :- DecodeRecords(wire, 12, count);
          if end != |wire| then Err(Malformed) else Ok(DeviceListReply(0, devices))
    else Err(Unsupported)
  }

  lemma RecordRoundTrip(before: bytes, r: DeviceRecord, rest: bytes)
    requires RecordOk(r)
    ensures DecodeRecord(before + PutRecord(r) + rest, |before|) == Ok((r, |before| + |PutRecord(r)|))
  {
    hide PutDevice, DecodeDevice, PutInterfaces, DecodeInterfaces, DeviceOk;
    var wire := before + PutRecord(r) + rest;
    var start := |before| + DEVICE_SIZE;
    var end := start + INTERFACE_SIZE * |r.interfaces|;
    assert wire[|before|..start] == PutDevice(r.device);
    assert wire[start..end] == PutInterfaces(r.interfaces);
    DeviceRoundTrip(r.device);
    InterfacesRoundTrip(r.interfaces, []);
    assert PutInterfaces(r.interfaces) + [] == PutInterfaces(r.interfaces);
  }

  lemma {:induction false} RecordsRoundTrip(before: bytes, records: seq<DeviceRecord>, rest: bytes)
    requires EncodeRecords(records).Ok?
    ensures var body := EncodeRecords(records).value;
      DecodeRecords(before + body + rest, |before|, |records|) == Ok((records, |before| + |body|))
  {
    hide PutRecord, DecodeRecord, RecordOk;
    var body := EncodeRecords(records).value;
    if records != [] {
      var n := |records| - 1;
      var front := EncodeRecords(records[..n]).value;
      var last := PutRecord(records[n]);
      RecordsRoundTrip(before, records[..n], last + rest);
      assert before + body + rest == before + front + (last + rest);
      RecordRoundTrip(before + front, records[n], rest);
      assert before + body + rest == before + front + last + rest;
      assert records == records[..n] + [records[n]];
    }
  }

  /** The 4 MiB check never refuses a list: 1024 records of the longest kind fit. */
  lemma ListAlwaysFits(r: ControlReply)
    requires r.DeviceListReply? && r.status == 0
    ensures EncodeReply(r).Ok? <==>
      |r.devices| <= MAX_DEVICES && forall i :: 0 <= i < |r.devices| ==> RecordOk(r.devices[i])
  {
    var body := EncodeRecords(r.devices);
    if body.Ok? && |r.devices| <= MAX_DEVICES {
      assert |body.value| <= MAX_DEVICES * (DEVICE_SIZE + 255 * INTERFACE_SIZE);
    }
  }

  // A reply that reports a failure says nothing else.
  predicate Plain(r: ControlReply) {
    r.DeviceListReply? && r.status != 0 ==> r.devices == []
  }

  /** Every reply that encodes decodes to itself, and the decoder consumes its bytes to the last. */
  lemma ControlReplyRoundTrip(r: ControlReply)
    requires Plain(r) && EncodeReply(r).Ok?
    ensures DecodeReply(EncodeReply(r).value) == Ok(r)
  {
    hide PutCommon, DecodeCommon, EncodeRecords, DecodeRecords, PutDevice, DecodeDevice, PutU32Be, GetU32Be;
    match r
    case DeviceListReply(status, devices) =>
      var c := Common(OP_REP_DEVLIST, status);
      var common := PutCommon(c);
      if status != 0 {
        CommonRoundTrip(c, []);
        assert common + [] == common;
      } else {
        var body := EncodeRecords(devices).value;
        var lead := common + PutU32Be(|devices|);
        CommonRoundTrip(c, PutU32Be(|devices|) + body);
        assert common + (PutU32Be(|devices|) + body) == lead + body;
        RecordsRoundTrip(lead, devices, []);
        assert lead + body + [] == lead + body;
        assert (lead + body)[8..12] == PutU32Be(|devices|);
        U32Be(|devices|);
      }
    case ImportReply(status, device) =>
      var c := Common(OP_REP_IMPORT, status);
      var common := PutCommon(c);
      if device.None? {
        CommonRoundTrip(c, []);
        assert common + [] == common;
      } else {
        CommonRoundTrip(c, PutDevice(device.value));
        Seam(common, PutDevice(device.value));
        DeviceRoundTrip(device.value);
      }
  }

  /** Two different replies never share an encoding. */
  lemma ControlReplyInjective(a: ControlReply, b: ControlReply)
    requires Plain(a) && Plain(b) && EncodeReply(a).Ok? && EncodeReply(a) == EncodeReply(b)
    ensures a == b
  {
    hide EncodeReply, DecodeReply;
    ControlReplyRoundTrip(a);
    ControlReplyRoundTrip(b);
  }

  // ----------------------------------------------------- received and sent on

  // A field read is padded text, and may be written back if its last byte is a zero.
  lemma FieldReencode(s: bytes)
    requires DecodeField(s).Ok?
    ensures |DecodeField(s).value| <= |s| && PutField(DecodeField(s).value, |s|) == s
    ensures FieldOk(DecodeField(s).value, |s|) <==> s[|s| - 1] == 0
  {
    var end := FirstZero(s);
    AllZeroIsZeros(s[end..]);
    assert s == s[..end] + s[end..];
    if end < |s| {
      assert s[end..][|s| - 1 - end] == s[|s| - 1];
    }
  }

  lemma CommonReencode(wire: bytes)
    requires DecodeCommon(wire).Ok?
    ensures EncodeCommon(DecodeCommon(wire).value) == Ok(wire[..8])
  {
    hide PutU16Be, GetU16Be, PutU32Be, GetU32Be;
    U16BeBytes(wire[0..2]);
    U16BeBytes(wire[2..4]);
    U32BeBytes(wire[4..8]);
    assert wire[..8] == wire[0..2] + wire[2..4] + wire[4..8];
  }

  /** A received request goes back to its bytes, but for the four bytes of padding a list request may carry. */
  lemma ControlRequestReencode(wire: bytes)
    requires DecodeRequest(wire).Ok?
    ensures EncodeRequest(DecodeRequest(wire).value) == Ok(if |wire| == COMMON_SIZE + 4 then wire[..8] else wire)
  {
    hide DecodeCommon, EncodeCommon, DecodeField, PutField, FieldOk;
    CommonReencode(wire);
    if DecodeRequest(wire).value.ImportRequest? {
      FieldReencode(wire[COMMON_SIZE..]);
      assert wire == wire[..8] + wire[COMMON_SIZE..];
    } else {
      assert |wire| == COMMON_SIZE ==> wire[..8] == wire;
    }
  }

  // A device record whose two texts leave room for the zero byte that ends them.
  predicate Terminated(wire: bytes)
    requires |wire| == DEVICE_SIZE
  {
    wire[255] == 0 && wire[287] == 0
  }

  /** A received device goes back to its bytes, or is refused, exactly if a text fills its field to the last byte. */
  lemma DeviceReencode(wire: bytes)
    requires DecodeDevice(wire).Ok?
    ensures EncodeDevice(DecodeDevice(wire).value) == if Terminated(wire) then Ok(wire) else Err(Malformed)
  {
    hide PutU16Be, GetU16Be, PutU32Be, GetU32Be, PutField, DecodeField, FieldOk;
    FieldReencode(wire[..256]);
    FieldReencode(wire[256..288]);
    U32BeBytes(wire[288..292]);
    U32BeBytes(wire[292..296]);
    U32BeBytes(wire[296..300]);
    U16BeBytes(wire[300..302]);
    U16BeBytes(wire[302..304]);
    U16BeBytes(wire[304..306]);
    assert wire[306..] == [wire[306], wire[307], wire[308], wire[309], wire[310], wire[311]];
    assert wire == wire[..256] + wire[256..288] + wire[288..292] + wire[292..296] + wire[296..300]
                   + wire[300..302] + wire[302..304] + wire[304..306] + wire[306..];
  }

  lemma {:induction false} InterfacesReencode(s: bytes, n: nat)
    requires INTERFACE_SIZE * n <= |s| && DecodeInterfaces(s, n).Ok?
    ensures PutInterfaces(DecodeInterfaces(s, n).value) == s[..INTERFACE_SIZE * n]
  {
    if n > 0 {
      var list := DecodeInterfaces(s, n).value;
      var last := s[INTERFACE_SIZE * (n - 1)..INTERFACE_SIZE * n];
      InterfacesReencode(s, n - 1);
      assert list[..n - 1] == DecodeInterfaces(s, n - 1).value;
      assert PutInterface(list[n - 1]) == last;
      assert s[..INTERFACE_SIZE * n] == s[..INTERFACE_SIZE * (n - 1)] + last;
    }
  }

  lemma RecordReencode(wire: bytes, offset: nat)
    requires offset <= |wire| && DecodeRecord(wire, offset).Ok?
    ensures var (r, end) := DecodeRecord(wire, offset).value;
      && offset + DEVICE_SIZE <= end
      && (RecordOk(r) <==> Terminated(wire[offset..offset + DEVICE_SIZE]))
      && (RecordOk(r) ==> PutRecord(r) == wire[offset..end])
  {
    hide PutDevice, DecodeDevice, PutInterfaces, DecodeInterfaces, DeviceOk;
    var (r, end) := DecodeRecord(wire, offset).value;
    var start := offset + DEVICE_SIZE;
    DeviceReencode(wire[offset..start]);
    InterfacesReencode(wire[start..end], r.device.interfaceCount);
    assert wire[offset..end] == wire[offset..start] + wire[start..end];
    assert wire[start..end] == wire[start..end][..INTERFACE_SIZE * r.device.interfaceCount];
  }

  lemma {:induction false} RecordsReencode(wire: bytes, offset: nat, n: nat)
    requires offset <= |wire| && DecodeRecords(wire, offset, n).Ok?
    ensures var (records, end) := DecodeRecords(wire, offset, n).value;
      EncodeRecords(records)
      == if forall i :: 0 <= i < n ==> RecordOk(records[i]) then Ok(wire[offset..end]) else Err(Malformed)
  {
    hide DecodeRecord, RecordOk, PutRecord, EncodeRecords;
    if n > 0 {
      var (front, mid) := DecodeRecords(wire, offset, n - 1).value;
      var (last, end) := DecodeRecord(wire, mid).value;
      RecordsReencode(wire, offset, n - 1);
      RecordReencode(wire, mid);
      OneMoreRecord(front, last);
      assert wire[offset..end] == wire[offset..mid] + wire[mid..end];
    } else {
      NoRecords();
    }
  }

  lemma NoRecords()
    ensures EncodeRecords([]) == Ok([])
  {
  }

  lemma OneMoreRecord(front: seq<DeviceRecord>, last: DeviceRecord)
    ensures EncodeRecords(front + [last])
         == if EncodeRecords(front).Err? then Err(Malformed)
            else if RecordOk(last) then Ok(EncodeRecords(front).value + PutRecord(last)) else Err(Malformed)
  {
    hide RecordOk, PutRecord;
    assert (front + [last])[..|front|] == front;
  }

  // Every device a reply holds may be written.
  predicate Writable(r: ControlReply) {
    match r
    case DeviceListReply(_, devices) => forall i :: 0 <= i < |devices| ==> DeviceOk(devices[i].device)
    case ImportReply(_, device) => device.Some? ==> DeviceOk(device.value)
  }

  lemma ReadRecordsCount(wire: bytes, offset: nat, n: nat)
    requires offset <= |wire| && DecodeRecords(wire, offset, n).Ok?
    ensures forall i :: 0 <= i < n ==>
      var r := DecodeRecords(wire, offset, n).value.0[i];
      |r.interfaces| == r.device.interfaceCount
  {
    hide DecodeDevice, DecodeInterfaces;
    if n > 0 {
      ReadRecordsCount(wire, offset, n - 1);
    }
  }

  /** A received reply goes back to its bytes, or is refused, exactly if a text in it fills its field to the end. */
  lemma ControlReplyReencode(wire: bytes)
    requires DecodeReply(wire).Ok?
    ensures EncodeReply(DecodeReply(wire).value)
         == if Writable(DecodeReply(wire).value) then Ok(wire) else Err(Malformed)
  {
    hide DecodeCommon, EncodeCommon, DecodeRecords, EncodeRecords, DecodeDevice, DeviceOk, PutU32Be, GetU32Be,
         PutDevice;
    CommonReencode(wire);
    var r := DecodeReply(wire).value;
    if r.DeviceListReply? && r.status == 0 {
      var n := GetU32Be(wire[8..12]);
      U32BeBytes(wire[8..12]);
      RecordsReencode(wire, 12, n);
      ReadRecordsCount(wire, 12, n);
      var records := DecodeRecords(wire, 12, n).value.0;
      assert forall i :: 0 <= i < n ==> RecordOk(records[i]) == DeviceOk(records[i].device);
      assert r == DeviceListReply(0, records);
      assert wire == wire[..8] + wire[8..12] + wire[12..];
      assert DecodeRecords(wire, 12, n).value.1 == |wire|;
      assert wire[12..|wire|] == wire[12..];
      assert Writable(r) <==> forall i :: 0 <= i < n ==> RecordOk(records[i]);
      assert EncodeRecords(records) == if Writable(r) then Ok(wire[12..]) else Err(Malformed);
    } else if r.ImportReply? && r.status == 0 {
      DeviceReencode(wire[COMMON_SIZE..]);
      assert wire == wire[..8] + wire[COMMON_SIZE..];
    } else {
      assert wire[..8] == wire;
    }
  }

  // ------------------------------------------------------------------ the kinds

  // The test by which a session tells control messages from transfers.
  predicate IsControl(pdu: bytes) {
    |pdu| >= 2 && pdu[..2] == PutU16Be(VERSION)
  }

  /** Two bytes tell the kinds apart: every control message is control, no transfer message is. */
  lemma KindsAreDisjoint(wire: bytes)
    ensures DecodeRequest(wire).Ok? || DecodeReply(wire).Ok? ==> IsControl(wire)
    ensures Pdu.DecodeRequest(wire).Ok? || Pdu.DecodeReply(wire).Ok? ==> !IsControl(wire)
  {
    if DecodeCommon(wire).Ok? {
      assert wire[0..2] == wire[..2];
      U16BeBytes(wire[..2]);
    }
    if Pdu.DecodeRequest(wire).Ok? || Pdu.DecodeReply(wire).Ok? {
      Pdu.UrbLead(wire);
      U16Be(VERSION);
    }
  }
}
