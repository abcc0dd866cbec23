/** The USB/IP formats byte by byte: what is written, what is read, and what is refused and why. */
module UsbFormat {
  import opened Base
  import opened Endian
  import opened Numerals
  import opened Pdu
  import Usbip

  // --------------------------------------------------------------- transfers

  function Way(d: Direction): u8 {
    if d == Out then 0 else 1
  }

  lemma WordsHigh(v: u8)
    ensures PutU32Be(v) == [0, 0, 0, v] == High(v, 4)
    ensures PutI32Be(NON_ISO_PACKETS) == [255, 255, 255, 255]
  {
    WritesHigh(v);
    assert PutU32Be(0xFFFF_FFFF) == PutU16Be(0xFFFF) + PutU16Be(0xFFFF);
    assert PutU16Be(0xFFFF) == [255, 255];
    assert PutU32Be(v) == PutU16Be(0) + PutU16Be(v);
  }

  /** SUBMIT byte by byte, and exactly which are refused: a zero number, an endpoint beyond 15, a wrong length. */
  lemma SubmitWritten(r: SubmitRequest)
    ensures EncodeRequest(Submit(r)) == EncodeSubmit(r)
    ensures EncodeSubmit(r) ==
      if r.seqnum == 0 || r.endpoint > 15 || r.transferBufferLength > 1048528
         || |r.data| != (if r.direction == Out then r.transferBufferLength else 0) then Err(Malformed)
      else Ok([0, 0, 0, 1] + High(r.seqnum, 4) + High(r.deviceId, 4) + [0, 0, 0, Way(r.direction)]
              + High(r.endpoint, 4) + High(r.transferFlags, 4) + High(r.transferBufferLength, 4)
              + High(TwosComplement(r.startFrame), 4) + [255, 255, 255, 255] + High(TwosComplement(r.interval), 4)
              + r.setup + r.data)
  {
    hide High, PutU32Be, PutI32Be;
    WordsHigh(1);
    WordsHigh(Way(r.direction));
    WritesHigh(r.seqnum);
    WritesHigh(r.deviceId);
    WritesHigh(r.endpoint);
    WritesHigh(r.transferFlags);
    WritesHigh(r.transferBufferLength);
    WritesSigned(r.startFrame);
    WritesSigned(r.interval);
  }

  /** UNLINK byte by byte, and exactly which are refused. */
  lemma UnlinkWritten(r: UnlinkRequest)
    ensures EncodeRequest(Unlink(r)) == EncodeUnlink(r)
    ensures EncodeUnlink(r) ==
      if r.seqnum == 0 || r.endpoint > 15 || r.targetSeqnum == 0 then Err(Malformed)
      else Ok([0, 0, 0, 2] + High(r.seqnum, 4) + High(r.deviceId, 4) + [0, 0, 0, Way(r.direction)]
              + High(r.endpoint, 4) + High(r.targetSeqnum, 4) + Zeros(24))
  {
    hide High, PutU32Be;
    WordsHigh(2);
    WordsHigh(Way(r.direction));
    WritesHigh(r.seqnum);
    WritesHigh(r.deviceId);
    WritesHigh(r.endpoint);
    WritesHigh(r.targetSeqnum);
  }

  /** RET_SUBMIT byte by byte: an IN reply carries its actual length, an OUT reply nothing. */
  lemma SubmitReplyWritten(r: SubmitReply)
    ensures EncodeReply(SubmitRet(r)) ==
      if r.seqnum == 0 || r.actualLength > 1048528
         || |r.data| != (if r.direction == In then r.actualLength else 0) then Err(Malformed)
      else Ok([0, 0, 0, 3] + High(r.seqnum, 4) + Zeros(12) + High(TwosComplement(r.status), 4)
              + High(r.actualLength, 4) + High(TwosComplement(r.startFrame), 4) + [255, 255, 255, 255]
              + High(TwosComplement(r.errorCount), 4) + Zeros(8) + r.data)
  {
    hide High, PutU32Be, PutI32Be;
    WordsHigh(3);
    WritesHigh(r.seqnum);
    WritesSigned(r.status);
    WritesHigh(r.actualLength);
    WritesSigned(r.startFrame);
    WritesSigned(r.errorCount);
  }

  /** RET_UNLINK byte by byte. */
  lemma UnlinkReplyWritten(r: UnlinkReply)
    ensures EncodeReply(UnlinkRet(r)) ==
      if r.seqnum == 0 then Err(Malformed)
      else Ok([0, 0, 0, 4] + High(r.seqnum, 4) + Zeros(12) + High(TwosComplement(r.status), 4) + Zeros(24))
  {
    hide High, PutU32Be, PutI32Be;
    WordsHigh(4);
    WritesHigh(r.seqnum);
    WritesSigned(r.status);
  }

  // The command word of a message.
  function Command(w: bytes): nat
    requires |w| >= 48
  {
    HighFirst(w[0..4])
  }

  /**
   Exactly which bytes are read as a request, in words of the message, and the error
   for the others. A packet count of zero is taken as well as one of -1.
   */
  lemma RequestRead(w: bytes)
    ensures var r := DecodeRequest(w);
      if |w| < 48 then r == Err(Malformed)
      else if |w| > 1048576 then r == Err(LimitExceeded)
      else if Command(w) == 1 then
        var length := HighFirst(w[24..28]);
        if HighFirst(w[12..16]) > 1 || HighFirst(w[4..8]) == 0 || HighFirst(w[16..20]) > 15
           || length >= 0x8000_0000 || (w[32..36] != [255, 255, 255, 255] && w[32..36] != [0, 0, 0, 0])
        then r == Err(Malformed)
        else if length > 1048528 then r == Err(LimitExceeded)
        else if |w| != 48 + (if HighFirst(w[12..16]) == 0 then length else 0) then r == Err(Malformed)
        else r.Ok? && r.value.Submit?
      else if Command(w) == 2 then
        if |w| != 48 || w[24..48] != Zeros(24) || HighFirst(w[12..16]) > 1 || HighFirst(w[4..8]) == 0
           || HighFirst(w[16..20]) > 15 || HighFirst(w[20..24]) == 0 then r == Err(Malformed)
        else r.Ok? && r.value.Unlink?
      else r == Err(Unsupported)
  {
    if 48 <= |w| <= 1048576 {
      hide HighFirst, GetU32Be, GetI32Be;
      CommonRead(w);
      ReadsSigned(w[24..28]);
      PacketsRead(w[32..36]);
      ZeroTail(w[24..48]);
    }
  }

  lemma CommonRead(w: bytes)
    requires |w| >= 48
    ensures GetU32Be(w[0..4]) == Command(w) && GetU32Be(w[4..8]) == HighFirst(w[4..8])
    ensures GetU32Be(w[8..12]) == HighFirst(w[8..12]) && GetU32Be(w[12..16]) == HighFirst(w[12..16])
    ensures GetU32Be(w[16..20]) == HighFirst(w[16..20]) && GetU32Be(w[20..24]) == HighFirst(w[20..24])
  {
    hide HighFirst, GetU32Be;
    ReadsHigh(w[0..4]);
    ReadsHigh(w[4..8]);
    ReadsHigh(w[8..12]);
    ReadsHigh(w[12..16]);
    ReadsHigh(w[16..20]);
    ReadsHigh(w[20..24]);
  }

  lemma PacketsRead(s: bytes)
    requires |s| == 4
    ensures GetI32Be(s) == NON_ISO_PACKETS <==> s == [255, 255, 255, 255]
    ensures GetI32Be(s) == 0 <==> s == [0, 0, 0, 0]
  {
    WordsHigh(0);
    hide PutI32Be, GetI32Be;
    I32Be(NON_ISO_PACKETS);
    I32Be(0);
    I32BeBytes(s);
    assert PutI32Be(0) == PutU32Be(0) by {
      SignedZero();
    }
  }

  lemma SignedZero()
    ensures PutI32Be(0) == PutU32Be(0)
  {
  }

  lemma ZeroTail(s: bytes)
    ensures AllZero(s) <==> s == Zeros(|s|)
  {
    if AllZero(s) {
      AllZeroIsZeros(s);
    }
  }

  /** What the words of a request that is read mean. */
  lemma RequestMeans(w: bytes)
    requires DecodeRequest(w).Ok?
    ensures match DecodeRequest(w).value
      case Submit(r) =>
        && r.seqnum == HighFirst(w[4..8]) && r.deviceId == HighFirst(w[8..12])
        && Way(r.direction) == HighFirst(w[12..16]) && r.endpoint == HighFirst(w[16..20])
        && r.transferFlags == HighFirst(w[20..24]) && r.transferBufferLength == HighFirst(w[24..28])
        && TwosComplement(r.startFrame) == HighFirst(w[28..32])
        && TwosComplement(r.interval) == HighFirst(w[36..40]) && r.setup == w[40..48] && r.data == w[48..]
      case Unlink(u) =>
        && u.seqnum == HighFirst(w[4..8]) && u.deviceId == HighFirst(w[8..12])
        && Way(u.direction) == HighFirst(w[12..16]) && u.endpoint == HighFirst(w[16..20])
        && u.targetSeqnum == HighFirst(w[20..24])
  {
    hide HighFirst, GetU32Be, GetI32Be;
    CommonRead(w);
    ReadsSigned(w[24..28]);
    ReadsSigned(w[28..32]);
    ReadsSigned(w[36..40]);
  }

  /** Exactly which bytes are read as a reply, in words of the message, and the error for the others. */
  lemma ReplyRead(w: bytes)
    ensures var r := DecodeReply(w);
      if |w| < 48 || |w| > 1048576 then r == Err(Malformed)
      else if Command(w) == 3 then
        var length := HighFirst(w[24..28]);
        if w[8..20] != Zeros(12) || w[40..48] != Zeros(8) || HighFirst(w[4..8]) == 0 || length >= 0x8000_0000
           || (w[32..36] != [255, 255, 255, 255] && w[32..36] != [0, 0, 0, 0])
           || (|w| != 48 + length && |w| != 48) then r == Err(Malformed)
        else r.Ok? && r.value.SubmitRet?
      else if Command(w) == 4 then
        if |w| != 48 || w[8..20] != Zeros(12) || w[24..48] != Zeros(24) || HighFirst(w[4..8]) == 0
        then r == Err(Malformed)
        else r.Ok? && r.value.UnlinkRet?
      else r == Err(Unsupported)
  {
    if 48 <= |w| <= 1048576 {
      hide HighFirst, GetU32Be, GetI32Be;
      CommonRead(w);
      ReadsSigned(w[24..28]);
      PacketsRead(w[32..36]);
      ZeroTail(w[8..20]);
      ZeroTail(w[40..48]);
      ZeroTail(w[24..48]);
    }
  }

  /** What the words of a reply that is read mean; its direction is told from its length. */
  lemma ReplyMeans(w: bytes)
    requires DecodeReply(w).Ok?
    ensures match DecodeReply(w).value
      case SubmitRet(r) =>
        && r.seqnum == HighFirst(w[4..8]) && TwosComplement(r.status) == HighFirst(w[20..24])
        && r.actualLength == HighFirst(w[24..28]) && TwosComplement(r.startFrame) == HighFirst(w[28..32])
        && TwosComplement(r.errorCount) == HighFirst(w[36..40]) && r.data == w[48..]
        && r.direction == (if |w| == 48 + HighFirst(w[24..28]) then In else Out)
      case UnlinkRet(u) => u.seqnum == HighFirst(w[4..8]) && TwosComplement(u.status) == HighFirst(w[20..24])
  {
    hide HighFirst, GetU32Be, GetI32Be;
    CommonRead(w);
    ReadsSigned(w[20..24]);
    ReadsSigned(w[24..28]);
    ReadsSigned(w[28..32]);
    ReadsSigned(w[36..40]);
  }

  // ---------------------------------------------------------------- control

  // A text in a field of a fixed size, filled up with zero bytes.
  function Padded(text: bytes, size: nat): bytes
    requires |text| <= size
  {
    text + Zeros(size - |text|)
  }

  predicate FitsField(text: bytes, size: nat) {
    1 <= |text| < size && 0 !in text
  }

  lemma LeadHigh()
    ensures PutU16Be(0x0111) == [1, 17] && PutU16Be(0x8003) == [128, 3] && PutU16Be(3) == [0, 3]
    ensures PutU16Be(0x8005) == [128, 5] && PutU16Be(5) == [0, 5]
  {
  }

  /** The first two bytes make a message a control message. */
  lemma ControlTold(w: bytes)
    ensures Usbip.IsControl(w) <==> |w| >= 2 && w[0] == 1 && w[1] == 17
  {
    LeadHigh();
  }

  /** A device list request is 8 bytes, an import request 8 and a field of 32. */
  lemma ControlRequestWritten(r: Usbip.ControlRequest)
    ensures Usbip.EncodeRequest(r) ==
      match r
      case DeviceListRequest => Ok([1, 17, 128, 5, 0, 0, 0, 0])
      case ImportRequest(busId) =>
        if FitsField(busId, 32) then Ok([1, 17, 128, 3, 0, 0, 0, 0] + Padded(busId, 32)) else Err(Malformed)
  {
    LeadHigh();
    WordsHigh(0);
    hide High, PutU16Be, PutU32Be;
    assert [1, 17] + [128, 5] + [0, 0, 0, 0] == [1, 17, 128, 5, 0, 0, 0, 0];
    assert [1, 17] + [128, 3] + [0, 0, 0, 0] == [1, 17, 128, 3, 0, 0, 0, 0];
  }

  // A field reads as the text it is padded from, if that is UTF-8 and not empty.
  predicate HoldsText(field: bytes, text: bytes) {
    text != [] && |text| <= |field| && field == Padded(text, |field|) && 0 !in text && Usbip.Utf8(text)
  }

  lemma {:induction false} FirstZeroAt(s: bytes, n: nat)
    requires n <= |s| && (forall i :: 0 <= i < n ==> s[i] != 0) && (n < |s| ==> s[n] == 0)
    ensures Usbip.FirstZero(s) == n
  {
    if n > 0 {
      FirstZeroAt(s[1..], n - 1);
    }
  }

  lemma FieldRead(field: bytes)
    ensures var r := Usbip.DecodeField(field);
      && (r.Ok? || r == Err(Malformed))
      && (r.Ok? ==> HoldsText(field, r.value))
    ensures forall text :: HoldsText(field, text) ==> Usbip.DecodeField(field) == Ok(text)
  {
    hide Usbip.Utf8;
    if Usbip.DecodeField(field).Ok? {
      Usbip.FieldReencode(field);
    }
    forall text | HoldsText(field, text)
      ensures Usbip.DecodeField(field) == Ok(text)
    {
      assert forall i :: 0 <= i < |text| ==> field[i] == text[i];
      assert forall i :: |text| <= i < |field| ==> field[i] == 0;
      assert field[..|text|] == text;
      assert forall i :: 0 <= i < |text| ==> text[i] in text;
      FirstZeroAt(field, |text|);
    }
  }

  // The lead of a request, from its version, code and status.
  lemma RequestLead(w: bytes, code: bytes)
    requires |w| >= 8 && |code| == 2
    ensures w[..8] == [1, 17] + code + [0, 0, 0, 0] <==>
      w[0..2] == [1, 17] && w[2..4] == code && w[4..8] == [0, 0, 0, 0]
  {
    var lead := [1, 17] + code + [0, 0, 0, 0];
    assert lead[0..2] == [1, 17] && lead[2..4] == code && lead[4..8] == [0, 0, 0, 0];
    assert w[..8][0..2] == w[0..2] && w[..8][2..4] == w[2..4] && w[..8][4..8] == w[4..8];
    assert w[..8] == w[0..2] + w[2..4] + w[4..8];
  }

  // A device list request comes with or without four bytes of padding.
  lemma ListRequests(w: bytes)
    requires |w| >= 8
    ensures w == [1, 17, 128, 5, 0, 0, 0, 0] <==> |w| == 8 && w[..8] == [1, 17] + [128, 5] + [0, 0, 0, 0]
    ensures w == [1, 17, 128, 5, 0, 0, 0, 0, 0, 0, 0, 0] <==>
      |w| == 12 && w[..8] == [1, 17] + [128, 5] + [0, 0, 0, 0] && AllZero(w[8..12])
    ensures [1, 17, 128, 3, 0, 0, 0, 0] == [1, 17] + [128, 3] + [0, 0, 0, 0]
  {
    assert [1, 17, 128, 5, 0, 0, 0, 0] == [1, 17] + [128, 5] + [0, 0, 0, 0];
    assert |w| == 8 ==> w == w[..8];
    if |w| == 12 {
      ZeroTail(w[8..12]);
      assert w == w[..8] + w[8..12];
      var padded := [1, 17, 128, 5, 0, 0, 0, 0, 0, 0, 0, 0];
      assert padded[..8] == [1, 17, 128, 5, 0, 0, 0, 0] && padded[8..12] == Zeros(4);
    }
  }

  /** Exactly which bytes are read as a control request, and the error for the others. */
  lemma ControlRequestRead(w: bytes)
    ensures var r := Usbip.DecodeRequest(w);
      if |w| < 8 then r == Err(Malformed)
      else if w[0..2] != [1, 17] then r == Err(VersionMismatch)
      else if w == [1, 17, 128, 5, 0, 0, 0, 0] || w == [1, 17, 128, 5, 0, 0, 0, 0, 0, 0, 0, 0]
      then r == Ok(Usbip.DeviceListRequest)
      else if |w| == 40 && w[..8] == [1, 17, 128, 3, 0, 0, 0, 0] && w[39] == 0 && Usbip.DecodeField(w[8..]).Ok?
      then r == Ok(Usbip.ImportRequest(Usbip.DecodeField(w[8..]).value))
      else r == Err(Malformed)
  {
    hide Usbip.DecodeCommon, Usbip.DecodeField, Usbip.FieldOk, HighFirst;
    ControlLead(w);
    if |w| >= 8 {
      RequestLead(w, [128, 5]);
      RequestLead(w, [128, 3]);
      ListRequests(w);
      FieldRead(w[8..]);
      if Usbip.DecodeField(w[8..]).Ok? {
        Usbip.FieldReencode(w[8..]);
      }
    }
  }

  // The first eight bytes of a control message: version, code and status.
  lemma ControlLead(w: bytes)
    ensures var r := Usbip.DecodeCommon(w);
      if |w| < 8 then r == Err(Malformed)
      else if w[0..2] != [1, 17] then r == Err(VersionMismatch)
      else if w[2..4] !in [[128, 3], [0, 3], [128, 5], [0, 5]] || HighFirst(w[4..8]) > 5 then r == Err(Malformed)
      else
        && r.Ok? && r.value.status == HighFirst(w[4..8])
        && (r.value.code == Usbip.OP_REQ_IMPORT <==> w[2..4] == [128, 3])
        && (r.value.code == Usbip.OP_REP_IMPORT <==> w[2..4] == [0, 3])
        && (r.value.code == Usbip.OP_REQ_DEVLIST <==> w[2..4] == [128, 5])
        && (r.value.code == Usbip.OP_REP_DEVLIST <==> w[2..4] == [0, 5])
    ensures |w| >= 8 ==> (HighFirst(w[4..8]) == 0 <==> w[4..8] == [0, 0, 0, 0])
  {
    if |w| >= 8 {
      CodeRead(w[0..2]);
      CodeRead(w[2..4]);
      ReadsHigh(w[4..8]);
      ZeroStatus(w[4..8]);
      hide HighFirst, GetU32Be, GetU16Be;
    }
  }

  lemma CodeRead(s: bytes)
    requires |s| == 2
    ensures GetU16Be(s) == 0x0111 <==> s == [1, 17]
    ensures GetU16Be(s) == 0x8003 <==> s == [128, 3]
    ensures GetU16Be(s) == 3 <==> s == [0, 3]
    ensures GetU16Be(s) == 0x8005 <==> s == [128, 5]
    ensures GetU16Be(s) == 5 <==> s == [0, 5]
  {
    LeadHigh();
    U16BeBytes(s);
  }

  lemma ZeroStatus(s: bytes)
    requires |s| == 4
    ensures HighFirst(s) == 0 <==> s == [0, 0, 0, 0]
  {
    ReadsHigh(s);
    U32BeBytes(s);
    WordsHigh(0);
    U32Be(0);
    hide HighFirst, GetU32Be, PutU32Be;
  }

  /** A device record byte by byte: two padded texts, then numbers. */
  lemma DeviceWritten(d: Usbip.Device)
    ensures Usbip.EncodeDevice(d) ==
      if !FitsField(d.path, 256) || !FitsField(d.busId, 32) then Err(Malformed)
      else Ok(Padded(d.path, 256) + Padded(d.busId, 32) + High(d.busNumber, 4) + High(d.deviceNumber, 4)
              + High(d.speed, 4) + High(d.vendorId, 2) + High(d.productId, 2) + High(d.deviceBcd, 2)
              + [d.deviceClass, d.deviceSubclass, d.deviceProtocol, d.configurationValue, d.configurationCount,
                 d.interfaceCount])
  {
    hide High, PutU16Be, PutU32Be;
    WritesHigh(d.busNumber);
    WritesHigh(d.deviceNumber);
    WritesHigh(d.speed);
    WritesHigh(d.vendorId);
    WritesHigh(d.productId);
    WritesHigh(d.deviceBcd);
  }

  /** Exactly which 312 bytes are read as a device, and as which. */
  lemma DeviceRead(w: bytes)
    ensures var r := Usbip.DecodeDevice(w);
      if |w| != 312 || Usbip.DecodeField(w[0..256]).Err? || Usbip.DecodeField(w[256..288]).Err?
      then r == Err(Malformed)
      else
        && r.Ok?
        && var d := r.value;
           && d.path == Usbip.DecodeField(w[0..256]).value && d.busId == Usbip.DecodeField(w[256..288]).value
           && d.busNumber == HighFirst(w[288..292]) && d.deviceNumber == HighFirst(w[292..296])
           && d.speed == HighFirst(w[296..300]) && d.vendorId == HighFirst(w[300..302])
           && d.productId == HighFirst(w[302..304]) && d.deviceBcd == HighFirst(w[304..306])
           && [d.deviceClass, d.deviceSubclass, d.deviceProtocol, d.configurationValue, d.configurationCount,
               d.interfaceCount] == w[306..312]
  {
    hide HighFirst, GetU16Be, GetU32Be, Usbip.DecodeField;
    if |w| == 312 {
      FieldRead(w[0..256]);
      FieldRead(w[256..288]);
      assert w[..256] == w[0..256];
      ReadsHigh(w[288..292]);
      ReadsHigh(w[292..296]);
      ReadsHigh(w[296..300]);
      ReadsHigh(w[300..302]);
      ReadsHigh(w[302..304]);
      ReadsHigh(w[304..306]);
    }
  }

  function InterfaceRecords(list: seq<Usbip.Interface>): bytes {
    if list == [] then []
    else
      var i := list[|list| - 1];
      InterfaceRecords(list[..|list| - 1]) + [i.class_, i.subclass, i.protocol, 0]
  }

  lemma {:induction false} InterfacesWritten(list: seq<Usbip.Interface>)
    ensures Usbip.PutInterfaces(list) == InterfaceRecords(list)
  {
    if list != [] {
      InterfacesWritten(list[..|list| - 1]);
    }
  }

  // The records of some devices that may be written, one after another.
  function DeviceRecords(records: seq<Usbip.DeviceRecord>): bytes
    requires forall r :: r in records ==> Usbip.EncodeDevice(r.device).Ok?
  {
    if records == [] then []
    else
      var last := records[|records| - 1];
      DeviceRecords(records[..|records| - 1]) + Usbip.EncodeDevice(last.device).value
      + InterfaceRecords(last.interfaces)
  }

  predicate WritableRecord(r: Usbip.DeviceRecord) {
    |r.interfaces| == r.device.interfaceCount && Usbip.EncodeDevice(r.device).Ok?
  }

  lemma RecordWritten(r: Usbip.DeviceRecord)
    ensures Usbip.RecordOk(r) <==> WritableRecord(r)
    ensures WritableRecord(r) ==>
      Usbip.PutRecord(r) == Usbip.EncodeDevice(r.device).value + InterfaceRecords(r.interfaces)
  {
    hide Usbip.DeviceOk, Usbip.PutDevice, Usbip.PutInterfaces, InterfaceRecords;
    InterfacesWritten(r.interfaces);
  }

  lemma {:induction false} RecordsWritten(records: seq<Usbip.DeviceRecord>)
    ensures Usbip.EncodeRecords(records) ==
      if forall r :: r in records ==> WritableRecord(r) then Ok(DeviceRecords(records)) else Err(Malformed)
  {
    hide Usbip.EncodeRecords, Usbip.RecordOk, Usbip.PutRecord, WritableRecord, Usbip.EncodeDevice, InterfaceRecords;
    if records != [] {
      var n := |records| - 1;
      var front, last := records[..n], records[n];
      assert records == front + [last];
      RecordsWritten(front);
      RecordWritten(last);
      Usbip.OneMoreRecord(front, last);
      WritableMeans(records);
      if forall r :: r in records ==> WritableRecord(r) {
        assert forall r :: r in front ==> r in records;
        DeviceRecordsNext(front, last);
        Grouped(DeviceRecords(front), Usbip.EncodeDevice(last.device).value, InterfaceRecords(last.interfaces));
      } else {
        assert forall r :: r in records ==> r in front || r == last;
      }
    } else {
      Usbip.NoRecords();
    }
  }

  lemma Grouped(a: bytes, b: bytes, c: bytes)
    ensures a + (b + c) == a + b + c
  {
  }

  lemma DeviceRecordsNext(front: seq<Usbip.DeviceRecord>, last: Usbip.DeviceRecord)
    requires forall r :: r in front + [last] ==> Usbip.EncodeDevice(r.device).Ok?
    ensures forall r :: r in front ==> Usbip.EncodeDevice(r.device).Ok?
    ensures Usbip.EncodeDevice(last.device).Ok?
    ensures DeviceRecords(front + [last])
         == DeviceRecords(front) + Usbip.EncodeDevice(last.device).value + InterfaceRecords(last.interfaces)
  {
    hide Usbip.EncodeDevice, InterfaceRecords;
    var records := front + [last];
    assert last in records && forall r :: r in front ==> r in records;
    assert records[..|front|] == front;
  }

  lemma WritableMeans(records: seq<Usbip.DeviceRecord>)
    ensures forall r :: r in records && WritableRecord(r) ==> Usbip.EncodeDevice(r.device).Ok?
  {
    hide Usbip.EncodeDevice;
  }

  /** A control reply byte by byte: a failure is 8 bytes, a list counts its records, an import holds one device. */
  lemma ControlReplyWritten(r: Usbip.ControlReply)
    ensures Usbip.EncodeReply(r) ==
      match r
      case DeviceListReply(status, devices) =>
        if status != 0 then (if status > 5 then Err(Malformed) else Ok([1, 17, 0, 5] + [0, 0, 0, status]))
        else if |devices| > 1024 then Err(LimitExceeded)
        else if exists d :: d in devices && !WritableRecord(d) then Err(Malformed)
        else Ok([1, 17, 0, 5, 0, 0, 0, 0] + High(|devices|, 4) + DeviceRecords(devices))
      case ImportReply(status, device) =>
        if (status == 0) != device.Some? || status > 5 then Err(Malformed)
        else if device.None? then Ok([1, 17, 0, 3] + [0, 0, 0, status])
        else if Usbip.EncodeDevice(device.value).Err? then Err(Malformed)
        else Ok([1, 17, 0, 3, 0, 0, 0, 0] + Usbip.EncodeDevice(device.value).value)
  {
    LeadHigh();
    if r.status <= 5 {
      WordsHigh(r.status);
    }
    WordsHigh(0);
    hide High, PutU16Be, PutU32Be, Usbip.DeviceOk, Usbip.PutDevice, Usbip.EncodeRecords, DeviceRecords, WritableRecord;
    assert forall status: u8 :: [1, 17] + [0, 5] + [0, 0, 0, status] == [1, 17, 0, 5] + [0, 0, 0, status];
    assert forall status: u8 :: [1, 17] + [0, 3] + [0, 0, 0, status] == [1, 17, 0, 3] + [0, 0, 0, status];
    assert [1, 17] + [0, 5] + [0, 0, 0, 0] == [1, 17, 0, 5, 0, 0, 0, 0];
    assert [1, 17] + [0, 3] + [0, 0, 0, 0] == [1, 17, 0, 3, 0, 0, 0, 0];
    if r.DeviceListReply? && r.status == 0 && |r.devices| <= 1024 {
      RecordsWritten(r.devices);
      WritesHigh(|r.devices|);
      Usbip.ListAlwaysFits(r);
    }
  }

  // The first interface records of a buffer are read exactly as those that are written there.
  lemma {:induction false} InterfacesRead(s: bytes, list: seq<Usbip.Interface>)
    requires 4 * |list| <= |s|
    ensures Usbip.DecodeInterfaces(s, |list|) == Ok(list) <==> s[..4 * |list|] == InterfaceRecords(list)
  {
    if s[..4 * |list|] == InterfaceRecords(list) {
      InterfacesWritten(list);
      Usbip.InterfacesRoundTrip(list, s[4 * |list|..]);
      assert s == s[..4 * |list|] + s[4 * |list|..];
    }
    if Usbip.DecodeInterfaces(s, |list|) == Ok(list) {
      InterfacesWritten(list);
      Usbip.InterfacesReencode(s, |list|);
    }
  }

  /** A buffer holds some device records, from an offset up to an end: each a device and its interfaces. */
  predicate Holds(w: bytes, offset: nat, records: seq<Usbip.DeviceRecord>, end: nat)
    requires end <= |w|
    decreases |records|
  {
    if records == [] then end == offset
    else
      var last := records[|records| - 1];
      var size := 312 + 4 * |last.interfaces|;
      && end >= offset + size
      && |last.interfaces| == last.device.interfaceCount
      && Holds(w, offset, records[..|records| - 1], end - size)
      && Usbip.DecodeDevice(w[end - size..end - size + 312]) == Ok(last.device)
      && w[end - size + 312..end] == InterfaceRecords(last.interfaces)
  }

  lemma RecordRead(w: bytes, offset: nat, r: Usbip.DeviceRecord, end: nat)
    requires offset <= |w| && end <= |w|
    ensures Usbip.DecodeRecord(w, offset) == Ok((r, end)) <==>
      && end == offset + 312 + 4 * |r.interfaces| && |r.interfaces| == r.device.interfaceCount
      && Usbip.DecodeDevice(w[offset..offset + 312]) == Ok(r.device)
      && w[offset + 312..end] == InterfaceRecords(r.interfaces)
  {
    hide Usbip.DecodeDevice, Usbip.DecodeInterfaces, InterfaceRecords;
    if end == offset + 312 + 4 * |r.interfaces| {
      var tail := w[offset + 312..end];
      InterfacesRead(tail, r.interfaces);
      assert tail[..4 * |r.interfaces|] == tail;
    }
  }

  /** Records are read exactly where they are held, and their number and end are told. */
  lemma {:induction false} RecordsRead(w: bytes, offset: nat, records: seq<Usbip.DeviceRecord>, end: nat)
    requires offset <= |w| && end <= |w|
    ensures Usbip.DecodeRecords(w, offset, |records|) == Ok((records, end)) <==> Holds(w, offset, records, end)
    decreases |records|
  {
    hide Usbip.DecodeRecord, Usbip.DecodeDevice, InterfaceRecords;
    if records != [] {
      var front, last := records[..|records| - 1], records[|records| - 1];
      var size := 312 + 4 * |last.interfaces|;
      assert records == front + [last];
      if Usbip.DecodeRecords(w, offset, |records|) == Ok((records, end)) {
        var mid := Usbip.DecodeRecords(w, offset, |front|).value.1;
        assert Usbip.DecodeRecords(w, offset, |front|).value.0 == front;
        RecordsRead(w, offset, front, mid);
        RecordRead(w, mid, last, end);
      }
      if Holds(w, offset, records, end) {
        RecordsRead(w, offset, front, end - size);
        RecordRead(w, end - size, last, end);
      }
    }
  }

  /** Exactly which bytes are read as a control reply, and the error for the others. */
  lemma ControlReplyRead(w: bytes)
    ensures var r := Usbip.DecodeReply(w);
      if |w| < 8 then r == Err(Malformed)
      else if w[0..2] != [1, 17] then r == Err(VersionMismatch)
      else if w[2..4] !in [[128, 3], [0, 3], [128, 5], [0, 5]] || HighFirst(w[4..8]) > 5 then r == Err(Malformed)
      else if w[2..4] == [0, 3] then
        if HighFirst(w[4..8]) != 0 then
          r == if |w| == 8 then Ok(Usbip.ImportReply(w[7], None)) else Err(Malformed)
        else if |w| != 320 || Usbip.DecodeDevice(w[8..]).Err? then r == Err(Malformed)
        else r == Ok(Usbip.ImportReply(0, Some(Usbip.DecodeDevice(w[8..]).value)))
      else if w[2..4] == [0, 5] then
        if HighFirst(w[4..8]) != 0 then
          r == if |w| == 8 then Ok(Usbip.DeviceListReply(w[7], [])) else Err(Malformed)
        else if |w| < 12 || |w| > 4194304 then r == Err(Malformed)
        else if HighFirst(w[8..12]) > 1024 then r == Err(LimitExceeded)
        else
          && (r.Ok? || r == Err(Malformed))
          && (r.Ok? ==> r.value.DeviceListReply? && r.value.status == 0)
          && forall devices ::
               r == Ok(Usbip.DeviceListReply(0, devices)) <==>
               |devices| == HighFirst(w[8..12]) && Holds(w, 12, devices, |w|)
      else r == Err(Unsupported)
  {
    hide Usbip.DecodeCommon, Usbip.DecodeDevice, Usbip.DecodeRecords, HighFirst, Holds, GetU32Be;
    ControlLead(w);
    if |w| >= 8 {
      SmallStatus(w[4..8]);
      if |w| == 320 {
        DeviceRead(w[8..]);
      }
      if |w| >= 12 {
        ReadsHigh(w[8..12]);
        var n := HighFirst(w[8..12]);
        RecordsOnlyMalformed(w, 12, n);
        forall devices | |devices| == n
          ensures Usbip.DecodeRecords(w, 12, n) == Ok((devices, |w|)) <==> Holds(w, 12, devices, |w|)
        {
          RecordsRead(w, 12, devices, |w|);
        }
      }
    }
  }

  lemma SmallStatus(s: bytes)
    requires |s| == 4
    ensures HighFirst(s) <= 5 ==> HighFirst(s) == s[3]
  {
    assert HighFirst(s) == 0x100 * HighFirst(s[..3]) + s[3] as int;
  }

  lemma {:induction false} RecordsOnlyMalformed(w: bytes, offset: nat, n: nat)
    requires offset <= |w|
    ensures Usbip.DecodeRecords(w, offset, n).Err? ==> Usbip.DecodeRecords(w, offset, n).error == Malformed
  {
    hide Usbip.DecodeDevice, Usbip.DecodeInterfaces;
    if n > 0 {
      RecordsOnlyMalformed(w, offset, n - 1);
      var front := Usbip.DecodeRecords(w, offset, n - 1);
      if front.Ok? {
        RecordOnlyMalformed(w, front.value.1);
      }
    }
  }

  lemma RecordOnlyMalformed(w: bytes, offset: nat)
    requires offset <= |w|
    ensures Usbip.DecodeRecord(w, offset).Err? ==> Usbip.DecodeRecord(w, offset).error == Malformed
  {
    hide Usbip.DecodeDevice, Usbip.DecodeInterfaces, HighFirst;
    if offset + 312 <= |w| {
      DeviceRead(w[offset..offset + 312]);
      var d := Usbip.DecodeDevice(w[offset..offset + 312]);
      if d.Ok? && offset + 312 + 4 * d.value.interfaceCount <= |w| {
        InterfacesOnlyMalformed(w[offset + 312..offset + 312 + 4 * d.value.interfaceCount], d.value.interfaceCount);
      }
    }
  }

  lemma {:induction false} InterfacesOnlyMalformed(s: bytes, n: nat)
    requires 4 * n <= |s|
    ensures Usbip.DecodeInterfaces(s, n).Err? ==> Usbip.DecodeInterfaces(s, n).error == Malformed
  {
    if n > 0 {
      InterfacesOnlyMalformed(s, n - 1);
    }
  }

  // -------------------------------------------------------------------- text

  /** The code points a text may hold: all but the surrogates. */
  predicate Scalar(c: nat) {
    c < 0xD800 || 0xE000 <= c < 0x11_0000
  }

  /** A code point in UTF-8: one byte, or a leading byte that tells how many follow with six bits each. */
  function CodePoint(c: nat): bytes
    requires Scalar(c)
  {
    if c < 0x80 then [c]
    else if c < 0x800 then [0xC0 + c / 0x40, 0x80 + c % 0x40]
    else if c < 0x1_0000 then [0xE0 + c / 0x1000, 0x80 + c / 0x40 % 0x40, 0x80 + c % 0x40]
    else [0xF0 + c / 0x4_0000, 0x80 + c / 0x1000 % 0x40, 0x80 + c / 0x40 % 0x40, 0x80 + c % 0x40]
  }

  predicate AllScalar(cs: seq<nat>) {
    forall i :: 0 <= i < |cs| ==> Scalar(cs[i])
  }

  function Written(cs: seq<nat>): bytes
    requires AllScalar(cs)
  {
    if cs == [] then [] else CodePoint(cs[0]) + Written(cs[1..])
  }

  lemma OnePoint(c: nat, rest: bytes)
    requires Scalar(c)
    ensures Usbip.Utf8(CodePoint(c) + rest) == Usbip.Utf8(rest)
  {
    if c < 0x800 {
      ShortPoint(c, rest);
    } else {
      LongPoint(c, rest);
    }
  }

  lemma ShortPoint(c: nat, rest: bytes)
    requires c < 0x800
    ensures Usbip.Utf8(CodePoint(c) + rest) == Usbip.Utf8(rest)
  {
    var s := CodePoint(c) + rest;
    assert s[|CodePoint(c)|..] == rest;
  }

  lemma LongPoint(c: nat, rest: bytes)
    requires Scalar(c) && c >= 0x800
    ensures Usbip.Utf8(CodePoint(c) + rest) == Usbip.Utf8(rest)
  {
    var s := CodePoint(c) + rest;
    assert s[|CodePoint(c)|..] == rest;
  }

  lemma {:induction false} WrittenIsUtf8(cs: seq<nat>)
    requires AllScalar(cs)
    ensures Usbip.Utf8(Written(cs))
  {
    if cs != [] {
      WrittenIsUtf8(cs[1..]);
      OnePoint(cs[0], Written(cs[1..]));
    }
  }

  lemma TwoBytes(a: nat, b: nat)
    requires a < 0x20 && b < 0x40 && a >= 2
    ensures var c := a * 0x40 + b; Scalar(c) && CodePoint(c) == [0xC0 + a, 0x80 + b]
  {
  }

  lemma ThreeBytes(a: nat, b: nat, d: nat)
    requires a < 0x10 && b < 0x40 && d < 0x40 && (a == 0 ==> b >= 0x20) && (a == 0xD ==> b < 0x20)
    ensures var c := a * 0x1000 + b * 0x40 + d; Scalar(c) && CodePoint(c) == [0xE0 + a, 0x80 + b, 0x80 + d]
  {
    var c := a * 0x1000 + b * 0x40 + d;
    assert c / 0x1000 == a && c / 0x40 == a * 0x40 + b;
  }

  lemma FourBytes(a: nat, b: nat, d: nat, e: nat)
    requires a <= 4 && b < 0x40 && d < 0x40 && e < 0x40 && (a == 0 ==> b >= 0x10) && (a == 4 ==> b < 0x10)
    ensures var c := a * 0x4_0000 + b * 0x1000 + d * 0x40 + e;
      Scalar(c) && CodePoint(c) == [0xF0 + a, 0x80 + b, 0x80 + d, 0x80 + e]
  {
    var c := a * 0x4_0000 + b * 0x1000 + d * 0x40 + e;
    assert c / 0x4_0000 == a && c / 0x1000 == a * 0x40 + b && c / 0x40 == (a * 0x40 + b) * 0x40 + d;
  }

  // The code point a text starts with, and how many bytes it takes.
  lemma FirstPoint(s: bytes) returns (c: nat, n: nat)
    requires s != [] && Usbip.Utf8(s)
    ensures Scalar(c) && n == |CodePoint(c)| <= |s| && s[..n] == CodePoint(c)
    ensures Usbip.Utf8(s[n..])
  {
    hide CodePoint;
    var a: nat := s[0];
    if a < 0x80 {
      c, n := a, 1;
      OneByte(c);
    } else if a <= 0xDF {
      c, n := (a - 0xC0) * 0x40 + (s[1] as nat - 0x80), 2;
      TwoBytes(a - 0xC0, s[1] as nat - 0x80);
    } else if a <= 0xEF {
      c, n := (a - 0xE0) * 0x1000 + (s[1] as nat - 0x80) * 0x40 + (s[2] as nat - 0x80), 3;
      ThreeBytes(a - 0xE0, s[1] as nat - 0x80, s[2] as nat - 0x80);
    } else {
      c := (a - 0xF0) * 0x4_0000 + (s[1] as nat - 0x80) * 0x1000 + (s[2] as nat - 0x80) * 0x40 + (s[3] as nat - 0x80);
      n := 4;
      FourBytes(a - 0xF0, s[1] as nat - 0x80, s[2] as nat - 0x80, s[3] as nat - 0x80);
    }
  }

  lemma OneByte(c: nat)
    requires c < 0x80
    ensures Scalar(c) && CodePoint(c) == [c]
  {
  }

  /** The texts accepted are exactly the sequences of code points written one after another. */
  lemma {:induction false} TextsAreCodePoints(s: bytes)
    ensures Usbip.Utf8(s) <==> exists cs: seq<nat> :: AllScalar(cs) && Written(cs) == s
  {
    if Usbip.Utf8(s) {
      var cs := PointsOf(s);
    }
    if cs: seq<nat> :| AllScalar(cs) && Written(cs) == s {
      WrittenIsUtf8(cs);
    }
  }

  lemma {:induction false} PointsOf(s: bytes) returns (cs: seq<nat>)
    requires Usbip.Utf8(s)
    ensures AllScalar(cs) && Written(cs) == s
  {
    if s == [] {
      cs := [];
    } else {
      var c, n := FirstPoint(s);
      var rest := PointsOf(s[n..]);
      cs := [c] + rest;
      assert cs[1..] == rest && s == s[..n] + s[n..];
    }
  }
}
