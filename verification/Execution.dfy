/** The life of a transfer on the exporting side: submitted, perhaps unlinked, answered once. */
module Execution {
  import opened Base
  import opened Pdu

  const STATUS_NO_ENTRY: i32 := -2
  const STATUS_CANCELLED: i32 := -104
  const MAX_PENDING: nat := 4096

  // What the platform reports about a finished transfer.
  datatype Completion = Completion(
    status: i32,
    actualLength: u32,
    startFrame: i32,
    errorCount: i32,
    data: bytes)

  datatype ExecutorEvent =
    | SubmitEvent(token: u64, request: SubmitRequest)
    | CancelEvent(cancelToken: u64, unlinkSeqnum: u32)
    | ReplyEvent(pdu: bytes)

  datatype Pending = Pending(token: u64, request: SubmitRequest, unlink: Option<u32>)

  datatype Table = Table(
    maxInflight: nat,
    maxTransfer: nat,
    nextToken: u64,
    bySeqnum: map<u32, Pending>,
    byToken: map<u64, u32>,
    retired: set<u64>)

  function NewTable(maxInflight: nat, maxTransfer: nat): Result<Table> {
    if maxInflight == 0 || maxInflight > MAX_PENDING || maxTransfer == 0 || maxTransfer > MAX_TRANSFER_SIZE
    then Err(InvalidArgument)
    else Ok(Table(maxInflight, maxTransfer, 1, map[], map[], {}))
  }

  // ------------------------------------------------------------------ actions

  function Remember(retired: set<u64>, maxInflight: nat, token: u64): set<u64> {
    (if |retired| >= maxInflight * 2 then {} else retired) + {token}
  }

  function Retire(t: Table, token: u64, seqnum: u32): Table {
    t.(byToken := t.byToken - {token},
       bySeqnum := t.bySeqnum - {seqnum},
       retired := Remember(t.retired, t.maxInflight, token))
  }

  function DataLength(direction: Direction, actualLength: u32): nat {
    if direction.In? then actualLength else 0
  }

  function SubmitAnswer(r: SubmitRequest, c: Completion): SubmitReply {
    SubmitReply(r.seqnum, r.direction, c.status, c.actualLength, c.startFrame, c.errorCount, c.data)
  }

  const CANCELLATION := Completion(STATUS_CANCELLED, 0, 0, 0, [])

  // Entering a transfer under the next token.
  function Admit(t: Table, r: SubmitRequest): Table
    requires t.nextToken < U64_MAX
  {
    t.(nextToken := t.nextToken + 1,
       byToken := t.byToken[t.nextToken := r.seqnum],
       bySeqnum := t.bySeqnum[r.seqnum := Pending(t.nextToken, r, None)])
  }

  function AcceptSubmit(t: Table, r: SubmitRequest): (Table, Result<seq<ExecutorEvent>>) {
    if r.transferBufferLength > t.maxTransfer then (t, Err(LimitExceeded))
    else if r.seqnum in t.bySeqnum then (t, Err(Duplicate))
    else if |t.bySeqnum| >= t.maxInflight then (t, Err(WindowExhausted))
    else if t.nextToken == U64_MAX then (t, Err(LimitExceeded))
    else
      (Admit(t, r), Ok([SubmitEvent(t.nextToken, r)]))
  }

  function AcceptUnlink(t: Table, u: UnlinkRequest): (Table, Result<seq<ExecutorEvent>>) {
    if u.targetSeqnum in t.bySeqnum then
      var p := t.bySeqnum[u.targetSeqnum];
      if p.unlink.Some? then (t, Err(Duplicate))
      else (t.(bySeqnum := t.bySeqnum[u.targetSeqnum := p.(unlink := Some(u.seqnum))]),
            Ok([CancelEvent(p.token, u.seqnum)]))
    else
      var reply := EncodeUnlinkReply(UnlinkReply(u.seqnum, STATUS_NO_ENTRY));
      if reply.Err? then (t, Err(reply.error)) else (t, Ok([ReplyEvent(reply.value)]))
  }

  function AcceptPdu(t: Table, wire: bytes): (Table, Result<seq<ExecutorEvent>>) {
    var decoded := DecodeRequest(wire);
    if decoded.Err? then (t, Err(decoded.error))
    else match decoded.value
      case Submit(r) => AcceptSubmit(t, r)
      case Unlink(u) => AcceptUnlink(t, u)
  }

  // What a token that is not pending amounts to.
  function Stale(t: Table, token: u64): Result<seq<ExecutorEvent>> {
    if token in t.retired then Ok([]) else Err(NotFound)
  }

  function ValidateCompletion(t: Table, token: u64, actualLength: u32, dataLength: nat): Result<bool> {
    if token !in t.byToken then
      if token in t.retired then Ok(false) else Err(NotFound)
    else if t.byToken[token] !in t.bySeqnum then Err(Internal)
    else
      var r := t.bySeqnum[t.byToken[token]].request;
      if dataLength != DataLength(r.direction, actualLength) || actualLength > r.transferBufferLength
      then Err(Malformed)
      else Ok(true)
  }

  // The replies that end a transfer: its own, then the one its UNLINK waits for.
  function Replies(p: Pending, c: Completion, unlinkStatus: i32): Result<seq<ExecutorEvent>> {
    var first :- EncodeSubmitReply(SubmitAnswer(p.request, c));
    if p.unlink.None? then Ok([ReplyEvent(first)])
    else
      var second :- EncodeUnlinkReply(UnlinkReply(p.unlink.value, unlinkStatus));
      Ok([ReplyEvent(first), ReplyEvent(second)])
  }

  function Complete(t: Table, token: u64, c: Completion): (Table, Result<seq<ExecutorEvent>>) {
    if token !in t.byToken then (t, Stale(t, token))
    else
      var seqnum := t.byToken[token];
      if seqnum !in t.bySeqnum then (t, Err(Internal))
      else
        var p := t.bySeqnum[seqnum];
        if |c.data| != DataLength(p.request.direction, c.actualLength)
           || c.actualLength > p.request.transferBufferLength then (t, Err(Malformed))
        else
          var events := Replies(p, c, 0);
          if events.Err? then (t, events) else (Retire(t, token, seqnum), events)
  }

  function CompleteCancel(t: Table, token: u64, status: i32): (Table, Result<seq<ExecutorEvent>>) {
    if token !in t.byToken then (t, Stale(t, token))
    else
      var seqnum := t.byToken[token];
      if seqnum !in t.bySeqnum then (t, Err(Internal))
      else if t.bySeqnum[seqnum].unlink.None? then (t, Err(InvalidState))
      else (Retire(t, token, seqnum), Replies(t.bySeqnum[seqnum], CANCELLATION, status))
  }

  function CancelForClose(t: Table, token: u64): (Table, Result<seq<ExecutorEvent>>) {
    if token !in t.byToken then (t, Err(NotFound))
    else
      var seqnum := t.byToken[token];
      if seqnum !in t.bySeqnum then (t.(byToken := t.byToken - {token}), Err(Internal))
      else (Retire(t, token, seqnum), Replies(t.bySeqnum[seqnum], CANCELLATION, STATUS_CANCELLED))
  }

  /** Closing: the pending tokens are cancelled one by one, in whatever order the table lists them. */
  function CloseAll(t: Table, order: seq<u64>): (Table, seq<ExecutorEvent>) {
    if order == [] then (t, [])
    else
      var (before, events) := CloseAll(t, order[..|order| - 1]);
      var (after, r) := CancelForClose(before, order[|order| - 1]);
      (after, if r.Ok? then events + r.value else events)
  }

  predicate Distinct(s: seq<u64>) {
    forall i, j :: 0 <= i < j < |s| ==> s[i] != s[j]
  }

  // An order in which a table may list the tokens it holds.
  ghost predicate Lists(order: seq<u64>, tokens: set<u64>) {
    Distinct(order) && forall k :: k in order <==> k in tokens
  }

  // ---------------------------------------------------------------- invariant

  predicate Admitted(maxTransfer: nat, seqnum: u32, p: Pending) {
    && seqnum != 0
    && p.request.seqnum == seqnum
    && p.request.transferBufferLength <= maxTransfer
    && (p.unlink.Some? ==> p.unlink.value != 0)
  }

  ghost predicate AllAdmitted(maxTransfer: nat, bySeqnum: map<u32, Pending>) {
    forall n :: n in bySeqnum ==> Admitted(maxTransfer, n, bySeqnum[n])
  }

  ghost predicate Inverse(byToken: map<u64, u32>, bySeqnum: map<u32, Pending>) {
    && (forall k :: k in byToken ==> byToken[k] in bySeqnum && bySeqnum[byToken[k]].token == k)
    && (forall n :: n in bySeqnum ==> bySeqnum[n].token in byToken && byToken[bySeqnum[n].token] == n)
  }

  ghost predicate TokensApart(nextToken: u64, live: map<u64, u32>, retired: set<u64>) {
    && (forall k :: k in live ==> 1 <= k < nextToken)
    && (forall k :: k in retired ==> 1 <= k < nextToken && k !in live)
  }

  predicate LimitsOk(t: Table) {
    && 1 <= t.maxInflight <= MAX_PENDING
    && 1 <= t.maxTransfer <= MAX_TRANSFER_SIZE
    && 1 <= t.nextToken
    && |t.bySeqnum| <= t.maxInflight
    && |t.retired| <= 2 * t.maxInflight
  }

  /** The two maps are inverse to each other and within bounds, and no token is both live and retired. */
  ghost predicate Indexed(t: Table) {
    && LimitsOk(t)
    && Inverse(t.byToken, t.bySeqnum)
    && AllAdmitted(t.maxTransfer, t.bySeqnum)
    && TokensApart(t.nextToken, t.byToken, t.retired)
  }

  lemma {:induction false} InverseMapsSameSize(a: map<u64, u32>, b: map<u32, u64>)
    requires forall k :: k in a ==> a[k] in b && b[a[k]] == k
    requires forall n :: n in b ==> b[n] in a && a[b[n]] == n
    ensures |a| == |b|
    decreases |a|
  {
    if a.Keys == {} {
      assert b.Keys == {};
    } else {
      var k :| k in a;
      var a', b' := a - {k}, b - {a[k]};
      assert a'.Keys == a.Keys - {k};
      assert b'.Keys == b.Keys - {a[k]};
      InverseMapsSameSize(a', b');
    }
  }

  /** The two maps always hold the same number of entries. */
  lemma IndexedSameSize(t: Table)
    requires Indexed(t)
    ensures |t.byToken| == |t.bySeqnum|
  {
    var b := map n | n in t.bySeqnum :: t.bySeqnum[n].token;
    assert b.Keys == t.bySeqnum.Keys;
    InverseMapsSameSize(t.byToken, b);
  }

  lemma RetireInverse(byToken: map<u64, u32>, bySeqnum: map<u32, Pending>, token: u64)
    requires Inverse(byToken, bySeqnum) && token in byToken
    ensures Inverse(byToken - {token}, bySeqnum - {byToken[token]})
  {
  }

  lemma RetireApart(t: Table, token: u64)
    requires Indexed(t) && token in t.byToken
    ensures TokensApart(t.nextToken, t.byToken - {token}, Remember(t.retired, t.maxInflight, token))
    ensures |Remember(t.retired, t.maxInflight, token)| <= 2 * t.maxInflight
  {
    hide Inverse, AllAdmitted;
  }

  lemma RetireIndexed(t: Table, token: u64)
    requires Indexed(t) && token in t.byToken
    ensures Indexed(Retire(t, token, t.byToken[token]))
    ensures var t' := Retire(t, token, t.byToken[token]);
      && t'.byToken.Keys == t.byToken.Keys - {token}
      && t'.bySeqnum.Keys == t.bySeqnum.Keys - {t.byToken[token]}
  {
    var seqnum := t.byToken[token];
    RetireInverse(t.byToken, t.bySeqnum, token);
    RetireApart(t, token);
    hide Inverse, TokensApart, Remember;
    var left := t.bySeqnum - {seqnum};
    assert left.Keys == t.bySeqnum.Keys - {seqnum};
    assert |left.Keys| <= |t.bySeqnum.Keys|;
  }

  /** Under the index invariant no reply ever fails to encode. */
  lemma RepliesEncode(t: Table, seqnum: u32, c: Completion, unlinkStatus: i32)
    requires Indexed(t) && seqnum in t.bySeqnum
    requires var r := t.bySeqnum[seqnum].request;
      |c.data| == DataLength(r.direction, c.actualLength) && c.actualLength <= r.transferBufferLength
    ensures Replies(t.bySeqnum[seqnum], c, unlinkStatus).Ok?
    ensures forall i :: 0 <= i < |Replies(t.bySeqnum[seqnum], c, unlinkStatus).value| ==>
      && Replies(t.bySeqnum[seqnum], c, unlinkStatus).value[i].ReplyEvent?
      && HEADER_SIZE <= |Replies(t.bySeqnum[seqnum], c, unlinkStatus).value[i].pdu| <= HEADER_SIZE + t.maxTransfer
  {
  }

  lemma AdmitInverse(byToken: map<u64, u32>, bySeqnum: map<u32, Pending>, n: u32, p: Pending)
    requires Inverse(byToken, bySeqnum) && n !in bySeqnum && p.token !in byToken
    ensures Inverse(byToken[p.token := n], bySeqnum[n := p])
  {
  }

  lemma ApartGrows(next: u64, live: map<u64, u32>, retired: set<u64>, n: u32)
    requires TokensApart(next, live, retired) && 1 <= next < U64_MAX
    ensures next !in live
    ensures TokensApart(next + 1, live[next := n], retired)
  {
  }

  lemma AdmittedGrows(maxTransfer: nat, bySeqnum: map<u32, Pending>, n: u32, p: Pending)
    requires AllAdmitted(maxTransfer, bySeqnum) && Admitted(maxTransfer, n, p)
    ensures AllAdmitted(maxTransfer, bySeqnum[n := p])
  {
  }

  /** Every action on an indexed table leaves an indexed table: admitting a transfer... */
  lemma AdmitIndexed(t: Table, r: SubmitRequest)
    requires Indexed(t) && r.seqnum != 0 && r.seqnum !in t.bySeqnum && r.transferBufferLength <= t.maxTransfer
    requires |t.bySeqnum| < t.maxInflight && t.nextToken < U64_MAX
    ensures Indexed(Admit(t, r))
    ensures Admit(t, r).bySeqnum.Keys == t.bySeqnum.Keys + {r.seqnum}
  {
    hide Inverse, TokensApart, AllAdmitted;
    var p := Pending(t.nextToken, r, None);
    ApartGrows(t.nextToken, t.byToken, t.retired, r.seqnum);
    AdmitInverse(t.byToken, t.bySeqnum, r.seqnum, p);
    AdmittedGrows(t.maxTransfer, t.bySeqnum, r.seqnum, p);
    assert t.bySeqnum[r.seqnum := p].Keys == t.bySeqnum.Keys + {r.seqnum};
  }

  lemma RecordInverse(byToken: map<u64, u32>, bySeqnum: map<u32, Pending>, n: u32, p: Pending)
    requires Inverse(byToken, bySeqnum) && n in bySeqnum && p.token == bySeqnum[n].token
    ensures Inverse(byToken, bySeqnum[n := p])
  {
  }

  /** ... and recording or refusing an UNLINK. */
  lemma UnlinkIndexed(t: Table, u: UnlinkRequest)
    requires Indexed(t) && u.seqnum != 0
    ensures var t' := AcceptUnlink(t, u).0;
      && Indexed(t')
      && t'.bySeqnum.Keys == t.bySeqnum.Keys
      && t'.byToken == t.byToken
  {
    var t' := AcceptUnlink(t, u).0;
    if t' != t {
      var p := t.bySeqnum[u.targetSeqnum];
      RecordInverse(t.byToken, t.bySeqnum, u.targetSeqnum, p.(unlink := Some(u.seqnum)));
      hide Inverse;
      assert t'.bySeqnum.Keys == t.bySeqnum.Keys;
      assert |t'.bySeqnum.Keys| == |t.bySeqnum.Keys|;
    }
  }

  // ------------------------------------------------------------------ objects

  class Executor {
    const maxInflight: nat
    const maxTransfer: nat
    var nextToken: u64
    var bySeqnum: map<u32, Pending>
    var byToken: map<u64, u32>
    var retired: set<u64>

    function Model(): Table
      reads this
    {
      Table(maxInflight, maxTransfer, nextToken, bySeqnum, byToken, retired)
    }

    constructor (t: Table)
      ensures Model() == t
    {
      maxInflight, maxTransfer := t.maxInflight, t.maxTransfer;
      nextToken, bySeqnum, byToken, retired := t.nextToken, t.bySeqnum, t.byToken, t.retired;
    }

    method AcceptWire(wire: bytes) returns (r: Result<seq<ExecutorEvent>>)
      modifies this
      ensures (Model(), r) == AcceptPdu(old(Model()), wire)
    {
      var decoded := DecodeRequest(wire);
      if decoded.Err? {
        return Err(decoded.error);
      }
      match decoded.value {
        case Submit(request) =>
          r := AdmitSubmit(request);
        case Unlink(request) =>
          if request.targetSeqnum in bySeqnum {
            var p := bySeqnum[request.targetSeqnum];
            if p.unlink.Some? {
              return Err(Duplicate);
            }
            bySeqnum := bySeqnum[request.targetSeqnum := p.(unlink := Some(request.seqnum))];
            return Ok([CancelEvent(p.token, request.seqnum)]);
          }
          var reply :- EncodeUnlinkReply(UnlinkReply(request.seqnum, STATUS_NO_ENTRY));
          return Ok([ReplyEvent(reply)]);
      }
    }

    method AdmitSubmit(request: SubmitRequest) returns (r: Result<seq<ExecutorEvent>>)
      modifies this
      ensures (Model(), r) == AcceptSubmit(old(Model()), request)
    {
      if request.transferBufferLength > maxTransfer {
        return Err(LimitExceeded);
      }
      if request.seqnum in bySeqnum {
        return Err(Duplicate);
      }
      if |bySeqnum| >= maxInflight {
        return Err(WindowExhausted);
      }
      if nextToken == U64_MAX {
        return Err(LimitExceeded);
      }
      var token := nextToken;
      nextToken := token + 1;
      byToken := byToken[token := request.seqnum];
      bySeqnum := bySeqnum[request.seqnum := Pending(token, request, None)];
      return Ok([SubmitEvent(token, request)]);
    }

    method RememberRetired(token: u64)
      modifies this`retired
      ensures retired == Remember(old(retired), maxInflight, token)
    {
      if |retired| >= maxInflight * 2 {
        retired := {};
      }
      retired := retired + {token};
    }

    // Taking a transfer out of both maps.
    method Remove(token: u64, seqnum: u32)
      modifies this
      ensures Model() == Retire(old(Model()), token, seqnum)
    {
      byToken := byToken - {token};
      bySeqnum := bySeqnum - {seqnum};
      RememberRetired(token);
    }

    method CompleteTransfer(token: u64, c: Completion) returns (r: Result<seq<ExecutorEvent>>)
      modifies this
      ensures (Model(), r) == Complete(old(Model()), token, c)
    {
      if token !in byToken {
        return if token in retired then Ok([]) else Err(NotFound);
      }
      var seqnum := byToken[token];
      if seqnum !in bySeqnum {
        return Err(Internal);
      }
      var p := bySeqnum[seqnum];
      if |c.data| != DataLength(p.request.direction, c.actualLength)
         || c.actualLength > p.request.transferBufferLength {
        return Err(Malformed);
      }
      var first :- EncodeSubmitReply(SubmitAnswer(p.request, c));
      var events := [ReplyEvent(first)];
      if p.unlink.Some? {
        var second :- EncodeUnlinkReply(UnlinkReply(p.unlink.value, 0));
        events := events + [ReplyEvent(second)];
        assert events == [ReplyEvent(first), ReplyEvent(second)];
      }
      Remove(token, seqnum);
      return Ok(events);
    }

    method CancelTransfer(token: u64, status: i32) returns (r: Result<seq<ExecutorEvent>>)
      modifies this
      ensures (Model(), r) == CompleteCancel(old(Model()), token, status)
    {
      if token !in byToken {
        return if token in retired then Ok([]) else Err(NotFound);
      }
      var seqnum := byToken[token];
      if seqnum !in bySeqnum {
        return Err(Internal);
      }
      var p := bySeqnum[seqnum];
      if p.unlink.None? {
        return Err(InvalidState);
      }
      Remove(token, seqnum);
      var first :- EncodeSubmitReply(SubmitAnswer(p.request, CANCELLATION));
      var second :- EncodeUnlinkReply(UnlinkReply(p.unlink.value, status));
      return Ok([ReplyEvent(first), ReplyEvent(second)]);
    }

    method CancelOnClose(token: u64) returns (r: Result<seq<ExecutorEvent>>)
      modifies this
      ensures (Model(), r) == CancelForClose(old(Model()), token)
    {
      if token !in byToken {
        return Err(NotFound);
      }
      var seqnum := byToken[token];
      if seqnum !in bySeqnum {
        byToken := byToken - {token};
        return Err(Internal);
      }
      var p := bySeqnum[seqnum];
      Remove(token, seqnum);
      var first :- EncodeSubmitReply(SubmitAnswer(p.request, CANCELLATION));
      var events := [ReplyEvent(first)];
      if p.unlink.Some? {
        var second :- EncodeUnlinkReply(UnlinkReply(p.unlink.value, STATUS_CANCELLED));
        events := events + [ReplyEvent(second)];
        assert events == [ReplyEvent(first), ReplyEvent(second)];
      }
      return Ok(events);
    }

    /** Cancels everything pending; the order is whatever order the tokens come out in. */
    method CloseTransfers() returns (events: seq<ExecutorEvent>, ghost order: seq<u64>)
      modifies this
      ensures Lists(order, old(byToken).Keys)
      ensures (Model(), events) == CloseAll(old(Model()), order)
    {
      ghost var start := Model();
      var tokens := byToken.Keys;
      ghost var all := tokens;
      events, order := [], [];
      while tokens != {}
        invariant tokens <= all
        invariant Distinct(order)
        invariant forall k :: k in order <==> k in all && k !in tokens
        invariant (Model(), events) == CloseAll(start, order)
        decreases tokens
      {
        var token :| token in tokens;
        tokens := tokens - {token};
        var cancelled := CancelOnClose(token);
        if cancelled.Ok? {
          events := events + cancelled.value;
        }
        assert (order + [token])[..|order|] == order;
        order := order + [token];
      }
    }
  }
}
