/** What every run of the executor keeps: each transfer is answered exactly once, each UNLINK too. */
module ExecutionRuns {
  import opened Base
  import opened Pdu
  import opened Execution

  datatype Op =
    | Accept(wire: bytes)
    | Finish(token: u64, completion: Completion)
    | Cancel(cancelToken: u64, status: i32)
    | Shut(order: seq<u64>)

  function Step(t: Table, op: Op): (Table, Result<seq<ExecutorEvent>>) {
    match op
    case Accept(wire) => AcceptPdu(t, wire)
    case Finish(token, c) => Complete(t, token, c)
    case Cancel(token, status) => CompleteCancel(t, token, status)
    case Shut(order) => var (t', events) := CloseAll(t, order); (t', Ok(events))
  }

  // The one constraint on a run: closing goes through exactly the tokens that are pending.
  ghost predicate Legal(t: Table, op: Op) {
    op.Shut? ==> Lists(op.order, t.byToken.Keys)
  }

  function Events(r: Result<seq<ExecutorEvent>>): seq<ExecutorEvent> {
    if r.Ok? then r.value else []
  }

  function After(t: Table, ops: seq<Op>): Table {
    if ops == [] then t else Step(After(t, ops[..|ops| - 1]), ops[|ops| - 1]).0
  }

  /** Everything a run reported, in order. */
  function Produced(t: Table, ops: seq<Op>): seq<ExecutorEvent> {
    if ops == [] then []
    else Produced(t, ops[..|ops| - 1]) + Events(Step(After(t, ops[..|ops| - 1]), ops[|ops| - 1]).1)
  }

  ghost predicate LegalRun(t: Table, ops: seq<Op>) {
    ops == [] ||
    (LegalRun(t, ops[..|ops| - 1]) && Legal(After(t, ops[..|ops| - 1]), ops[|ops| - 1]))
  }

  // ------------------------------------------------- what an observer can see

  function Keep<T>(f: ExecutorEvent -> Option<T>, events: seq<ExecutorEvent>): seq<T> {
    if events == [] then []
    else
      var last := f(events[|events| - 1]);
      Keep(f, events[..|events| - 1]) + (if last.Some? then [last.value] else [])
  }

  function Issued(e: ExecutorEvent): Option<u32> {
    if e.SubmitEvent? then Some(e.request.seqnum) else None
  }

  function IssuedToken(e: ExecutorEvent): Option<u64> {
    if e.SubmitEvent? then Some(e.token) else None
  }

  /** The sequence number a reply answers with RET_SUBMIT, read from its bytes. */
  function Answered(e: ExecutorEvent): Option<u32> {
    if e.ReplyEvent? && DecodeReply(e.pdu).Ok? && DecodeReply(e.pdu).value.SubmitRet?
    then Some(DecodeReply(e.pdu).value.submit.seqnum) else None
  }

  /** The sequence number a reply answers with RET_UNLINK, read from its bytes. */
  function Unlinked(e: ExecutorEvent): Option<u32> {
    if e.ReplyEvent? && DecodeReply(e.pdu).Ok? && DecodeReply(e.pdu).value.UnlinkRet?
    then Some(DecodeReply(e.pdu).value.unlink.seqnum) else None
  }

  lemma {:induction false} KeepConcat<T>(f: ExecutorEvent -> Option<T>, a: seq<ExecutorEvent>, b: seq<ExecutorEvent>)
    ensures Keep(f, a + b) == Keep(f, a) + Keep(f, b)
  {
    if b == [] {
      assert a + b == a;
    } else {
      var n := |b| - 1;
      KeepConcat(f, a, b[..n]);
      assert (a + b)[..|a + b| - 1] == a + b[..n];
      assert (a + b)[|a + b| - 1] == b[n];
    }
  }

  lemma KeepOne<T>(f: ExecutorEvent -> Option<T>, e: ExecutorEvent)
    ensures Keep(f, [e]) == (if f(e).Some? then [f(e).value] else [])
  {
    assert [e][..0] == [];
  }

  lemma KeepTwo<T>(f: ExecutorEvent -> Option<T>, d: ExecutorEvent, e: ExecutorEvent)
    ensures Keep(f, [d, e]) == Keep(f, [d]) + Keep(f, [e])
  {
    KeepConcat(f, [d], [e]);
    assert [d] + [e] == [d, e];
  }

  // The entries on which an UNLINK of this sequence number is recorded.
  ghost function Recorded(t: Table, u: u32): set<u32> {
    set n | n in t.bySeqnum && t.bySeqnum[n].unlink == Some(u)
  }

  // The UNLINK, if any, that this action accepted.
  function AcceptedUnlink(t: Table, op: Op): Option<u32> {
    if op.Accept? && DecodeRequest(op.wire).Ok? && DecodeRequest(op.wire).value.Unlink? && Step(t, op).1.Ok?
    then Some(DecodeRequest(op.wire).value.unlink.seqnum) else None
  }

  function AcceptedUnlinks(t: Table, ops: seq<Op>): seq<u32> {
    if ops == [] then []
    else
      var u := AcceptedUnlink(After(t, ops[..|ops| - 1]), ops[|ops| - 1]);
      AcceptedUnlinks(t, ops[..|ops| - 1]) + (if u.Some? then [u.value] else [])
  }

  // --------------------------------------------------------------- one action

  /** What happened between two tables, seen from outside: who was issued, who was answered. */
  ghost predicate Balanced(t: Table, t': Table, events: seq<ExecutorEvent>) {
    && Indexed(t')
    && t'.maxInflight == t.maxInflight && t'.maxTransfer == t.maxTransfer && t'.nextToken >= t.nextToken
    && multiset(Keep(Answered, events)) == multiset(t.bySeqnum.Keys - t'.bySeqnum.Keys)
    && multiset(Keep(Issued, events)) == multiset(t'.bySeqnum.Keys - t.bySeqnum.Keys)
  }

  /** UNLINKs owed before, plus those accepted, are those answered plus those still owed. */
  ghost predicate UnlinksBalanced(t: Table, t': Table, events: seq<ExecutorEvent>, accepted: seq<u32>) {
    forall u :: |Recorded(t, u)| + multiset(accepted)[u] == multiset(Keep(Unlinked, events))[u] + |Recorded(t', u)|
  }

  lemma ReplyReads(e: ExecutorEvent, r: Reply)
    requires e.ReplyEvent? && EncodeReply(r) == Ok(e.pdu)
    ensures Answered(e) == (if r.SubmitRet? then Some(r.submit.seqnum) else None)
    ensures Unlinked(e) == (if r.UnlinkRet? then Some(r.unlink.seqnum) else None)
    ensures Issued(e) == None && IssuedToken(e) == None
  {
    ReplyRoundTrip(r);
  }

  lemma RepliesRead(t: Table, seqnum: u32, c: Completion, status: i32)
    requires Indexed(t) && seqnum in t.bySeqnum
    requires var r := t.bySeqnum[seqnum].request;
      |c.data| == DataLength(r.direction, c.actualLength) && c.actualLength <= r.transferBufferLength
    ensures Replies(t.bySeqnum[seqnum], c, status).Ok?
    ensures var events := Replies(t.bySeqnum[seqnum], c, status).value;
      && events != []
      && Keep(Answered, events) == [seqnum]
      && Keep(Unlinked, events) == (if t.bySeqnum[seqnum].unlink.Some? then [t.bySeqnum[seqnum].unlink.value] else [])
      && Keep(Issued, events) == [] && Keep(IssuedToken, events) == []
  {
    hide Keep, EncodeSubmitReply, EncodeUnlinkReply, DecodeReply, Answered, Unlinked;
    var p := t.bySeqnum[seqnum];
    RepliesEncode(t, seqnum, c, status);
    var events := Replies(p, c, status).value;
    var first := SubmitRet(SubmitAnswer(p.request, c));
    ReplyReads(events[0], first);
    KeepOne(Answered, events[0]);
    KeepOne(Unlinked, events[0]);
    KeepOne(Issued, events[0]);
    KeepOne(IssuedToken, events[0]);
    if p.unlink.Some? {
      ReplyReads(events[1], UnlinkRet(UnlinkReply(p.unlink.value, status)));
      KeepOne(Answered, events[1]);
      KeepOne(Unlinked, events[1]);
      KeepOne(Issued, events[1]);
      KeepOne(IssuedToken, events[1]);
      KeepTwo(Answered, events[0], events[1]);
      KeepTwo(Unlinked, events[0], events[1]);
      KeepTwo(Issued, events[0], events[1]);
      KeepTwo(IssuedToken, events[0], events[1]);
      assert events == [events[0], events[1]];
    } else {
      assert events == [events[0]];
    }
  }

  lemma RecordedRetire(t: Table, token: u64, seqnum: u32, u: u32)
    requires seqnum in t.bySeqnum
    ensures var before, after := |Recorded(t, u)|, |Recorded(Retire(t, token, seqnum), u)|;
      before == after + (if t.bySeqnum[seqnum].unlink == Some(u) then 1 else 0)
  {
    var t' := Retire(t, token, seqnum);
    if t.bySeqnum[seqnum].unlink == Some(u) {
      assert Recorded(t', u) == Recorded(t, u) - {seqnum};
    } else {
      assert Recorded(t', u) == Recorded(t, u);
    }
  }

  lemma KeysShrink(before: set<u32>, n: u32)
    requires n in before
    ensures multiset(before - (before - {n})) == multiset([n])
    ensures multiset(before - {n} - before) == multiset([])
  {
    assert before - (before - {n}) == {n};
    assert before - {n} - before == {};
  }

  lemma SettlesOne(t: Table, token: u64, events: seq<ExecutorEvent>)
    requires Indexed(t) && token in t.byToken
    requires Keep(Answered, events) == [t.byToken[token]] && Keep(Issued, events) == []
    ensures Balanced(t, Retire(t, token, t.byToken[token]), events)
  {
    assert t.byToken[token] in t.bySeqnum;
    RetireIndexed(t, token);
    KeysShrink(t.bySeqnum.Keys, t.byToken[token]);
    hide Keep, Indexed, Remember;
  }

  lemma SettlesUnlink(t: Table, token: u64, seqnum: u32, events: seq<ExecutorEvent>)
    requires seqnum in t.bySeqnum
    requires var u := t.bySeqnum[seqnum].unlink; Keep(Unlinked, events) == if u.Some? then [u.value] else []
    ensures UnlinksBalanced(t, Retire(t, token, seqnum), events, [])
  {
    hide Keep, Recorded;
    forall u
      ensures |Recorded(t, u)| + multiset([])[u] == multiset(Keep(Unlinked, events))[u] + |Recorded(Retire(t,
          token, seqnum), u)|
    {
      RecordedRetire(t, token, seqnum, u);
    }
  }

  /** Settling a pending transfer: one RET_SUBMIT with its number, one RET_UNLINK if one is owed. */
  lemma Settles(t: Table, token: u64, c: Completion, status: i32)
    requires Indexed(t) && token in t.byToken
    requires var r := t.bySeqnum[t.byToken[token]].request;
      |c.data| == DataLength(r.direction, c.actualLength) && c.actualLength <= r.transferBufferLength
    ensures var seqnum := t.byToken[token];
      var t' := Retire(t, token, seqnum);
      var r := Replies(t.bySeqnum[seqnum], c, status);
      && r.Ok? && r.value != []
      && Balanced(t, t', r.value)
      && UnlinksBalanced(t, t', r.value, [])
      && t'.byToken.Keys == t.byToken.Keys - {token}
      && t'.bySeqnum.Keys == t.bySeqnum.Keys - {seqnum}
      && Keep(IssuedToken, r.value) == []
  {
    var seqnum := t.byToken[token];
    assert seqnum in t.bySeqnum;
    RetireIndexed(t, token);
    RepliesRead(t, seqnum, c, status);
    var events := Replies(t.bySeqnum[seqnum], c, status).value;
    hide *;
    SettlesOne(t, token, events);
    SettlesUnlink(t, token, seqnum, events);
  }

  // A step that reports nothing and moves nothing is balanced.
  lemma Quiet(t: Table)
    requires Indexed(t)
    ensures Balanced(t, t, []) && UnlinksBalanced(t, t, [], [])
  {
    assert t.bySeqnum.Keys - t.bySeqnum.Keys == {};
  }

  lemma KeepAll(e: ExecutorEvent)
    ensures Keep(Answered, [e]) == (if Answered(e).Some? then [Answered(e).value] else [])
    ensures Keep(Unlinked, [e]) == (if Unlinked(e).Some? then [Unlinked(e).value] else [])
    ensures Keep(Issued, [e]) == (if Issued(e).Some? then [Issued(e).value] else [])
    ensures Keep(IssuedToken, [e]) == (if IssuedToken(e).Some? then [IssuedToken(e).value] else [])
  {
    KeepOne(Answered, e);
    KeepOne(Unlinked, e);
    KeepOne(Issued, e);
    KeepOne(IssuedToken, e);
  }

  lemma KeysGrow(before: set<u32>, n: u32)
    requires n !in before
    ensures multiset(before + {n} - before) == multiset([n])
    ensures multiset(before - (before + {n})) == multiset([])
  {
    assert before + {n} - before == {n};
    assert before - (before + {n}) == {};
  }

  lemma RecordedKept(t: Table, r: SubmitRequest, u: u32)
    requires t.nextToken < U64_MAX && r.seqnum !in t.bySeqnum
    ensures Recorded(Admit(t, r), u) == Recorded(t, u)
  {
  }

  lemma AdmitBalanced(t: Table, r: SubmitRequest)
    requires Indexed(t) && r.seqnum != 0 && r.seqnum !in t.bySeqnum && r.transferBufferLength <= t.maxTransfer
    requires |t.bySeqnum| < t.maxInflight && t.nextToken < U64_MAX
    ensures Balanced(t, Admit(t, r), [SubmitEvent(t.nextToken, r)])
  {
    AdmitIndexed(t, r);
    KeepAll(SubmitEvent(t.nextToken, r));
    KeysGrow(t.bySeqnum.Keys, r.seqnum);
    hide Keep, Indexed;
  }

  lemma AdmitOwesNothing(t: Table, r: SubmitRequest)
    requires t.nextToken < U64_MAX && r.seqnum !in t.bySeqnum
    ensures UnlinksBalanced(t, Admit(t, r), [SubmitEvent(t.nextToken, r)], [])
  {
    KeepAll(SubmitEvent(t.nextToken, r));
    hide Keep, Recorded;
    forall u
      ensures Recorded(Admit(t, r), u) == Recorded(t, u)
    {
      RecordedKept(t, r, u);
    }
  }

  lemma SubmitBalanced(t: Table, r: SubmitRequest)
    requires Indexed(t) && r.seqnum != 0 && AcceptSubmit(t, r).1.Ok?
    ensures var (t', e) := AcceptSubmit(t, r);
      && Balanced(t, t', e.value) && UnlinksBalanced(t, t', e.value, [])
      && Keep(IssuedToken, e.value) == [t.nextToken] && t'.nextToken == t.nextToken + 1
  {
    var e := SubmitEvent(t.nextToken, r);
    assert AcceptSubmit(t, r) == (Admit(t, r), Ok([e]));
    hide Indexed, Balanced, UnlinksBalanced, Keep;
    AdmitBalanced(t, r);
    AdmitOwesNothing(t, r);
    KeepAll(e);
  }

  lemma RecordedGrows(t: Table, n: u32, seqnum: u32, u: u32)
    requires n in t.bySeqnum && t.bySeqnum[n].unlink.None?
    ensures var t' := t.(bySeqnum := t.bySeqnum[n := t.bySeqnum[n].(unlink := Some(seqnum))]);
      |Recorded(t', u)| == |Recorded(t, u)| + (if u == seqnum then 1 else 0)
  {
    var t' := t.(bySeqnum := t.bySeqnum[n := t.bySeqnum[n].(unlink := Some(seqnum))]);
    if u == seqnum {
      assert Recorded(t', u) == Recorded(t, u) + {n};
    } else {
      assert Recorded(t', u) == Recorded(t, u);
    }
  }

  lemma UnlinkBalanced(t: Table, u: UnlinkRequest)
    requires Indexed(t) && u.seqnum != 0 && AcceptUnlink(t, u).1.Ok?
    ensures var (t', e) := AcceptUnlink(t, u);
      && Balanced(t, t', e.value) && UnlinksBalanced(t, t', e.value, [u.seqnum])
      && Keep(IssuedToken, e.value) == [] && t'.nextToken == t.nextToken
  {
    var (t', e) := AcceptUnlink(t, u);
    UnlinkIndexed(t, u);
    KeepAll(e.value[0]);
    if u.targetSeqnum !in t.bySeqnum {
      ReplyReads(e.value[0], UnlinkRet(UnlinkReply(u.seqnum, STATUS_NO_ENTRY)));
    }
    hide Keep, Indexed, Recorded;
    assert t.bySeqnum.Keys - t'.bySeqnum.Keys == {};
    if u.targetSeqnum in t.bySeqnum {
      forall v
        ensures |Recorded(t', v)| == |Recorded(t, v)| + (if v == u.seqnum then 1 else 0)
      {
        RecordedGrows(t, u.targetSeqnum, u.seqnum, v);
      }
    }
  }

  lemma GoneInTwoSteps(a: set<u32>, b: set<u32>, c: set<u32>)
    requires c <= b <= a
    ensures multiset(a - b) + multiset(b - c) == multiset(a - c)
    ensures multiset(b - a) == multiset(c - b) == multiset(c - a) == multiset([])
  {
    assert a - c == (a - b) + (b - c);
    assert b - a == c - b == c - a == {};
  }

  lemma Compose(t: Table, m: Table, t': Table, a: seq<ExecutorEvent>, b: seq<ExecutorEvent>)
    requires Balanced(t, m, a) && Balanced(m, t', b)
    requires m.bySeqnum.Keys <= t.bySeqnum.Keys && t'.bySeqnum.Keys <= m.bySeqnum.Keys
    ensures Balanced(t, t', a + b)
  {
    hide Keep, Indexed;
    KeepConcat(Answered, a, b);
    KeepConcat(Issued, a, b);
    GoneInTwoSteps(t.bySeqnum.Keys, m.bySeqnum.Keys, t'.bySeqnum.Keys);
  }

  lemma ComposeUnlinks(t: Table, m: Table, t': Table, a: seq<ExecutorEvent>, b: seq<ExecutorEvent>, p: seq<u32>,
      q: seq<u32>)
    requires UnlinksBalanced(t, m, a, p) && UnlinksBalanced(m, t', b, q)
    ensures UnlinksBalanced(t, t', a + b, p + q)
  {
    hide Keep, Recorded;
    KeepConcat(Unlinked, a, b);
  }

  function Members(s: seq<u64>): set<u64> {
    set k | k in s
  }

  // One token of a closing table: its transfer is settled as cancelled.
  lemma ShutOne(t: Table, token: u64)
    requires Indexed(t) && token in t.byToken
    ensures var (t', r) := CancelForClose(t, token);
      && r.Ok? && Balanced(t, t', r.value) && UnlinksBalanced(t, t', r.value, [])
      && t'.byToken.Keys == t.byToken.Keys - {token}
      && t'.bySeqnum.Keys <= t.bySeqnum.Keys
      && Keep(IssuedToken, r.value) == [] && t'.nextToken == t.nextToken
  {
    assert t.byToken[token] in t.bySeqnum;
    Settles(t, token, CANCELLATION, STATUS_CANCELLED);
    hide Balanced, UnlinksBalanced, Keep, Indexed, Replies, Remember;
  }

  lemma LastMember(order: seq<u64>, n: nat)
    requires Distinct(order) && |order| == n + 1
    ensures Distinct(order[..n]) && order[n] !in Members(order[..n])
    ensures Members(order) == Members(order[..n]) + {order[n]}
  {
    assert order == order[..n] + [order[n]];
  }

  ghost predicate Shuts(t: Table, order: seq<u64>, t': Table, events: seq<ExecutorEvent>) {
    && Balanced(t, t', events) && UnlinksBalanced(t, t', events, [])
    && t'.byToken.Keys == t.byToken.Keys - Members(order)
    && t'.bySeqnum.Keys <= t.bySeqnum.Keys
    && Keep(IssuedToken, events) == [] && t'.nextToken == t.nextToken
  }

  lemma ShutNext(t: Table, before: seq<u64>, m: Table, a: seq<ExecutorEvent>, token: u64, order: seq<u64>)
    requires Shuts(t, before, m, a) && token in m.byToken
    requires Members(order) == Members(before) + {token}
    ensures var (t', r) := CancelForClose(m, token);
      r.Ok? && Shuts(t, order, t', a + r.value)
  {
    assert Indexed(m);
    ShutOne(m, token);
    var (t', r) := CancelForClose(m, token);
    Compose(t, m, t', a, r.value);
    ComposeUnlinks(t, m, t', a, r.value, [], []);
    KeepConcat(IssuedToken, a, r.value);
    hide *;
    LessOne(t.byToken.Keys, Members(before), token);
  }

  lemma LessOne(a: set<u64>, b: set<u64>, k: u64)
    ensures a - b - {k} == a - (b + {k})
  {
  }

  /** Closing drops no token: each one in the order listed is settled, whatever the order. */
  lemma {:induction false} ShutBalanced(t: Table, order: seq<u64>)
    requires Indexed(t) && Distinct(order) && Members(order) <= t.byToken.Keys
    ensures Shuts(t, order, CloseAll(t, order).0, CloseAll(t, order).1)
  {
    if order == [] {
      Quiet(t);
      hide Indexed, Balanced, UnlinksBalanced;
      assert t.byToken.Keys - Members(order) == t.byToken.Keys;
    } else {
      var n := |order| - 1;
      LastMember(order, n);
      hide Indexed, Distinct, Members, CancelForClose;
      ShutBalanced(t, order[..n]);
      var (m, a) := CloseAll(t, order[..n]);
      assert order[n] in m.byToken by { hide Balanced, UnlinksBalanced; }
      ShutNext(t, order[..n], m, a, order[n], order);
    }
  }

  lemma ShutStepBalanced(t: Table, order: seq<u64>)
    requires Indexed(t) && Lists(order, t.byToken.Keys)
    ensures Shuts(t, order, CloseAll(t, order).0, CloseAll(t, order).1)
    ensures CloseAll(t, order).0.byToken == map[]
  {
    ShutBalanced(t, order);
    hide CloseAll, Indexed, Balanced, UnlinksBalanced;
    assert CloseAll(t, order).0.byToken.Keys == {};
  }

  /** Every action keeps the index and is balanced; one that is refused reports nothing. */
  lemma StepBalanced(t: Table, op: Op)
    requires Indexed(t) && Legal(t, op)
    ensures var (t', r) := Step(t, op);
      var u := AcceptedUnlink(t, op);
      && Balanced(t, t', Events(r))
      && UnlinksBalanced(t, t', Events(r), if u.Some? then [u.value] else [])
  {
    hide Balanced, UnlinksBalanced, Indexed, Lists, AcceptPdu, Complete, CompleteCancel, CloseAll, DecodeRequest;
    match op
    case Accept(wire) => AcceptBalanced(t, wire);
    case Finish(token, c) => FinishBalanced(t, token, c);
    case Cancel(token, status) => CancelBalanced(t, token, status);
    case Shut(order) => ShutStepBalanced(t, order);
  }

  lemma AcceptSubmitBalanced(t: Table, wire: bytes, r: SubmitRequest)
    requires Indexed(t) && DecodeRequest(wire) == Ok(Submit(r)) && r.seqnum != 0
    ensures var (t', e) := AcceptPdu(t, wire);
      Balanced(t, t', Events(e)) && UnlinksBalanced(t, t', Events(e), [])
  {
    hide DecodeRequest, Indexed, Balanced, UnlinksBalanced;
    Quiet(t);
    if AcceptSubmit(t, r).1.Ok? {
      SubmitBalanced(t, r);
    }
  }

  lemma AcceptUnlinkBalanced(t: Table, wire: bytes, u: UnlinkRequest)
    requires Indexed(t) && DecodeRequest(wire) == Ok(Unlink(u)) && u.seqnum != 0
    ensures var (t', e) := AcceptPdu(t, wire);
      Balanced(t, t', Events(e)) && UnlinksBalanced(t, t', Events(e), if e.Ok? then [u.seqnum] else [])
  {
    hide DecodeRequest, Indexed, Balanced, UnlinksBalanced;
    Quiet(t);
    if AcceptUnlink(t, u).1.Ok? {
      UnlinkBalanced(t, u);
    }
  }

  lemma AcceptBalanced(t: Table, wire: bytes)
    requires Indexed(t)
    ensures var (t', r) := AcceptPdu(t, wire);
      var u := AcceptedUnlink(t, Accept(wire));
      && Balanced(t, t', Events(r))
      && UnlinksBalanced(t, t', Events(r), if u.Some? then [u.value] else [])
  {
    var d := DecodeRequest(wire);
    if d.Ok? {
      DecodedIsNumbered(wire);
    }
    hide DecodeRequest, AcceptSubmit, AcceptUnlink, Indexed, Balanced, UnlinksBalanced;
    if d.Err? {
      Quiet(t);
    } else {
      match d.value {
        case Submit(r) => AcceptSubmitBalanced(t, wire, r);
        case Unlink(u) => AcceptUnlinkBalanced(t, wire, u);
      }
    }
  }

  lemma FinishBalanced(t: Table, token: u64, c: Completion)
    requires Indexed(t)
    ensures var (t', r) := Complete(t, token, c);
      Balanced(t, t', Events(r)) && UnlinksBalanced(t, t', Events(r), [])
  {
    Quiet(t);
    var (t', r) := Complete(t, token, c);
    if token in t.byToken && r.Ok? {
      Settles(t, token, c, 0);
    }
    hide Balanced, UnlinksBalanced, Indexed, Replies;
  }

  lemma CancelBalanced(t: Table, token: u64, status: i32)
    requires Indexed(t)
    ensures var (t', r) := CompleteCancel(t, token, status);
      Balanced(t, t', Events(r)) && UnlinksBalanced(t, t', Events(r), [])
  {
    Quiet(t);
    if token in t.byToken {
      Settles(t, token, CANCELLATION, status);
    }
    hide Balanced, UnlinksBalanced, Indexed, Replies;
  }

  lemma DecodedIsNumbered(wire: bytes)
    requires DecodeRequest(wire).Ok?
    ensures match DecodeRequest(wire).value
      case Submit(r) => r.seqnum != 0
      case Unlink(u) => u.seqnum != 0
  {
  }

  // -------------------------------------------------------------- whole runs

  predicate Fresh(t: Table) {
    NewTable(t.maxInflight, t.maxTransfer) == Ok(t)
  }

  lemma FreshIndexed(t: Table)
    requires Fresh(t)
    ensures Indexed(t)
  {
  }

  ghost predicate Accounted(t: Table, issued: seq<u32>, answered: seq<u32>) {
    multiset(issued) == multiset(answered) + multiset(t.bySeqnum.Keys)
  }

  ghost predicate UnlinksAccounted(t: Table, accepted: seq<u32>, answered: seq<u32>) {
    forall u :: multiset(accepted)[u] == multiset(answered)[u] + |Recorded(t, u)|
  }

  lemma KeysMove(a: set<u32>, b: set<u32>)
    ensures multiset(b) + multiset(a - b) == multiset(a) + multiset(b - a)
  {
    assert a == (a * b) + (a - b) && b == (a * b) + (b - a);
    assert multiset(a) == multiset(a * b) + multiset(a - b);
    assert multiset(b) == multiset(a * b) + multiset(b - a);
  }

  lemma Transfer(i: multiset<u32>, r: multiset<u32>, a: multiset<u32>, b: multiset<u32>, gone: multiset<u32>,
      come: multiset<u32>)
    requires i == r + a && b + gone == a + come
    ensures i + come == r + gone + b
  {
    assert i + come == r + (a + come);
    assert r + gone + b == r + (b + gone);
  }

  lemma AccountNext(t: Table, t': Table, issued: seq<u32>, answered: seq<u32>, events: seq<ExecutorEvent>)
    requires Accounted(t, issued, answered) && Balanced(t, t', events)
    ensures Accounted(t', issued + Keep(Issued, events), answered + Keep(Answered, events))
  {
    hide Keep, Indexed;
    var a, b := t.bySeqnum.Keys, t'.bySeqnum.Keys;
    KeysMove(a, b);
    Transfer(multiset(issued), multiset(answered), multiset(a), multiset(b), multiset(a - b), multiset(b - a));
  }

  lemma UnlinksAccountNext(t: Table, t': Table, accepted: seq<u32>, answered: seq<u32>, events: seq<ExecutorEvent>,
      more: seq<u32>)
    requires UnlinksAccounted(t, accepted, answered) && UnlinksBalanced(t, t', events, more)
    ensures UnlinksAccounted(t', accepted + more, answered + Keep(Unlinked, events))
  {
    hide Keep, Recorded;
  }

  /**
   Exactly once, over every run from an empty table. The transfers handed to the
   platform are those answered with RET_SUBMIT plus those still pending, each
   number counted as often as it was used; the UNLINKs accepted are those
   answered with RET_UNLINK plus those still recorded on a pending transfer.
   Both are read from the bytes of the replies.
   */
  lemma {:induction false} ExactlyOnce(t: Table, ops: seq<Op>)
    requires Fresh(t) && LegalRun(t, ops)
    ensures Indexed(After(t, ops))
    ensures var events := Produced(t, ops);
      && Accounted(After(t, ops), Keep(Issued, events), Keep(Answered, events))
      && UnlinksAccounted(After(t, ops), AcceptedUnlinks(t, ops), Keep(Unlinked, events))
  {
    if ops == [] {
      FreshIndexed(t);
    } else {
      var before, op := ops[..|ops| - 1], ops[|ops| - 1];
      ExactlyOnce(t, before);
      var m, events := After(t, before), Produced(t, before);
      StepBalanced(m, op);
      var (t', r) := Step(m, op);
      var u := AcceptedUnlink(m, op);
      hide Keep, Step, AcceptedUnlink, Indexed, Accounted, UnlinksAccounted, UnlinksBalanced, Legal;
      AccountNext(m, t', Keep(Issued, events), Keep(Answered, events), Events(r));
      UnlinksAccountNext(m, t', AcceptedUnlinks(t, before), Keep(Unlinked, events), Events(r),
          if u.Some? then [u.value] else []);
      KeepConcat(Issued, events, Events(r));
      KeepConcat(Answered, events, Events(r));
      KeepConcat(Unlinked, events, Events(r));
      assert Indexed(t') by { hide Accounted; }
    }
  }

  // How many times a number occurs.
  function Times(s: seq<u32>, n: u32): nat {
    multiset(s)[n]
  }

  lemma CountAt(t: Table, issued: seq<u32>, answered: seq<u32>, n: u32)
    requires Accounted(t, issued, answered)
    ensures Times(issued, n) == Times(answered, n) + (if n in t.bySeqnum then 1 else 0)
  {
    assert multiset(issued)[n] == (multiset(answered) + multiset(t.bySeqnum.Keys))[n];
  }

  /** At every moment a number has been issued once more than answered if it is pending, and as often if not. */
  lemma OneAnswerEach(t: Table, ops: seq<Op>, n: u32)
    requires Fresh(t) && LegalRun(t, ops)
    ensures var events := Produced(t, ops);
      Times(Keep(Issued, events), n)
      == Times(Keep(Answered, events), n) + (if n in After(t, ops).bySeqnum then 1 else 0)
  {
    ExactlyOnce(t, ops);
    CountAt(After(t, ops), Keep(Issued, Produced(t, ops)), Keep(Answered, Produced(t, ops)), n);
  }

  // ------------------------------------------------------------ token by token

  /** What one action may do to tokens: new ones are fresh and pending, old ones never come back or change hands. */
  ghost predicate Carries(t: Table, t': Table) {
    && t.nextToken <= t'.nextToken
    && (forall k :: k in t.byToken && k in t'.byToken ==> t'.byToken[k] == t.byToken[k])
    && (forall k :: k in t'.byToken ==> k in t.byToken || t.nextToken <= k)
    && (forall k :: t.nextToken <= k < t'.nextToken ==> k in t'.byToken)
    && (forall n :: n in t.bySeqnum && n in t'.bySeqnum ==> t'.bySeqnum[n].token == t.bySeqnum[n].token)
  }

  lemma {:induction false} ShutCarries(t: Table, order: seq<u64>)
    ensures Carries(t, CloseAll(t, order).0) && CloseAll(t, order).0.nextToken == t.nextToken
    ensures CloseAll(t, order).0.bySeqnum.Keys <= t.bySeqnum.Keys
    ensures CloseAll(t, order).0.byToken.Keys <= t.byToken.Keys
  {
    if order != [] {
      hide Replies, Remember;
      ShutCarries(t, order[..|order| - 1]);
    }
  }

  lemma AcceptCarries(t: Table, wire: bytes)
    requires Indexed(t)
    ensures Carries(t, AcceptPdu(t, wire).0)
  {
    hide DecodeRequest, Pdu.EncodeUnlinkReply;
  }

  lemma SettlingCarries(t: Table, token: u64, c: Completion, status: i32)
    requires Indexed(t)
    ensures Carries(t, Complete(t, token, c).0) && Carries(t, CompleteCancel(t, token, status).0)
  {
    hide Replies, Remember;
  }

  lemma StepCarries(t: Table, op: Op)
    requires Indexed(t)
    ensures Carries(t, Step(t, op).0)
  {
    hide Indexed, Carries, CloseAll, AcceptPdu, Complete, CompleteCancel;
    match op
    case Accept(wire) => AcceptCarries(t, wire);
    case Finish(token, c) => SettlingCarries(t, token, c, 0);
    case Cancel(token, status) => SettlingCarries(t, token, CANCELLATION, status);
    case Shut(order) => ShutCarries(t, order);
  }

  /** How often the transfer of a token was answered: every RET_SUBMIT under its number while it was pending. */
  ghost function AnswersTo(t: Table, ops: seq<Op>, k: u64): nat {
    if ops == [] then 0
    else
      var before, op := ops[..|ops| - 1], ops[|ops| - 1];
      var m := After(t, before);
      var (t', r) := Step(m, op);
      AnswersTo(t, before, k)
      + (if k in m.byToken then multiset(Keep(Answered, Events(r)))[m.byToken[k]] else 0)
  }

  lemma SameOwner(t: Table, t': Table, n: u32)
    requires Indexed(t') && Carries(t, t') && n in t.bySeqnum && n in t'.bySeqnum
    ensures t.bySeqnum[n].token in t'.byToken
  {
    assert t'.bySeqnum[n].token in t'.byToken;
  }

  lemma AnsweredWhenTaken(t: Table, t': Table, events: seq<ExecutorEvent>, k: u64)
    requires Indexed(t) && Balanced(t, t', events) && Carries(t, t')
    requires k in t.byToken && k !in t'.byToken
    ensures multiset(Keep(Answered, events))[t.byToken[k]] == 1
  {
    hide Keep;
    var n := t.byToken[k];
    assert n in t.bySeqnum && t.bySeqnum[n].token == k;
    if n in t'.bySeqnum {
      SameOwner(t, t', n);
      assert false;
    }
    assert n in t.bySeqnum.Keys - t'.bySeqnum.Keys;
  }

  lemma UnansweredWhilePending(t: Table, t': Table, events: seq<ExecutorEvent>, k: u64)
    requires Balanced(t, t', events) && Carries(t, t')
    requires k in t.byToken && k in t'.byToken
    ensures multiset(Keep(Answered, events))[t.byToken[k]] == 0
  {
    hide Keep;
    assert t'.byToken[k] in t'.bySeqnum;
    assert t.byToken[k] !in t.bySeqnum.Keys - t'.bySeqnum.Keys;
  }

  /**
   Every token ever issued is either pending and unanswered, or settled with
   exactly one RET_SUBMIT under its own number; tokens not yet issued have none.
   */
  lemma {:induction false} OneAnswerPerToken(t: Table, ops: seq<Op>, k: u64)
    requires Fresh(t) && LegalRun(t, ops)
    ensures var t' := After(t, ops);
      AnswersTo(t, ops, k) == (if 1 <= k < t'.nextToken && k !in t'.byToken then 1 else 0)
  {
    if ops != [] {
      var before, op := ops[..|ops| - 1], ops[|ops| - 1];
      OneAnswerPerToken(t, before, k);
      ExactlyOnce(t, before);
      var m := After(t, before);
      StepBalanced(m, op);
      StepCarries(m, op);
      var (t', r) := Step(m, op);
      assert k in m.byToken ==> 1 <= k < m.nextToken;
      hide Keep, Step, Indexed, Accounted, UnlinksAccounted, UnlinksBalanced, Legal;
      if k in m.byToken && k !in t'.byToken {
        AnsweredWhenTaken(m, t', Events(r), k);
      } else if k in m.byToken {
        UnansweredWhilePending(m, t', Events(r), k);
      }
    }
  }
}
