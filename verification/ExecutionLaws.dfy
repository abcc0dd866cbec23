/** Further laws of the executor: refusals, predictions, closing, and late completions. */
module ExecutionLaws {
  import opened Base
  import opened Pdu
  import opened Execution
  import opened ExecutionRuns

  /** A refused action changes nothing. */
  lemma RefusedChangesNothing(t: Table, op: Op)
    requires Indexed(t) && Step(t, op).1.Err?
    ensures Step(t, op).0 == t
  {
    match op
    case Accept(wire) => hide DecodeRequest;
    case Finish(token, c) =>
    case Cancel(token, status) =>
      if token in t.byToken {
        RepliesEncode(t, t.byToken[token], CANCELLATION, status);
      }
    case Shut(order) =>
  }

  /**
   Checking a completion beforehand tells exactly what completing will do: replies,
   silence, or the same refusal.
   */
  lemma ValidationPredicts(t: Table, token: u64, c: Completion)
    requires Indexed(t)
    ensures var v := ValidateCompletion(t, token, c.actualLength, |c.data|);
      var r := Complete(t, token, c).1;
      && (v == Ok(true) <==> r.Ok? && r.value != [])
      && (v == Ok(false) <==> r == Ok([]))
      && (v.Err? <==> r.Err?)
      && (v.Err? ==> r == Err(v.error))
      && (r.Ok? && r.value != [] <==> Complete(t, token, c).0 != t)
  {
    if token in t.byToken && ValidateCompletion(t, token, c.actualLength, |c.data|).Ok? {
      Settles(t, token, c, 0);
      hide Replies, Balanced, UnlinksBalanced;
      assert token in t.byToken.Keys && token !in Complete(t, token, c).0.byToken.Keys;
    }
  }

  // What is reported about a transfer goes into its reply field by field.
  lemma AnswerFields(r: SubmitRequest, c: Completion)
    ensures SubmitAnswer(r, c)
         == SubmitReply(r.seqnum, r.direction, c.status, c.actualLength, c.startFrame, c.errorCount, c.data)
  {
  }

  /**
   The reply that ends a transfer carries its number, and the status, length, frame,
   error count and data that were reported; an OUT reply of length zero reads as IN.
   The UNLINK's reply follows it, with status zero.
   */
  lemma CompletionReplies(t: Table, token: u64, c: Completion)
    requires Indexed(t) && ValidateCompletion(t, token, c.actualLength, |c.data|) == Ok(true)
    ensures var p := t.bySeqnum[t.byToken[token]];
      var events := Complete(t, token, c).1;
      && events.Ok?
      && |events.value| == (if p.unlink.Some? then 2 else 1)
      && events.value[0].ReplyEvent?
      && DecodeReply(events.value[0].pdu)
         == Ok(SubmitRet(SubmitReply(p.request.seqnum, if c.actualLength == 0 then In else p.request.direction,
                                     c.status, c.actualLength, c.startFrame, c.errorCount, c.data)))
      && (p.unlink.Some? ==>
            && events.value[1].ReplyEvent?
            && DecodeReply(events.value[1].pdu) == Ok(UnlinkRet(UnlinkReply(p.unlink.value, 0))))
  {
    var p := t.bySeqnum[t.byToken[token]];
    RepliesEncode(t, t.byToken[token], c, 0);
    hide DecodeReply, EncodeSubmitReply, EncodeUnlinkReply, SubmitAnswer;
    AnswerFields(p.request, c);
    ReplyRoundTrip(SubmitRet(SubmitAnswer(p.request, c)));
    if p.unlink.Some? {
      ReplyRoundTrip(UnlinkRet(UnlinkReply(p.unlink.value, 0)));
    }
  }

  /**
   Closing empties the table whatever the order: one RET_SUBMIT for each pending
   transfer and one RET_UNLINK for each UNLINK recorded on one, none dropped.
   */
  lemma CloseAnswersAll(t: Table, order: seq<u64>)
    requires Indexed(t) && Lists(order, t.byToken.Keys)
    ensures var (t', events) := CloseAll(t, order);
      && t'.byToken == map[] && t'.bySeqnum == map[]
      && multiset(Keep(Answered, events)) == multiset(t.bySeqnum.Keys)
      && forall u :: multiset(Keep(Unlinked, events))[u] == |Recorded(t, u)|
  {
    ShutStepBalanced(t, order);
    hide CloseAll, Keep, Lists, Recorded;
    var t', events := CloseAll(t, order).0, CloseAll(t, order).1;
    NothingPending(t');
    AllAnswered(t, t', events);
    AllUnlinked(t, t', events);
  }

  lemma AllAnswered(t: Table, t': Table, events: seq<ExecutorEvent>)
    requires Balanced(t, t', events) && t'.bySeqnum == map[]
    ensures multiset(Keep(Answered, events)) == multiset(t.bySeqnum.Keys)
  {
    hide Keep, Indexed;
    assert t.bySeqnum.Keys - t'.bySeqnum.Keys == t.bySeqnum.Keys;
  }

  lemma AllUnlinked(t: Table, t': Table, events: seq<ExecutorEvent>)
    requires UnlinksBalanced(t, t', events, []) && t'.bySeqnum == map[]
    ensures forall u :: multiset(Keep(Unlinked, events))[u] == |Recorded(t, u)|
  {
    hide Keep;
    forall u
      ensures Recorded(t', u) == {}
    {
    }
  }

  lemma NothingPending(t: Table)
    requires Indexed(t) && t.byToken == map[]
    ensures t.bySeqnum == map[]
  {
    assert forall n :: n in t.bySeqnum ==> t.bySeqnum[n].token in t.byToken;
    assert t.bySeqnum.Keys == {};
  }

  // --------------------------------------------------------- late completions

  function SettledBy(t: Table, op: Op): seq<u64> {
    match op
    case Accept(_) => []
    case Finish(token, c) => if token in t.byToken && Complete(t, token, c).1.Ok? then [token] else []
    case Cancel(token, s) => if token in t.byToken && CompleteCancel(t, token, s).1.Ok? then [token] else []
    case Shut(order) => order
  }

  /** The tokens a run has settled, oldest first. */
  function Settled(t: Table, ops: seq<Op>): seq<u64> {
    if ops == [] then []
    else Settled(t, ops[..|ops| - 1]) + SettledBy(After(t, ops[..|ops| - 1]), ops[|ops| - 1])
  }

  // How many of n settled tokens a table still remembers: the count starts over each time the set is full.
  function Span(n: nat, maxInflight: nat): (w: nat)
    requires maxInflight >= 1
    ensures w <= n && w <= 2 * maxInflight
  {
    if n == 0 then 0
    else
      RemainderLess(n - 1, 2 * maxInflight);
      (n - 1) % (2 * maxInflight) + 1
  }

  lemma RemainderLess(n: nat, d: nat)
    requires d >= 1
    ensures n % d <= n
  {
    assert d * (n / d) >= 0;
  }

  lemma AtLeast(d: nat, k: int)
    ensures k >= 1 ==> d * k >= d
    ensures k <= -1 ==> d * k + d <= 0
  {
  }

  lemma NextRemainder(n: nat, d: nat)
    requires d >= 2
    ensures (n + 1) % d == (if n % d == d - 1 then 0 else n % d + 1)
  {
    var q, r := n / d, n % d;
    assert n == q * d + r;
    if r == d - 1 {
      assert n + 1 == (q + 1) * d;
      assert (n + 1) % d == 0 by { Multiples(q + 1, 0, d); }
    } else {
      assert n + 1 == q * d + (r + 1);
      Multiples(q, r + 1, d);
    }
  }

  lemma Multiples(q: nat, r: nat, d: nat)
    requires r < d
    ensures (q * d + r) % d == r
  {
    var k := (q * d + r) / d - q;
    assert d * k == r - (q * d + r) % d;
    AtLeast(d, k);
  }

  // One more settled token: remembered beside the others, or alone if those filled the set.
  lemma SpanNext(n: nat, maxInflight: nat)
    requires maxInflight >= 1
    ensures var w := Span(n, maxInflight);
      Span(n + 1, maxInflight) == if w >= 2 * maxInflight then 1 else w + 1
  {
    if n > 0 {
      NextRemainder(n - 1, 2 * maxInflight);
    }
  }

  ghost predicate Recent(retired: set<u64>, settled: seq<u64>, maxInflight: nat)
    requires maxInflight >= 1
  {
    retired == Members(settled[|settled| - Span(|settled|, maxInflight)..])
  }

  lemma {:induction false} MembersSize(s: seq<u64>)
    requires Distinct(s)
    ensures |Members(s)| == |s|
  {
    if s != [] {
      LastMember(s, |s| - 1);
      MembersSize(s[..|s| - 1]);
    }
  }

  lemma TailGrows(s: seq<u64>, token: u64, k: nat)
    requires k <= |s|
    ensures (s + [token])[k..] == s[k..] + [token]
  {
  }

  lemma DistinctTail(s: seq<u64>, k: nat)
    requires Distinct(s) && k <= |s|
    ensures Distinct(s[k..])
  {
  }

  lemma RecentNext(retired: set<u64>, settled: seq<u64>, maxInflight: nat, token: u64)
    requires maxInflight >= 1 && Distinct(settled) && Recent(retired, settled, maxInflight)
    ensures Recent(Remember(retired, maxInflight, token), settled + [token], maxInflight)
  {
    hide Distinct, Members;
    var n, w := |settled|, Span(|settled|, maxInflight);
    var tail := settled[n - w..];
    DistinctTail(settled, n - w);
    MembersSize(tail);
    SpanNext(n, maxInflight);
    if w >= 2 * maxInflight {
      TailGrows(settled, token, n);
      assert settled[n..] + [token] == [token];
      MembersGrow([], token);
    } else {
      TailGrows(settled, token, n - w);
      MembersGrow(tail, token);
    }
  }

  lemma MembersGrow(s: seq<u64>, token: u64)
    ensures Members(s + [token]) == Members(s) + {token}
    ensures Members([token]) == {token}
  {
  }

  ghost predicate History(t: Table, settled: seq<u64>) {
    && t.maxInflight >= 1
    && Distinct(settled)
    && (forall k :: k in settled <==> 1 <= k < t.nextToken && k !in t.byToken)
    && Recent(t.retired, settled, t.maxInflight)
  }

  lemma RetireHistory(t: Table, settled: seq<u64>, token: u64)
    requires Indexed(t) && History(t, settled) && token in t.byToken
    ensures History(Retire(t, token, t.byToken[token]), settled + [token])
  {
    RecentNext(t.retired, settled, t.maxInflight, token);
    hide Recent, Remember;
    assert token !in settled;
  }

  lemma ShutHistoryNext(m: Table, settled: seq<u64>, token: u64)
    requires Indexed(m) && History(m, settled) && token in m.byToken
    ensures History(CancelForClose(m, token).0, settled + [token])
  {
    RetireHistory(m, settled, token);
    hide History, Indexed, Replies;
  }

  // Part of the way through closing, the next token listed is still pending.
  lemma ShutPart(t: Table, order: seq<u64>, n: nat)
    requires Indexed(t) && Distinct(order) && Members(order) <= t.byToken.Keys && |order| == n + 1
    ensures Distinct(order[..n]) && Members(order[..n]) <= t.byToken.Keys
    ensures var m := CloseAll(t, order[..n]).0; Indexed(m) && order[n] in m.byToken
  {
    LastMember(order, n);
    hide CloseAll, Distinct, Members, Indexed;
    ShutBalanced(t, order[..n]);
    hide UnlinksBalanced, Keep;
  }

  lemma {:induction false} ShutHistory(t: Table, settled: seq<u64>, order: seq<u64>)
    requires Indexed(t) && History(t, settled) && Distinct(order) && Members(order) <= t.byToken.Keys
    ensures History(CloseAll(t, order).0, settled + order)
  {
    hide Distinct, Members, History, Indexed, CancelForClose;
    if order == [] {
      assert settled + order == settled;
    } else {
      var n := |order| - 1;
      ShutPart(t, order, n);
      ShutHistory(t, settled, order[..n]);
      ShutHistoryNext(CloseAll(t, order[..n]).0, settled + order[..n], order[n]);
      assert settled + order == settled + order[..n] + [order[n]];
    }
  }

  // A settled token joins the history; a refused or stale one leaves it as it is.
  lemma TakenHistory(t: Table, settled: seq<u64>, token: u64, t': Table, taken: bool)
    requires Indexed(t) && History(t, settled)
    requires taken ==> token in t.byToken && t' == Retire(t, token, t.byToken[token])
    requires !taken ==> t' == t
    ensures History(t', settled + if taken then [token] else [])
  {
    if taken {
      RetireHistory(t, settled, token);
    } else {
      assert settled + [] == settled;
    }
  }

  lemma FinishHistory(t: Table, settled: seq<u64>, token: u64, c: Completion)
    requires Indexed(t) && History(t, settled)
    ensures History(Complete(t, token, c).0, settled + SettledBy(t, Finish(token, c)))
  {
    hide History, Indexed, Replies, Retire;
    TakenHistory(t, settled, token, Complete(t, token, c).0, token in t.byToken && Complete(t, token, c).1.Ok?);
  }

  lemma CancelEncodes(t: Table, token: u64, status: i32)
    requires Indexed(t) && token in t.byToken
    ensures t.byToken[token] in t.bySeqnum
    ensures Replies(t.bySeqnum[t.byToken[token]], CANCELLATION, status).Ok?
  {
    RepliesEncode(t, t.byToken[token], CANCELLATION, status);
  }

  lemma CancelHistory(t: Table, settled: seq<u64>, token: u64, status: i32)
    requires Indexed(t) && History(t, settled)
    ensures History(CompleteCancel(t, token, status).0, settled + SettledBy(t, Cancel(token, status)))
  {
    hide History, Indexed, Replies, Retire;
    if token in t.byToken {
      CancelEncodes(t, token, status);
    }
    TakenHistory(t, settled, token, CompleteCancel(t, token, status).0,
                 token in t.byToken && CompleteCancel(t, token, status).1.Ok?);
  }

  lemma StepHistory(t: Table, settled: seq<u64>, op: Op)
    requires Indexed(t) && Legal(t, op) && History(t, settled)
    ensures History(Step(t, op).0, settled + SettledBy(t, op))
  {
    match op
    case Accept(wire) =>
      AcceptHistory(t, settled, wire);
      assert settled + [] == settled;
    case Finish(token, c) => FinishHistory(t, settled, token, c);
    case Cancel(token, status) => CancelHistory(t, settled, token, status);
    case Shut(order) => ShutHistory(t, settled, order);
  }

  lemma AcceptHistory(t: Table, settled: seq<u64>, wire: bytes)
    requires Indexed(t) && History(t, settled)
    ensures History(AcceptPdu(t, wire).0, settled)
  {
    hide DecodeRequest, Recent;
  }

  /**
   What a table remembers of settled transfers, over every run: exactly the last
   few, and how many is given by how many were settled in all.
   */
  lemma {:induction false} RetiredAreRecent(t: Table, ops: seq<Op>)
    requires Fresh(t) && LegalRun(t, ops)
    ensures History(After(t, ops), Settled(t, ops))
  {
    if ops != [] {
      var before, op := ops[..|ops| - 1], ops[|ops| - 1];
      RetiredAreRecent(t, before);
      ExactlyOnce(t, before);
      hide History, Indexed, Legal, Step, Accounted, UnlinksAccounted;
      StepHistory(After(t, before), Settled(t, before), op);
    }
  }

  /**
   A late completion never changes anything or sends anything. It is ignored
   without complaint exactly while its token is among those remembered, and
   reported as unknown after that.
   */
  lemma LateCompletion(t: Table, ops: seq<Op>, i: nat, c: Completion)
    requires Fresh(t) && LegalRun(t, ops) && i < |Settled(t, ops)|
    ensures var settled := Settled(t, ops);
      var remembered := Span(|settled|, t.maxInflight);
      Complete(After(t, ops), settled[i], c)
      == (After(t, ops), if i + remembered >= |settled| then Ok([]) else Err(NotFound))
  {
    RetiredAreRecent(t, ops);
    SameLimits(t, ops);
    var t', settled := After(t, ops), Settled(t, ops);
    hide After, Settled, LegalRun;
    var w := |settled| - Span(|settled|, t.maxInflight);
    assert settled[i] in settled;
    if i >= w {
      assert settled[w..][i - w] == settled[i];
    } else {
      assert forall j :: 0 <= j < |settled[w..]| ==> settled[w..][j] == settled[w + j];
    }
  }

  lemma {:induction false} SameLimits(t: Table, ops: seq<Op>)
    requires Fresh(t) && LegalRun(t, ops)
    ensures After(t, ops).maxInflight == t.maxInflight && After(t, ops).maxTransfer == t.maxTransfer
  {
    if ops != [] {
      var before, op := ops[..|ops| - 1], ops[|ops| - 1];
      SameLimits(t, before);
      ExactlyOnce(t, before);
      StepBalanced(After(t, before), op);
      hide Step, Indexed, Legal, UnlinksBalanced;
    }
  }

  // The smallest transfer: an IN transfer of no bytes, numbered one.
  function Tiny(): SubmitRequest {
    SubmitRequest(1, 0, In, 0, 0, 0, 0, 0, [0, 0, 0, 0, 0, 0, 0, 0], [])
  }

  const DONE := Completion(0, 0, 0, 0, [])

  function Rest(next: u64, retired: set<u64>): Table {
    Table(1, 1, next, map[], map[], retired)
  }

  lemma RoundAdmits(next: u64, retired: set<u64>)
    requires next < U64_MAX
    ensures AcceptPdu(Rest(next, retired), PutSubmit(Tiny())) == (Admit(Rest(next, retired), Tiny()),
        Ok([SubmitEvent(next, Tiny())]))
  {
    hide DecodeRequest, PutSubmit;
    RequestRoundTrip(Submit(Tiny()));
  }

  lemma RoundFinishes(next: u64, retired: set<u64>)
    requires next < U64_MAX
    ensures var m := Admit(Rest(next, retired), Tiny());
      && Complete(m, next, DONE).1.Ok?
      && Complete(m, next, DONE).0 == Rest(next + 1, Remember(retired, 1, next))
  {
    hide PutSubmitReply, Remember;
    var m := Admit(Rest(next, retired), Tiny());
    assert m.byToken - {next} == map[];
    assert m.bySeqnum - {1} == map[];
  }

  // One transfer admitted and completed, on a table with room for one.
  lemma Round(next: u64, retired: set<u64>)
    requires next < U64_MAX
    ensures var m := Step(Rest(next, retired), Accept(PutSubmit(Tiny()))).0;
      && m == Admit(Rest(next, retired), Tiny())
      && Complete(m, next, DONE).1.Ok?
      && Step(m, Finish(next, DONE)).0 == Rest(next + 1, Remember(retired, 1, next))
      && SettledBy(m, Finish(next, DONE)) == [next]
  {
    hide AcceptPdu, Complete, PutSubmit, Remember;
    RoundAdmits(next, retired);
    RoundFinishes(next, retired);
  }

  function Rounds(n: nat): seq<Op> {
    if n == 0 then [] else Rounds(n - 1) + [Accept(PutSubmit(Tiny())), Finish(Min(n, U64_MAX), DONE)]
  }

  lemma RunRound(t: Table, ops: seq<Op>, next: u64, retired: set<u64>)
    requires LegalRun(t, ops) && After(t, ops) == Rest(next, retired) && next < U64_MAX
    ensures var longer := ops + [Accept(PutSubmit(Tiny())), Finish(next, DONE)];
      && LegalRun(t, longer)
      && After(t, longer) == Rest(next + 1, Remember(retired, 1, next))
      && Settled(t, longer) == Settled(t, ops) + [next]
  {
    Round(next, retired);
    hide Step, PutSubmit, Complete;
    var one := ops + [Accept(PutSubmit(Tiny()))];
    var longer := ops + [Accept(PutSubmit(Tiny())), Finish(next, DONE)];
    assert one[..|ops|] == ops;
    assert longer[..|ops| + 1] == one;
  }

  /**
   Late completions are not always ignored quietly: on a table for one transfer,
   after three have been completed, completing the first once more is an error.
   */
  lemma ForgottenToken()
    ensures var t := Rest(1, {});
      && Fresh(t) && LegalRun(t, Rounds(3)) && Settled(t, Rounds(3)) == [1, 2, 3]
      && Complete(After(t, Rounds(3)), 1, DONE).1 == Err(NotFound)
  {
    hide Complete, Step, PutSubmit;
    var t := Rest(1, {});
    RunRound(t, [], 1, {});
    assert Rounds(1) == [] + [Accept(PutSubmit(Tiny())), Finish(1, DONE)];
    RunRound(t, Rounds(1), 2, Remember({}, 1, 1));
    RunRound(t, Rounds(2), 3, Remember(Remember({}, 1, 1), 1, 2));
    assert Settled(t, Rounds(3)) == [1, 2, 3];
    LateCompletion(t, Rounds(3), 0, DONE);
    assert Span(3, 1) == 1;
  }

  // ------------------------------------------------------------ token numbers

  function Numbers(from: nat, to: nat): (s: seq<u64>)
    requires from <= to <= U64_MAX
    ensures |s| == to - from
  {
    seq(to - from, i requires 0 <= i < to - from => from + i)
  }

  // No token handed out, or the next one.
  ghost predicate Issues(t: Table, t': Table, events: seq<ExecutorEvent>) {
    && t.nextToken <= t'.nextToken
    && Keep(IssuedToken, events) == Numbers(t.nextToken, t'.nextToken)
  }

  lemma IssuesNone(t: Table, t': Table, events: seq<ExecutorEvent>)
    requires t'.nextToken == t.nextToken && (events == [] || Keep(IssuedToken, events) == [])
    ensures Issues(t, t', events)
  {
    assert Keep(IssuedToken, []) == [];
  }

  lemma FinishIssues(t: Table, token: u64, c: Completion)
    requires Indexed(t)
    ensures Issues(t, Complete(t, token, c).0, Events(Complete(t, token, c).1))
  {
    var (t', r) := Complete(t, token, c);
    if token in t.byToken && r.Ok? {
      Settles(t, token, c, 0);
    }
    hide Indexed, Keep, Replies, Balanced, UnlinksBalanced, Issues;
    IssuesNone(t, t', Events(r));
  }

  lemma CancelIssues(t: Table, token: u64, status: i32)
    requires Indexed(t)
    ensures Issues(t, CompleteCancel(t, token, status).0, Events(CompleteCancel(t, token, status).1))
  {
    var (t', r) := CompleteCancel(t, token, status);
    if token in t.byToken && r.Ok? {
      Settles(t, token, CANCELLATION, status);
    }
    hide Indexed, Keep, Replies, Balanced, UnlinksBalanced, Issues;
    IssuesNone(t, t', Events(r));
  }

  lemma SubmitIssues(t: Table, wire: bytes, r: SubmitRequest)
    requires Indexed(t) && DecodeRequest(wire) == Ok(Submit(r)) && r.seqnum != 0
    ensures Issues(t, AcceptPdu(t, wire).0, Events(AcceptPdu(t, wire).1))
  {
    hide DecodeRequest, Indexed, Keep, Balanced, UnlinksBalanced;
    if AcceptSubmit(t, r).1.Ok? {
      SubmitBalanced(t, r);
    } else {
      IssuesNone(t, t, []);
    }
  }

  lemma UnlinkIssues(t: Table, wire: bytes, u: UnlinkRequest)
    requires Indexed(t) && DecodeRequest(wire) == Ok(Unlink(u)) && u.seqnum != 0
    ensures Issues(t, AcceptPdu(t, wire).0, Events(AcceptPdu(t, wire).1))
  {
    hide DecodeRequest, Indexed, Keep, Balanced, UnlinksBalanced, Issues;
    if AcceptUnlink(t, u).1.Ok? {
      UnlinkBalanced(t, u);
    }
    IssuesNone(t, AcceptPdu(t, wire).0, Events(AcceptPdu(t, wire).1));
  }

  lemma AcceptIssues(t: Table, wire: bytes)
    requires Indexed(t)
    ensures Issues(t, AcceptPdu(t, wire).0, Events(AcceptPdu(t, wire).1))
  {
    var d := DecodeRequest(wire);
    if d.Err? {
      IssuesNone(t, t, []);
    } else {
      DecodedIsNumbered(wire);
      match d.value {
        case Submit(r) => SubmitIssues(t, wire, r);
        case Unlink(u) => UnlinkIssues(t, wire, u);
      }
    }
  }

  lemma StepIssues(t: Table, op: Op)
    requires Indexed(t) && Legal(t, op)
    ensures Issues(t, Step(t, op).0, Events(Step(t, op).1))
  {
    hide Issues;
    match op
    case Accept(wire) => AcceptIssues(t, wire);
    case Finish(token, c) => FinishIssues(t, token, c);
    case Cancel(token, status) => CancelIssues(t, token, status);
    case Shut(order) =>
      ShutStepBalanced(t, order);
      IssuesNone(t, CloseAll(t, order).0, CloseAll(t, order).1);
  }

  lemma IssuesNext(t: Table, m: Table, t': Table, a: seq<ExecutorEvent>, b: seq<ExecutorEvent>)
    requires Issues(t, m, a) && Issues(m, t', b)
    ensures Issues(t, t', a + b)
  {
    KeepConcat(IssuedToken, a, b);
    hide Keep;
  }

  lemma {:induction false} RunIssues(t: Table, ops: seq<Op>)
    requires Fresh(t) && LegalRun(t, ops)
    ensures Issues(t, After(t, ops), Produced(t, ops))
  {
    if ops == [] {
      IssuesNone(t, t, []);
    } else {
      var before, op := ops[..|ops| - 1], ops[|ops| - 1];
      RunIssues(t, before);
      ExactlyOnce(t, before);
      hide Issues, Step, Indexed, Legal, Accounted, UnlinksAccounted;
      var m := After(t, before);
      StepIssues(m, op);
      IssuesNext(t, m, Step(m, op).0, Produced(t, before), Events(Step(m, op).1));
    }
  }

  /** Over every run the tokens handed out are 1, 2, 3 and so on: no token is ever issued twice. */
  lemma TokensAreConsecutive(t: Table, ops: seq<Op>)
    requires Fresh(t) && LegalRun(t, ops)
    ensures After(t, ops).nextToken >= 1
    ensures Keep(IssuedToken, Produced(t, ops)) == Numbers(1, After(t, ops).nextToken)
  {
    RunIssues(t, ops);
  }

  // ------------------------------------------------------------ what is said

  /** A SUBMIT on the wire reaches the platform as the transfer it encodes, under the next token, or is refused. */
  lemma SubmitIsHandedOver(t: Table, r: SubmitRequest)
    requires EncodeSubmit(r).Ok?
    ensures var (t', e) := AcceptPdu(t, EncodeSubmit(r).value);
      if r.transferBufferLength > t.maxTransfer then t' == t && e == Err(LimitExceeded)
      else if r.seqnum in t.bySeqnum then t' == t && e == Err(Duplicate)
      else if |t.bySeqnum| >= t.maxInflight then t' == t && e == Err(WindowExhausted)
      else if t.nextToken == U64_MAX then t' == t && e == Err(LimitExceeded)
      else
        && e == Ok([SubmitEvent(t.nextToken, r)])
        && t'.bySeqnum == t.bySeqnum[r.seqnum := Pending(t.nextToken, r, None)]
        && t'.byToken == t.byToken[t.nextToken := r.seqnum] && t'.nextToken == t.nextToken + 1
  {
    hide DecodeRequest, EncodeSubmit;
    RequestRoundTrip(Submit(r));
  }

  /**
   An UNLINK on the wire asks for the cancellation of exactly the transfer it names,
   once; if that is not pending it is answered at once, with status -2.
   */
  lemma UnlinkIsRecorded(t: Table, u: UnlinkRequest)
    requires EncodeUnlink(u).Ok?
    ensures var (t', e) := AcceptPdu(t, EncodeUnlink(u).value);
      if u.targetSeqnum !in t.bySeqnum then
        && t' == t && e.Ok? && |e.value| == 1 && e.value[0].ReplyEvent?
        && DecodeReply(e.value[0].pdu) == Ok(UnlinkRet(UnlinkReply(u.seqnum, -2)))
      else if t.bySeqnum[u.targetSeqnum].unlink.Some? then t' == t && e == Err(Duplicate)
      else
        && e == Ok([CancelEvent(t.bySeqnum[u.targetSeqnum].token, u.seqnum)])
        && t' == t.(bySeqnum := t.bySeqnum[u.targetSeqnum := t.bySeqnum[u.targetSeqnum].(unlink := Some(u.seqnum))])
  {
    RequestRoundTrip(Unlink(u));
    assert u.seqnum != 0;
    hide DecodeRequest, EncodeUnlink, DecodeReply, PutUnlinkReply;
    ReplyRoundTrip(UnlinkRet(UnlinkReply(u.seqnum, STATUS_NO_ENTRY)));
  }

  // The RET_SUBMIT of a transfer that was cancelled.
  function Cancelled(r: SubmitRequest): Reply {
    SubmitRet(SubmitReply(r.seqnum, In, -104, 0, 0, 0, []))
  }

  // Two replies as a reader finds them.
  predicate ReadsAs(events: seq<ExecutorEvent>, first: Reply, second: Option<Reply>) {
    && |events| == (if second.Some? then 2 else 1)
    && events[0].ReplyEvent? && DecodeReply(events[0].pdu) == Ok(first)
    && (second.Some? ==> events[1].ReplyEvent? && DecodeReply(events[1].pdu) == Ok(second.value))
  }

  lemma CancelledReads(p: Pending)
    requires EncodeSubmitReply(SubmitAnswer(p.request, CANCELLATION)).Ok?
    ensures DecodeReply(EncodeSubmitReply(SubmitAnswer(p.request, CANCELLATION)).value) == Ok(Cancelled(p.request))
  {
    hide DecodeReply, EncodeSubmitReply;
    ReplyRoundTrip(SubmitRet(SubmitAnswer(p.request, CANCELLATION)));
  }

  lemma UnlinkReads(u: UnlinkReply)
    requires EncodeUnlinkReply(u).Ok?
    ensures DecodeReply(EncodeUnlinkReply(u).value) == Ok(UnlinkRet(u))
  {
    hide DecodeReply, EncodeUnlinkReply;
    ReplyRoundTrip(UnlinkRet(u));
  }

  lemma CancelledReplies(t: Table, seqnum: u32, status: i32)
    requires Indexed(t) && seqnum in t.bySeqnum
    ensures var p := t.bySeqnum[seqnum];
      var r := Replies(p, CANCELLATION, status);
      && r.Ok?
      && ReadsAs(r.value, Cancelled(p.request),
                 if p.unlink.Some? then Some(UnlinkRet(UnlinkReply(p.unlink.value, status))) else None)
  {
    RepliesEncode(t, seqnum, CANCELLATION, status);
    hide DecodeReply, EncodeSubmitReply, EncodeUnlinkReply, Indexed, SubmitAnswer;
    var p := t.bySeqnum[seqnum];
    CancelledReads(p);
    if p.unlink.Some? {
      UnlinkReads(UnlinkReply(p.unlink.value, status));
    }
  }

  /** A table from which one pending transfer is taken out, and its token remembered; a full memory starts over. */
  function Without(t: Table, token: u64): Table
    requires token in t.byToken
  {
    t.(byToken := map k | k in t.byToken && k != token :: t.byToken[k],
       bySeqnum := map n | n in t.bySeqnum && n != t.byToken[token] :: t.bySeqnum[n],
       retired := if |t.retired| < 2 * t.maxInflight then t.retired + {token} else {token})
  }

  lemma RetiresOne(t: Table, token: u64)
    requires token in t.byToken
    ensures Retire(t, token, t.byToken[token]) == Without(t, token)
  {
    assert {} + {token} == {token};
  }

  /**
   What a completion answers and does. It is judged by the transfer's direction and
   length: an IN transfer brings as many bytes as it says, an OUT transfer none, and
   neither claims more than was asked for.
   */
  lemma CompletionVerdict(t: Table, token: u64, c: Completion)
    requires Indexed(t)
    ensures var (t', r) := Complete(t, token, c);
      if token !in t.byToken then t' == t && r == (if token in t.retired then Ok([]) else Err(NotFound))
      else
        var q := t.bySeqnum[t.byToken[token]].request;
        if c.actualLength > q.transferBufferLength || (q.direction == In && |c.data| != c.actualLength)
           || (q.direction == Out && c.data != []) then t' == t && r == Err(Malformed)
        else r.Ok? && r.value != [] && t' == Without(t, token)
    ensures var v := ValidateCompletion(t, token, c.actualLength, |c.data|);
      if token !in t.byToken then v == (if token in t.retired then Ok(false) else Err(NotFound))
      else
        var q := t.bySeqnum[t.byToken[token]].request;
        v == if c.actualLength > q.transferBufferLength || (q.direction == In && |c.data| != c.actualLength)
                || (q.direction == Out && c.data != []) then Err(Malformed) else Ok(true)
  {
    if token in t.byToken {
      RetiresOne(t, token);
      assert t.byToken[token] in t.bySeqnum;
      if ValidateCompletion(t, token, c.actualLength, |c.data|).Ok? {
        CompletionReplies(t, token, c);
        hide Replies, Retire, Without;
      }
    }
  }

  /**
   What any bytes handed to the executor answer and do, once they are read: a SUBMIT
   is admitted under the next token or refused, in this order; an UNLINK is recorded
   once on the transfer it names, or answered at once.
   */
  lemma RequestIsJudged(t: Table, wire: bytes)
    ensures var (t', e) := AcceptPdu(t, wire);
      match DecodeRequest(wire)
      case Err(error) => t' == t && e == Err(error)
      case Ok(Submit(r)) =>
        if r.transferBufferLength > t.maxTransfer then t' == t && e == Err(LimitExceeded)
        else if r.seqnum in t.bySeqnum then t' == t && e == Err(Duplicate)
        else if |t.bySeqnum| >= t.maxInflight then t' == t && e == Err(WindowExhausted)
        else if t.nextToken == 0xFFFF_FFFF_FFFF_FFFF then t' == t && e == Err(LimitExceeded)
        else
          && e == Ok([SubmitEvent(t.nextToken, r)])
          && t' == t.(nextToken := t.nextToken + 1, byToken := t.byToken[t.nextToken := r.seqnum],
                      bySeqnum := t.bySeqnum[r.seqnum := Pending(t.nextToken, r, None)])
      case Ok(Unlink(u)) =>
        if u.targetSeqnum !in t.bySeqnum then
          && t' == t && e.Ok? && |e.value| == 1 && e.value[0].ReplyEvent?
          && DecodeReply(e.value[0].pdu) == Ok(UnlinkRet(UnlinkReply(u.seqnum, -2)))
        else
          var p := t.bySeqnum[u.targetSeqnum];
          if p.unlink.Some? then t' == t && e == Err(Duplicate)
          else
            && e == Ok([CancelEvent(p.token, u.seqnum)])
            && t' == t.(bySeqnum := t.bySeqnum[u.targetSeqnum := Pending(p.token, p.request, Some(u.seqnum))])
  {
    if DecodeRequest(wire).Ok? {
      DecodedIsNumbered(wire);
      match DecodeRequest(wire).value {
        case Submit(r) => hide DecodeRequest, DecodeReply;
        case Unlink(u) =>
          hide DecodeRequest, DecodeReply, PutUnlinkReply;
          ReplyRoundTrip(UnlinkRet(UnlinkReply(u.seqnum, STATUS_NO_ENTRY)));
      }
    }
  }

  /** A table as made: within the limits, empty, its first token 1. */
  lemma TableMade(maxInflight: nat, maxTransfer: nat)
    ensures NewTable(maxInflight, maxTransfer) ==
      if 1 <= maxInflight <= 4096 && 1 <= maxTransfer <= 1048528
      then Ok(Table(maxInflight, maxTransfer, 1, map[], map[], {})) else Err(InvalidArgument)
  {
  }

  /**
   Completing a cancellation needs a recorded UNLINK. It answers the transfer with
   status -104 and no data, then the UNLINK with the status given, and takes the
   transfer out.
   */
  lemma CancellationReplies(t: Table, token: u64, status: i32)
    requires Indexed(t)
    ensures var (t', r) := CompleteCancel(t, token, status);
      if token !in t.byToken then t' == t && r == (if token in t.retired then Ok([]) else Err(NotFound))
      else
        var p := t.bySeqnum[t.byToken[token]];
        if p.unlink.None? then t' == t && r == Err(InvalidState)
        else
          && r.Ok? && ReadsAs(r.value, Cancelled(p.request), Some(UnlinkRet(UnlinkReply(p.unlink.value, status))))
          && t' == Without(t, token)
  {
    hide Replies, ReadsAs, Retire, Without;
    if token in t.byToken {
      assert t.byToken[token] in t.bySeqnum;
      CancelledReplies(t, t.byToken[token], status);
      RetiresOne(t, token);
    }
  }

  /** Closing answers each pending transfer, and the UNLINK recorded on it, with status -104, and takes it out. */
  lemma ClosingReplies(t: Table, token: u64)
    requires Indexed(t) && token in t.byToken
    ensures var p := t.bySeqnum[t.byToken[token]];
      var (t', r) := CancelForClose(t, token);
      && r.Ok? && t' == Without(t, token)
      && ReadsAs(r.value, Cancelled(p.request),
                 if p.unlink.Some? then Some(UnlinkRet(UnlinkReply(p.unlink.value, -104))) else None)
  {
    hide Replies, ReadsAs, Retire, Without;
    assert t.byToken[token] in t.bySeqnum;
    CancelledReplies(t, t.byToken[token], STATUS_CANCELLED);
    RetiresOne(t, token);
  }
}
