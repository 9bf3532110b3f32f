/** Receipts stay true: they replay how a finished burst for their digest ended. */
module BurstReceipts {
  import opened Options
  import opened BurstStore
  import opened BurstProtocol
  import opened BurstInvariant
  import opened BurstSteps
  import opened BurstHistory

  lemma ReplyStaysTrue(st: Store, st': Store, digest: Digest, reply: Reply)
    requires TrueReply(st, digest, reply) && ClaimsGrow(st, st')
    ensures TrueReply(st', digest, reply)
  {
    var c :| 0 <= c < |st.claims| && ReportsClaim(st.claims[c], digest, reply);
    assert SameIdentity(st.claims[c], st'.claims[c]);
    assert ReportsClaim(st'.claims[c], digest, reply);
  }

  /** Every receipt of `st'` is one of `st` or true on its own account. */
  lemma ReceiptsGrow(st: Store, st': Store)
    requires ReceiptsTrue(st) && ClaimsGrow(st, st')
    requires forall k :: k in st'.idempotency && st'.idempotency[k].state == ReceiptCompleted ==>
      (k in st.idempotency && st'.idempotency[k] == st.idempotency[k]) ||
      TrueReply(st', st'.idempotency[k].digest, st'.idempotency[k].reply)
    requires forall d :: d in st'.unsafe ==>
      (d in st.unsafe && st'.unsafe[d] == st.unsafe[d]) ||
      (TrueReply(st', d, st'.unsafe[d]) && st'.unsafe[d].completed > 0 && st'.unsafe[d].status != Completed)
    ensures ReceiptsTrue(st')
  {
    forall k | k in st'.idempotency && st'.idempotency[k].state == ReceiptCompleted
      ensures TrueReply(st', st'.idempotency[k].digest, st'.idempotency[k].reply)
    {
      if k in st.idempotency && st'.idempotency[k] == st.idempotency[k] {
        ReplyStaysTrue(st, st', st.idempotency[k].digest, st.idempotency[k].reply);
      }
    }
    forall d | d in st'.unsafe
      ensures TrueReply(st', d, st'.unsafe[d]) && st'.unsafe[d].completed > 0 && st'.unsafe[d].status != Completed
    {
      if d in st.unsafe && st'.unsafe[d] == st.unsafe[d] {
        ReplyStaysTrue(st, st', d, st.unsafe[d]);
      }
    }
  }

  lemma RecordKeepsReceipts(st: Store, key: Key, digest: Digest)
    requires ReceiptsTrue(st)
    ensures ReceiptsTrue(RecordSemantic(st, key, digest))
  {
    var st' := RecordSemantic(st, key, digest);
    if digest in st.unsafe { ReplyStaysTrue(st, st', digest, st.unsafe[digest]); }
    ReceiptsGrow(st, st');
  }

  lemma FinishKeepsReceipts(st: Store, c: ClaimId, key: Key, digest: Digest, reply: Reply, retain: bool)
    requires ReceiptsTrue(st) && c < |st.claims|
    requires !reply.idempotentReplay && !reply.semanticReplay
    requires ReportsClaim(st.claims[c].(finished := true), digest, Plain(reply.status, reply.completed))
    requires retain ==> reply.completed > 0 && reply.status != Completed
    ensures ReceiptsTrue(Finish(st, c, key, digest, reply, retain))
  {
    var st' := Finish(st, c, key, digest, reply, retain);
    var base := reply.(inflightReplay := false, aliasReplay := false);
    FinishGrows(st, c, key, digest, reply, retain);
    assert TrueReply(st', digest, base) by { assert ReportsClaim(st'.claims[c], digest, base); }
    ReceiptsGrow(st, st');
  }

  /** The claim step writes no receipt but a retained one. */
  lemma ClaimKeepsTables(st: Store, key: Key, digest: Digest, approved: Option<Digest>, origin: Origin)
    requires IndexesInRange(st)
    ensures var st' := ClaimOrJoin(st, key, digest, approved, origin).0;
            || st' == RecordSemantic(st, key, digest)
            || (st'.idempotency == st.idempotency && st'.unsafe == st.unsafe)
  {
  }

  lemma ClaimKeepsReceipts(st: Store, key: Key, digest: Digest, approved: Option<Digest>, origin: Origin)
    requires ReceiptsTrue(st) && IndexesInRange(st)
    ensures ReceiptsTrue(ClaimOrJoin(st, key, digest, approved, origin).0)
  {
    ClaimOrJoinGrows(st, key, digest, approved, origin);
    RecordKeepsReceipts(st, key, digest);
    ClaimKeepsTables(st, key, digest, approved, origin);
    if ClaimOrJoin(st, key, digest, approved, origin).0 != RecordSemantic(st, key, digest) {
      ReceiptsGrow(st, ClaimOrJoin(st, key, digest, approved, origin).0);
    }
  }

  lemma CallKeepsReceipts(s: Session, c: CallId, m: CallMove)
    requires ReceiptsTrue(s.store) && CallsFit(s) && c < |s.calls| && CallEnabled(s, c, m)
    ensures ReceiptsTrue(CallStep(s, c, m).store)
  {
    var call := s.calls[c];
    var p := call.phase;
    assert CallFits(s.store, call);
    match m
    case TakeClaim =>
      ClaimKeepsReceipts(s.store, call.key, call.digest, call.approved,
                         OriginOf(call, c));
    case HoldReply => ReceiptsGrow(s.store, StorePending(s.store, call.key, call.digest));
    case Resume =>
      if s.store.claims[p.claim].phase.outcome.Raised? {
        var paused := s.store.(status := StatusPaused);
        ReceiptsGrow(s.store, paused);
        FinishKeepsReceipts(paused, p.claim, call.key, call.digest, Plain(Failed, 0), false);
      }
    case Publish =>
      var completed := s.store.claims[p.claim].phase.outcome.completed;
      FinishKeepsReceipts(s.store, p.claim, call.key, call.digest,
                          Reply(p.word, completed, p.joined, p.alias, false, false), completed > 0 && p.word != Completed);
    case _ =>
      PassiveFrame(s, c, m);
      ReceiptsGrow(s.store, CallStep(s, c, m).store);
  }

  lemma EnterKeepsReceipts(s: Session, req: Request, approved: Option<Digest>, via: Option<ApprovalId>)
    requires ReceiptsTrue(s.store)
    ensures ReceiptsTrue(Enter(s, req, approved, via).store)
  {
    var st' := Enter(s, req, approved, via).store;
    RecordKeepsReceipts(s.store, CallerKey(req), req.digest);
    if st' != RecordSemantic(s.store, CallerKey(req), req.digest) {
      ReceiptsGrow(s.store, st');
    }
  }

  lemma MicroKeepsTables(s: Session, t: ClaimId, others: nat, paused: bool)
    requires t < |s.store.claims|
    ensures MicroStep(s, t, others, paused).store.idempotency == s.store.idempotency
    ensures MicroStep(s, t, others, paused).store.unsafe == s.store.unsafe
  {
  }

  lemma TaskKeepsTables(s: Session, t: ClaimId, m: TaskMove)
    requires t < |s.store.claims|
    ensures TaskStep(s, t, m).store.idempotency == s.store.idempotency
    ensures TaskStep(s, t, m).store.unsafe == s.store.unsafe
  {
    if m.BeginMicro? { MicroKeepsTables(s, t, m.others, m.paused); }
  }

  lemma TaskKeepsReceipts(s: Session, t: ClaimId, m: TaskMove)
    requires ReceiptsTrue(s.store) && t < |s.store.claims| && TaskEnabled(s, t, m)
    ensures ReceiptsTrue(TaskStep(s, t, m).store)
  {
    TaskProgress(s, t, m);
    TaskKeepsTables(s, t, m);
    ReceiptsGrow(s.store, TaskStep(s, t, m).store);
  }

  lemma StepKeepsReceipts(s: Session, l: Label)
    requires ReceiptsTrue(s.store) && CallsFit(s) && Enabled(s, l)
    ensures ReceiptsTrue(Step(s, l).store)
  {
    match l
    case Arrive(req) => EnterKeepsReceipts(s, req, None, None);
    case Approve(a) =>
      EnterKeepsReceipts(s, ApprovedRequest(s.approvals[a]), Some(s.approvals[a].digest), Some(a));
    case ByCall(c, m) => CallKeepsReceipts(s, c, m);
    case ByTask(t, m) => TaskKeepsReceipts(s, t, m);
    case ByWorld(e) => ReceiptsGrow(s.store, WorldStep(s, e).store);
  }
}
