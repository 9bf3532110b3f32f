/** Preservation of what calls know and are told: verdicts, answers, receipts, and which call
    started which claim. */
module BurstAnswers {
  import opened Options
  import opened BurstStore
  import opened BurstProtocol
  import opened BurstInvariant
  import opened BurstSteps
  import opened BurstHistory
  import opened BurstReceipts

  // ---- calls only learn ------------------------------------------------------- //

  ghost predicate SameCall(a: Call, b: Call) {
    && b.key == a.key && b.digest == a.digest && b.planned == a.planned && b.via == a.via
    && (a.sight.Some? ==> b.sight == a.sight && b.observedAt == a.observedAt)
    && (a.verdict.Some? ==> b.verdict == a.verdict)
    && (PastClaim(a.phase) ==> PastClaim(b.phase))
    && (a.phase.Done? ==> b.phase == a.phase)
  }

  ghost predicate CallsGrow(s: Session, s': Session) {
    && |s.calls| <= |s'.calls| && s.rejecting <= s'.rejecting
    && forall i :: 0 <= i < |s.calls| ==> SameCall(s.calls[i], s'.calls[i])
  }

  /** `s'` is reached from `s` without forgetting anything. */
  ghost predicate Learns(s: Session, s': Session) { Progress(s, s') && CallsGrow(s, s') }

  /** A call's move touches that call alone. */
  lemma CallAlone(s: Session, c: CallId, m: CallMove)
    requires c < |s.calls| && CallEnabled(s, c, m)
    ensures var s' := CallStep(s, c, m);
            && |s'.calls| == |s.calls| && s'.rejecting == s.rejecting
            && (forall i :: 0 <= i < |s.calls| && i != c ==> s'.calls[i] == s.calls[i])
  {
  }

  lemma CallLearns(s: Session, c: CallId, m: CallMove)
    requires c < |s.calls| && CallEnabled(s, c, m) && CallKnown(s, c)
    ensures SameCall(s.calls[c], CallStep(s, c, m).calls[c])
  {
  }

  lemma OutsideLearns(s: Session, l: Label)
    requires Enabled(s, l) && !l.ByCall?
    ensures CallsGrow(s, Step(s, l))
  {
    OutsideCalls(s, l);
  }

  lemma StepLearns(s: Session, l: Label)
    requires CallsKnown(s) && Enabled(s, l)
    ensures Learns(s, Step(s, l))
  {
    StepProgress(s, l);
    if l.ByCall? {
      CallAlone(s, l.call, l.move);
      CallLearns(s, l.call, l.move);
    } else {
      OutsideLearns(s, l);
    }
  }

  // ---- what stays true ---------------------------------------------------------- //

  lemma HeldStays(s: Session, s': Session, key: Key, digest: Digest)
    requires HeldFor(s, key, digest) && CallsGrow(s, s')
    ensures HeldFor(s', key, digest)
  {
    var h :| 0 <= h < |s.calls| && s.calls[h].key == key && s.calls[h].digest == digest
             && s.calls[h].verdict == Some(ApprovalRequired);
    assert SameCall(s.calls[h], s'.calls[h]);
  }

  lemma ClosedStays(s: Session, s': Session, key: Key)
    requires ClosedFor(s, key) && Learns(s, s')
    ensures ClosedFor(s', key)
  {
    var a :| a in s.rejecting && a < |s.approvals| && s.approvals[a].key == key;
    assert SameRequest(s.approvals[a], s'.approvals[a]);
  }

  lemma AgreesStays(s: Session, s': Session, key: Key, digest: Digest, reply: Reply)
    requires ReplyAgrees(s, key, digest, reply) && Learns(s, s')
    ensures ReplyAgrees(s', key, digest, reply)
  {
    if TrueReply(s.store, digest, reply) {
      ReplyStaysTrue(s.store, s'.store, digest, reply);
    } else if reply == Plain(NeedsApproval, 0) && HeldFor(s, key, digest) {
      HeldStays(s, s', key, digest);
    } else {
      ClosedStays(s, s', key);
    }
  }

  lemma TellsStays(s: Session, s': Session, i: nat, reply: Reply, t: nat, at: nat, lost: bool)
    requires i < |s.calls| && Tells(s, i, reply, t, at, lost) && Learns(s, s')
    ensures Tells(s', i, reply, t, at, lost)
  {
    assert SameIdentity(s.store.claims[t], s'.store.claims[t]);
    assert SameCall(s.calls[i], s'.calls[i]);
    assert s'.log[..at] == s.log[..at];
  }

  lemma AnswerStays(s: Session, s': Session, i: nat, reply: Reply)
    requires i < |s.calls| && AnswerFits(s, i, reply) && Learns(s, s') && s'.calls[i] == s.calls[i]
    ensures AnswerFits(s', i, reply)
  {
    var call := s.calls[i];
    if reply == Plain(reply.status, 0) && PlainFits(call, reply.status) {
    } else if MayClaim(call) && OwnReport(s, i, reply) {
      var t: nat, at: nat, lost: bool :| Tells(s, i, reply, t, at, lost);
      TellsStays(s, s', i, reply, t, at, lost);
    } else if reply.idempotentReplay && ReplyAgrees(s, call.key, call.digest, reply.(idempotentReplay := false)) {
      AgreesStays(s, s', call.key, call.digest, reply.(idempotentReplay := false));
    } else {
      ReplyStaysTrue(s.store, s'.store, call.digest, reply.(semanticReplay := false, aliasReplay := false));
    }
  }

  lemma WordStays(s: Session, s': Session, t: ClaimId, word: Word, at: nat, lost: bool)
    requires WordFits(s, t, word, at, lost) && Learns(s, s')
    ensures WordFits(s', t, word, at, lost)
  {
    assert SameIdentity(s.store.claims[t], s'.store.claims[t]);
    assert s'.log[..at] == s.log[..at];
  }

  /** What an untouched call knows stays true. */
  lemma KnownStays(s: Session, s': Session, i: nat)
    requires i < |s.calls| && CallKnown(s, i) && Learns(s, s') && s'.calls[i] == s.calls[i]
    ensures CallKnown(s', i)
  {
    match s.calls[i].phase
    case Done(reply) => AnswerStays(s, s', i, reply);
    case Waiting(t, _, _) => assert SameIdentity(s.store.claims[t], s'.store.claims[t]);
    case Settling(t, _, _) => assert SameIdentity(s.store.claims[t], s'.store.claims[t]);
    case Publishing(t, _, _, word, at, lost) =>
      assert SameIdentity(s.store.claims[t], s'.store.claims[t]);
      WordStays(s, s', t, word, at, lost);
    case _ =>
  }

  // ---- what a move teaches its call ------------------------------------------------ //

  lemma ObserveKnown(s: Session, c: CallId, current: bool, others: nat)
    requires c < |s.calls| && CallKnown(s, c) && s.calls[c].phase == Capturing
    ensures CallKnown(ObserveStep(s, c, current, others), c)
  {
  }

  lemma ClassifyKnown(s: Session, c: CallId, verdict: Verdict)
    requires c < |s.calls| && CallKnown(s, c) && s.calls[c].phase == Grounding && CallAuthorised(s, s.calls[c])
    ensures CallKnown(ClassifyStep(s, c, verdict), c)
  {
  }

  /** What the idempotency check answers agrees with the receipts. */
  lemma PriorAgrees(s: Session, key: Key, digest: Digest, approved: Option<Digest>)
    requires ReceiptsFit(s) && PriorAnswer(s.store, key, digest, approved).Some?
    ensures var reply := PriorAnswer(s.store, key, digest, approved).value;
            || reply == Plain(Conflict, 0)
            || (reply.idempotentReplay && ReplyAgrees(s, key, digest, reply.(idempotentReplay := false)))
  {
    var prior := s.store.idempotency[key];
    assert ReceiptFits(s, key, prior);
    var reply := PriorAnswer(s.store, key, digest, approved).value;
    if prior.digest == digest {
      assert !prior.reply.idempotentReplay;
      assert reply.(idempotentReplay := false) == prior.reply;
    }
  }

  lemma SemanticAgrees(st: Store, digest: Digest)
    requires ReceiptsTrue(st) && digest in st.unsafe
    ensures var reply := SemanticAnswer(st, digest).value;
            && reply.semanticReplay && reply.aliasReplay && reply.completed > 0 && reply.status != Completed
            && TrueReply(st, digest, reply.(semanticReplay := false, aliasReplay := false))
  {
    var base := st.unsafe[digest];
    assert TrueReply(st, digest, base);
    assert base.(aliasReplay := true, semanticReplay := true).(semanticReplay := false, aliasReplay := false) == base;
  }

  /** Nothing yet started stems from a call that is still at the lock. */
  lemma NotItsOwn(s: Session, c: CallId, t: ClaimId)
    requires ClaimsCalled(s) && c < |s.calls| && s.calls[c].phase.Claiming? && t < |s.store.claims|
    ensures s.store.claims[t].origin.call != c
  {
    assert ClaimCalled(s, s.store.claims[t]);
  }

  lemma DecisionFits(s: Session, c: CallId)
    requires ClaimsCalled(s) && ReceiptsFit(s) && ReceiptsTrue(s.store) && Indexed(s.store)
    requires c < |s.calls| && s.calls[c].phase.Claiming?
    ensures var call := s.calls[c];
            var (st', decision) := ClaimOrJoin(s.store, call.key, call.digest, call.approved, OriginOf(call, c));
            match decision
            case Answered(reply) =>
              || reply == Plain(Conflict, 0)
              || (reply.idempotentReplay &&
                  ReplyAgrees(s, call.key, call.digest, reply.(idempotentReplay := false)))
              || (reply.semanticReplay && reply.aliasReplay && reply.completed > 0 && reply.status != Completed &&
                  TrueReply(s.store, call.digest, reply.(semanticReplay := false, aliasReplay := false)))
            case Joined(t, alias) =>
              t < |st'.claims| && st'.claims[t].origin.call != c && alias == (st'.claims[t].ownerKey != call.key)
            case Opened(t) =>
              t < |st'.claims| && st'.claims[t].origin.call == c && st'.claims[t].ownerKey == call.key
  {
    var call := s.calls[c];
    if PriorAnswer(s.store, call.key, call.digest, call.approved).Some? {
      PriorAgrees(s, call.key, call.digest, call.approved);
    } else if call.digest in s.store.unsafe {
      SemanticAgrees(s.store, call.digest);
    } else {
      forall t | 0 <= t < |s.store.claims| ensures s.store.claims[t].origin.call != c {
        NotItsOwn(s, c, t);
      }
    }
  }

  lemma ClaimKnown(s: Session, c: CallId)
    requires c < |s.calls| && CallEnabled(s, c, TakeClaim) && Learns(s, ClaimStep(s, c))
    requires CallKnown(s, c) && ClaimsCalled(s) && ReceiptsFit(s) && ReceiptsTrue(s.store) && Indexed(s.store)
    ensures CallKnown(ClaimStep(s, c), c)
  {
    var call := s.calls[c];
    var s' := ClaimStep(s, c);
    DecisionFits(s, c);
    if s'.calls[c].phase.Done? {
      var reply := s'.calls[c].phase.reply;
      if reply != Plain(Conflict, 0) {
        if reply.idempotentReplay && ReplyAgrees(s, call.key, call.digest, reply.(idempotentReplay := false)) {
          AgreesStays(s, s', call.key, call.digest, reply.(idempotentReplay := false));
        } else {
          ReplyStaysTrue(s.store, s'.store, call.digest, reply.(semanticReplay := false, aliasReplay := false));
        }
      }
    }
  }

  lemma ResumeKnown(s: Session, c: CallId)
    requires c < |s.calls| && CallEnabled(s, c, Resume) && CallKnown(s, c) && CallFits(s.store, s.calls[c])
    ensures CallKnown(ResumeStep(s, c), c)
  {
    var s' := ResumeStep(s, c);
    var t := s.calls[c].phase.claim;
    if s.store.claims[t].phase.outcome.Raised? {
      assert Tells(s', c, Plain(Failed, 0), t, 0, false);
    }
  }

  lemma CaptureKnown(s: Session, c: CallId, lost: bool)
    requires c < |s.calls| && CallEnabled(s, c, Capture(lost)) && CallKnown(s, c) && EpochCounts(s)
    ensures CallKnown(CaptureStep(s, c, lost), c)
  {
    assert s.log[..|s.log|] == s.log;
  }

  lemma PublishKnown(s: Session, c: CallId)
    requires c < |s.calls| && CallEnabled(s, c, Publish) && CallKnown(s, c) && CallFits(s.store, s.calls[c])
    ensures CallKnown(PublishStep(s, c), c)
  {
    var s' := PublishStep(s, c);
    var p := s.calls[c].phase;
    assert Tells(s', c, s'.calls[c].phase.reply, p.claim, p.at, p.lost);
  }

  lemma PlainKnown(s: Session, c: CallId, m: CallMove)
    requires c < |s.calls| && CallEnabled(s, c, m) && CallKnown(s, c)
    requires m.SaveApproval? || m.MarkNeedsApproval? || m.HoldReply? || m.Cancel?
    ensures CallKnown(CallStep(s, c, m), c)
  {
  }

  lemma MoveKnown(s: Session, c: CallId, m: CallMove)
    requires c < |s.calls| && CallEnabled(s, c, m) && Learns(s, CallStep(s, c, m))
    requires CallKnown(s, c) && CallFits(s.store, s.calls[c]) && CallAuthorised(s, s.calls[c])
    requires ClaimsCalled(s) && ReceiptsFit(s) && ReceiptsTrue(s.store) && Indexed(s.store) && EpochCounts(s)
    ensures CallKnown(CallStep(s, c, m), c)
  {
    match m
    case Observe(current, others) => ObserveKnown(s, c, current, others);
    case Classify(verdict) => ClassifyKnown(s, c, verdict);
    case TakeClaim => ClaimKnown(s, c);
    case Resume => ResumeKnown(s, c);
    case Probe(others) => KnownStays(s, CallStep(s, c, m), c);
    case Capture(lost) => CaptureKnown(s, c, lost);
    case Publish => PublishKnown(s, c);
    case _ => PlainKnown(s, c, m);
  }

  lemma EnterKnown(s: Session, req: Request, approved: Option<Digest>, via: Option<ApprovalId>)
    requires ReceiptsFit(s) && ReceiptsTrue(s.store) && Learns(s, Enter(s, req, approved, via))
    ensures CallKnown(Enter(s, req, approved, via), |s.calls|)
  {
    var s' := Enter(s, req, approved, via);
    var key := CallerKey(req);
    var (store, answer) := Admit(s.store, req, approved);
    if s'.calls[|s.calls|].phase.Done? {
      var reply := answer.value;
      if PriorAnswer(s.store, key, req.digest, approved) == Some(reply) {
        PriorAgrees(s, key, req.digest, approved);
        if reply != Plain(Conflict, 0) {
          AgreesStays(s, s', key, req.digest, reply.(idempotentReplay := false));
        }
      } else if SemanticAnswer(s.store, req.digest) == Some(reply) {
        SemanticAgrees(s.store, req.digest);
        ReplyStaysTrue(s.store, s'.store, req.digest, reply.(semanticReplay := false, aliasReplay := false));
      }
    }
  }

  lemma StepKeepsKnown(s: Session, l: Label)
    requires Inv(s) && Enabled(s, l)
    ensures CallsKnown(Step(s, l))
  {
    var s' := Step(s, l);
    StepLearns(s, l);
    if l.ByCall? {
      CallAlone(s, l.call, l.move);
      MoveKnown(s, l.call, l.move);
    } else {
      OutsideCalls(s, l);
      NewcomersKnown(s, l);
    }
    forall i: nat | i < |s'.calls| ensures CallKnown(s', i) {
      if i < |s.calls| && !(l.ByCall? && l.call == i) {
        KnownStays(s, s', i);
      }
    }
  }

  lemma NewcomersKnown(s: Session, l: Label)
    requires Inv(s) && Enabled(s, l) && !l.ByCall? && Learns(s, Step(s, l))
    ensures forall i: nat :: |s.calls| <= i < |Step(s, l).calls| ==> CallKnown(Step(s, l), i)
  {
    match l
    case Arrive(req) => EnterKnown(s, req, None, None);
    case Approve(a) =>
      EnterKnown(s, ApprovedRequest(s.approvals[a]), Some(s.approvals[a].digest), Some(a));
    case ByTask(t, m) => TaskCallsSame(s, t, m);
    case ByWorld(e) =>
  }

  lemma TaskCallsSame(s: Session, t: ClaimId, m: TaskMove)
    requires t < |s.store.claims|
    ensures TaskStep(s, t, m).calls == s.calls
  {
  }

  // ---- claims and their calls ------------------------------------------------------- //

  lemma ClaimStaysCalled(s: Session, s': Session, c: Claim, c': Claim)
    requires ClaimCalled(s, c) && SameIdentity(c, c') && CallsGrow(s, s')
    ensures ClaimCalled(s', c')
  {
    assert SameCall(s.calls[c.origin.call], s'.calls[c.origin.call]);
  }

  lemma OldClaimsCalled(s: Session, s': Session)
    requires ClaimsCalled(s) && Learns(s, s')
    requires |s'.store.claims| == |s.store.claims|
    ensures ClaimsCalled(s')
  {
    forall t | 0 <= t < |s'.store.claims|
      ensures ClaimCalled(s', s'.store.claims[t])
      ensures s'.store.claims[t].origin.call == s.store.claims[t].origin.call
    {
      ClaimStaysCalled(s, s', s.store.claims[t], s'.store.claims[t]);
    }
  }

  /** A claiming call adds at most one claim, its own. */
  lemma ClaimAdds(s: Session, c: CallId)
    requires c < |s.calls| && CallEnabled(s, c, TakeClaim) && CallKnown(s, c)
    ensures var s' := ClaimStep(s, c); var n := |s.store.claims|;
            && n <= |s'.store.claims| <= n + 1
            && (|s'.store.claims| == n + 1 ==>
                  ClaimCalled(s', s'.store.claims[n]) && s'.store.claims[n].origin.call == c)
  {
    ClaimShape(s, c);
  }

  lemma OneMoreCalled(s: Session, s': Session, c: CallId)
    requires ClaimsCalled(s) && Learns(s, s') && c < |s.calls| && s.calls[c].phase.Claiming?
    requires var n := |s.store.claims|;
             |s'.store.claims| == n + 1 && ClaimCalled(s', s'.store.claims[n]) && s'.store.claims[n].origin.call == c
    ensures ClaimsCalled(s')
  {
    forall t | 0 <= t < |s.store.claims|
      ensures ClaimCalled(s', s'.store.claims[t])
      ensures s'.store.claims[t].origin.call == s.store.claims[t].origin.call != c
    {
      ClaimStaysCalled(s, s', s.store.claims[t], s'.store.claims[t]);
      NotItsOwn(s, c, t);
    }
  }

  lemma ClaimKeepsCalled(s: Session, c: CallId)
    requires ClaimsCalled(s) && c < |s.calls| && CallEnabled(s, c, TakeClaim) && CallKnown(s, c)
    requires Learns(s, ClaimStep(s, c))
    ensures ClaimsCalled(ClaimStep(s, c))
  {
    ClaimAdds(s, c);
    if |ClaimStep(s, c).store.claims| == |s.store.claims| {
      OldClaimsCalled(s, ClaimStep(s, c));
    } else {
      OneMoreCalled(s, ClaimStep(s, c), c);
    }
  }

  lemma OnlyClaimAdds(s: Session, l: Label)
    requires Enabled(s, l) && !(l.ByCall? && l.move.TakeClaim?)
    ensures |Step(s, l).store.claims| == |s.store.claims|
  {
    if l.ByCall? { MoveAddsNone(s, l.call, l.move); } else { OutsideCalls(s, l); }
  }

  lemma MoveAddsNone(s: Session, c: CallId, m: CallMove)
    requires c < |s.calls| && CallEnabled(s, c, m) && !m.TakeClaim?
    ensures |CallStep(s, c, m).store.claims| == |s.store.claims|
  {
    if Passive(m) { PassiveFrame(s, c, m); }
  }

  lemma StepKeepsCalled(s: Session, l: Label)
    requires Inv(s) && Enabled(s, l)
    ensures ClaimsCalled(Step(s, l))
  {
    StepLearns(s, l);
    if l.ByCall? && l.move.TakeClaim? {
      ClaimKeepsCalled(s, l.call);
    } else {
      OnlyClaimAdds(s, l);
      OldClaimsCalled(s, Step(s, l));
    }
  }

  // ---- approvals and their calls ------------------------------------------------------ //

  lemma ApprovalStaysCalled(s: Session, s': Session, a: Approval, a': Approval)
    requires ApprovalCalled(s, a) && CallsGrow(s, s') && SameRequest(a, a') && a'.holder == a.holder
    ensures ApprovalCalled(s', a')
  {
    assert SameCall(s.calls[a.holder], s'.calls[a.holder]);
  }

  lemma HoldersStay(s: Session, l: Label)
    requires Enabled(s, l)
    ensures |s.approvals| <= |Step(s, l).approvals|
    ensures forall a :: 0 <= a < |s.approvals| ==> Step(s, l).approvals[a].holder == s.approvals[a].holder
    ensures |s.approvals| < |Step(s, l).approvals| ==> l.ByCall? && l.move.SaveApproval?
  {
    if !l.ByCall? { OutsideCalls(s, l); }
  }

  lemma StepKeepsApprovalsCalled(s: Session, l: Label)
    requires Inv(s) && Enabled(s, l)
    ensures ApprovalsCalled(Step(s, l))
  {
    var s' := Step(s, l);
    StepLearns(s, l);
    HoldersStay(s, l);
    forall a | 0 <= a < |s'.approvals| ensures ApprovalCalled(s', s'.approvals[a]) {
      if a < |s.approvals| {
        ApprovalStaysCalled(s, s', s.approvals[a], s'.approvals[a]);
      } else {
        assert CallKnown(s, l.call);
      }
    }
  }

  // ---- receipts ------------------------------------------------------------------------ //

  lemma ReceiptStays(s: Session, s': Session, key: Key, receipt: Receipt)
    requires ReceiptFits(s, key, receipt) && Learns(s, s')
    ensures ReceiptFits(s', key, receipt)
  {
    match receipt.state
    case ReceiptCompleted => ReplyStaysTrue(s.store, s'.store, receipt.digest, receipt.reply);
    case ReceiptPending => HeldStays(s, s', key, receipt.digest);
    case _ => ClosedStays(s, s', key);
  }

  /** A step that leaves completed receipts true writes the others as they should be. */
  lemma ReceiptsStay(s: Session, s': Session)
    requires ReceiptsFit(s) && ReceiptsTrue(s'.store) && Learns(s, s')
    requires forall k :: k in s'.store.idempotency ==>
      || s'.store.idempotency[k].state == ReceiptCompleted
      || (k in s.store.idempotency && s'.store.idempotency[k] == s.store.idempotency[k])
      || ReceiptFits(s', k, s'.store.idempotency[k])
    ensures ReceiptsFit(s')
  {
    forall k | k in s'.store.idempotency ensures ReceiptFits(s', k, s'.store.idempotency[k]) {
      if k in s.store.idempotency && s'.store.idempotency[k] == s.store.idempotency[k] {
        ReceiptStays(s, s', k, s.store.idempotency[k]);
      }
    }
  }

  lemma HoldKeepsFit(s: Session, c: CallId)
    requires Inv(s) && c < |s.calls| && s.calls[c].phase == HoldingReply
    requires Learns(s, HoldStep(s, c)) && ReceiptsTrue(HoldStep(s, c).store)
    ensures ReceiptsFit(HoldStep(s, c))
  {
    var s' := HoldStep(s, c);
    assert CallKnown(s, c);
    assert s'.calls[c].verdict == Some(ApprovalRequired);
    assert HeldFor(s', s.calls[c].key, s.calls[c].digest);
    ReceiptsStay(s, s');
  }

  /** Every request that can be decided against is one whose decision has begun. */
  lemma RejectKeepsFit(s: Session, a: ApprovalId, state: ReceiptState)
    requires Inv(s) && WorldEnabled(s, EndReject(a, state))
    requires Learns(s, WorldStep(s, EndReject(a, state))) && ReceiptsTrue(WorldStep(s, EndReject(a, state)).store)
    ensures ReceiptsFit(WorldStep(s, EndReject(a, state)))
  {
    var s' := WorldStep(s, EndReject(a, state));
    assert s'.approvals[a].key == s.approvals[a].key;
    assert ClosedFor(s', s.approvals[a].key);
    ReceiptsStay(s, s');
  }

  /** Every receipt of `st'` is completed or was there before. */
  ghost predicate WritesCompleted(st: Store, st': Store) {
    forall k :: k in st'.idempotency ==>
      || st'.idempotency[k].state == ReceiptCompleted
      || (k in st.idempotency && st'.idempotency[k] == st.idempotency[k])
  }

  lemma FinishWrites(st: Store, c: ClaimId, key: Key, digest: Digest, reply: Reply, retain: bool)
    requires c < |st.claims|
    ensures WritesCompleted(st, Finish(st, c, key, digest, reply, retain))
  {
  }

  lemma CallWrites(s: Session, c: CallId, m: CallMove)
    requires c < |s.calls| && CallEnabled(s, c, m) && !m.HoldReply?
    ensures WritesCompleted(s.store, CallStep(s, c, m).store)
  {
    var call := s.calls[c];
    var p := call.phase;
    match m
    case TakeClaim => ClaimKeepsTables(s.store, call.key, call.digest, call.approved, OriginOf(call, c));
    case Resume =>
      FinishWrites(s.store.(status := StatusPaused), p.claim, call.key, call.digest, Plain(Failed, 0), false);
    case Publish =>
      var completed := s.store.claims[p.claim].phase.outcome.completed;
      FinishWrites(s.store, p.claim, call.key, call.digest, Reply(p.word, completed, p.joined, p.alias, false, false),
                   completed > 0 && p.word != Completed);
    case _ => PassiveFrame(s, c, m);
  }

  lemma EnterWrites(s: Session, req: Request, approved: Option<Digest>, via: Option<ApprovalId>)
    ensures WritesCompleted(s.store, Enter(s, req, approved, via).store)
  {
  }

  /** All other steps write completed receipts only. */
  lemma OthersWriteCompleted(s: Session, l: Label)
    requires Enabled(s, l)
    requires !(l.ByCall? && l.move.HoldReply?) && !(l.ByWorld? && l.event.EndReject?)
    ensures WritesCompleted(s.store, Step(s, l).store)
  {
    match l
    case Arrive(req) => EnterWrites(s, req, None, None);
    case Approve(a) => EnterWrites(s, ApprovedRequest(s.approvals[a]), Some(s.approvals[a].digest), Some(a));
    case ByCall(c, m) => CallWrites(s, c, m);
    case ByTask(t, m) => TaskKeepsTables(s, t, m);
    case ByWorld(e) =>
  }

  lemma StepKeepsReceiptsFit(s: Session, l: Label)
    requires Inv(s) && Enabled(s, l)
    ensures ReceiptsFit(Step(s, l))
  {
    StepLearns(s, l);
    StepKeepsReceipts(s, l);
    if l.ByCall? && l.move.HoldReply? {
      HoldKeepsFit(s, l.call);
    } else if l.ByWorld? && l.event.EndReject? {
      RejectKeepsFit(s, l.event.a, l.event.state);
    } else {
      OthersWriteCompleted(s, l);
      ReceiptsStay(s, Step(s, l));
    }
  }

  // ---- noticed clients -------------------------------------------------------------------- //

  lemma PlannedBelow(s: Session)
    requires EpochCounts(s) && Timed(s)
    ensures forall i :: 0 <= i < |s.calls| && HasObserved(s.calls[i].phase) ==> s.calls[i].planned <= s.store.epoch
    ensures forall t :: 0 <= t < |s.store.claims| ==> s.store.claims[t].origin.planned <= s.store.epoch
  {
    forall i | 0 <= i < |s.calls| && HasObserved(s.calls[i].phase)
      ensures s.calls[i].planned <= s.store.epoch
    {
      assert CallTimed(s, s.calls[i]);
      BumpsSplit(s.log, s.calls[i].observedAt);
    }
    forall t | 0 <= t < |s.store.claims|
      ensures s.store.claims[t].origin.planned <= s.store.epoch
    {
      BumpsSplit(s.log, s.store.claims[t].origin.observedAt);
    }
  }

  /** Nothing is observed anew: calls that have observed had done so before, and new claims
      carry the epoch of one of them. */
  ghost predicate NoneObserves(s: Session, s': Session) {
    && (forall i :: 0 <= i < |s'.calls| && HasObserved(s'.calls[i].phase) ==>
          i < |s.calls| && HasObserved(s.calls[i].phase) && s'.calls[i].planned == s.calls[i].planned)
    && (forall t :: 0 <= t < |s'.store.claims| ==>
          || (t < |s.store.claims| && s'.store.claims[t].origin == s.store.claims[t].origin)
          || exists i :: 0 <= i < |s.calls| && HasObserved(s.calls[i].phase)
                         && s'.store.claims[t].origin.planned == s.calls[i].planned)
  }

  lemma ClientsStaySeen(s: Session, s': Session)
    requires EpochCounts(s) && Timed(s) && ClientsSeen(s) && NoneObserves(s, s') && s.store.epoch <= s'.store.epoch
    requires s'.store.blockActive ==> s.store.blockActive || s.store.epoch < s'.store.epoch
    ensures ClientsSeen(s')
  {
    PlannedBelow(s);
  }

  /** A client is noticed together with a bump. */
  predicate Notices(st: Store, st': Store) {
    st'.blockActive ==> st.blockActive || st.epoch < st'.epoch
  }

  lemma MicroNotices(s: Session, t: ClaimId, others: nat, paused: bool)
    requires t < |s.store.claims|
    ensures Notices(s.store, MicroStep(s, t, others, paused).store)
  {
  }

  lemma CallNotices(s: Session, c: CallId, m: CallMove)
    requires c < |s.calls| && CallEnabled(s, c, m)
    ensures Notices(s.store, CallStep(s, c, m).store)
  {
    if m.TakeClaim? {
      ClaimKeepsBlock(s.store, s.calls[c].key, s.calls[c].digest, s.calls[c].approved, OriginOf(s.calls[c], c));
    }
  }

  lemma ClaimKeepsBlock(st: Store, key: Key, digest: Digest, approved: Option<Digest>, origin: Origin)
    requires IndexesInRange(st)
    ensures ClaimOrJoin(st, key, digest, approved, origin).0.blockActive == st.blockActive
  {
  }

  lemma EnterNotices(s: Session, req: Request, approved: Option<Digest>, via: Option<ApprovalId>)
    ensures Notices(s.store, Enter(s, req, approved, via).store)
  {
  }

  lemma StepNotices(s: Session, l: Label)
    requires Enabled(s, l)
    ensures Notices(s.store, Step(s, l).store)
  {
    match l
    case Arrive(req) => EnterNotices(s, req, None, None);
    case Approve(a) => EnterNotices(s, ApprovedRequest(s.approvals[a]), Some(s.approvals[a].digest), Some(a));
    case ByCall(c, m) => CallNotices(s, c, m);
    case ByTask(t, m) => if m.BeginMicro? { MicroNotices(s, t, m.others, m.paused); }
    case ByWorld(e) =>
  }

  lemma KeptObserves(s: Session, s': Session)
    requires Progress(s, s') && AddsCalls(s, s')
    ensures NoneObserves(s, s')
  {
    forall t | 0 <= t < |s'.store.claims|
      ensures s'.store.claims[t].origin == s.store.claims[t].origin
    {
      assert SameIdentity(s.store.claims[t], s'.store.claims[t]);
    }
  }

  lemma StaysObserved(s: Session, c: CallId, m: CallMove)
    requires c < |s.calls| && CallEnabled(s, c, m) && !m.Observe?
    ensures HasObserved(CallStep(s, c, m).calls[c].phase) ==> HasObserved(s.calls[c].phase)
  {
  }

  /** A new claim carries the authority of the call that took it. */
  lemma MoveOrigins(s: Session, c: CallId, m: CallMove)
    requires c < |s.calls| && CallEnabled(s, c, m)
    ensures var s' := CallStep(s, c, m);
            forall t :: |s.store.claims| <= t < |s'.store.claims| ==>
              s.calls[c].phase.Claiming? && s'.store.claims[t].origin.planned == s.calls[c].planned
  {
    if m.TakeClaim? { ClaimShape(s, c); } else { OnlyClaimAdds(s, ByCall(c, m)); }
  }

  lemma OneObserves(s: Session, s': Session, c: CallId)
    requires Learns(s, s') && c < |s.calls| == |s'.calls|
    requires HasObserved(s'.calls[c].phase) ==> HasObserved(s.calls[c].phase)
    requires forall i :: 0 <= i < |s.calls| && i != c ==> s'.calls[i] == s.calls[i]
    requires forall t :: |s.store.claims| <= t < |s'.store.claims| ==>
      s.calls[c].phase.Claiming? && s'.store.claims[t].origin.planned == s.calls[c].planned
    ensures NoneObserves(s, s')
  {
    assert SameCall(s.calls[c], s'.calls[c]);
    forall t | 0 <= t < |s.store.claims|
      ensures s'.store.claims[t].origin == s.store.claims[t].origin
    {
      assert SameIdentity(s.store.claims[t], s'.store.claims[t]);
    }
    if |s.store.claims| < |s'.store.claims| {
      assert s'.store.claims[|s.store.claims|].origin.planned == s.calls[c].planned;
    }
  }

  /** A call's move other than a clean observation observes nothing. */
  lemma MoveObserves(s: Session, c: CallId, m: CallMove)
    requires c < |s.calls| && CallEnabled(s, c, m) && Learns(s, CallStep(s, c, m))
    requires HasObserved(CallStep(s, c, m).calls[c].phase) ==> !m.Observe?
    ensures NoneObserves(s, CallStep(s, c, m))
  {
    CallAlone(s, c, m);
    if !m.Observe? { StaysObserved(s, c, m); }
    MoveOrigins(s, c, m);
    OneObserves(s, CallStep(s, c, m), c);
  }

  lemma CleanObserve(s: Session, c: CallId, current: bool, others: nat)
    requires c < |s.calls| && HasObserved(ObserveStep(s, c, current, others).calls[c].phase)
    ensures !ObserveStep(s, c, current, others).store.blockActive
  {
  }

  lemma StepKeepsClients(s: Session, l: Label)
    requires Inv(s) && Enabled(s, l)
    ensures ClientsSeen(Step(s, l))
  {
    StepLearns(s, l);
    StepNotices(s, l);
    if l.ByCall? {
      if l.move.Observe? && HasObserved(Step(s, l).calls[l.call].phase) {
        CleanObserve(s, l.call, l.move.current, l.move.others);
      } else {
        MoveObserves(s, l.call, l.move);
        ClientsStaySeen(s, Step(s, l));
      }
    } else {
      OutsideCalls(s, l);
      KeptObserves(s, Step(s, l));
      ClientsStaySeen(s, Step(s, l));
    }
  }
}
