/** Preservation of the authority properties: planned epochs, admitted micro-actions and
    approvals; then the whole invariant. */
module BurstAuthority {
  import opened Options
  import opened BurstStore
  import opened BurstProtocol
  import opened BurstInvariant
  import opened BurstSteps
  import opened BurstHistory
  import opened BurstReceipts
  import opened BurstEmissions
  import opened BurstAnswers
  import Text

  // ---- planned epochs ------------------------------------------------------- //

  lemma ShapedKeepsTimed(s: Session, s': Session, c: CallId)
    requires Timed(s) && Progress(s, s') && c < |s.calls| && s.calls[c].phase.Claiming? && ClaimShaped(s, s', c)
    ensures Timed(s')
  {
    assert CallTimed(s, s.calls[c]);
    PlannedGrows(s.log, s'.log, s.calls[c].planned, s.calls[c].observedAt);
    forall i | 0 <= i < |s'.calls|
      ensures s'.calls[i].planned == s.calls[i].planned && s'.calls[i].observedAt == s.calls[i].observedAt
      ensures HasObserved(s'.calls[i].phase) ==> HasObserved(s.calls[i].phase)
    {
      if i != c { assert s'.calls[i] == s.calls[i]; }
    }
    TimedGrows(s, s');
  }

  lemma ClaimKeepsTimed(s: Session, c: CallId)
    requires Timed(s) && c < |s.calls| && CallEnabled(s, c, TakeClaim)
    ensures Timed(ClaimStep(s, c))
  {
    ClaimProgress(s, c);
    ClaimShape(s, c);
    ShapedKeepsTimed(s, ClaimStep(s, c), c);
  }

  lemma ObserveKeepsTimed(s: Session, c: CallId, current: bool, others: nat)
    requires Timed(s) && EpochCounts(s) && c < |s.calls| && s.calls[c].phase == Capturing
    ensures Timed(ObserveStep(s, c, current, others))
  {
    var s' := ObserveStep(s, c, current, others);
    ObserveProgress(s, c, current, others);
    assert s'.log[..|s.log|] == s.log;
    TimedGrows(s, s');
  }

  lemma SaveKeepsTimed(s: Session, c: CallId)
    requires Timed(s) && c < |s.calls| && s.calls[c].phase == SavingApproval
    ensures Timed(SaveStep(s, c))
  {
    assert CallTimed(s, s.calls[c]);
    TimedGrows(s, SaveStep(s, c));
  }

  lemma CallKeepsTimed(s: Session, c: CallId, m: CallMove)
    requires Timed(s) && EpochCounts(s) && c < |s.calls| && CallEnabled(s, c, m)
    ensures Timed(CallStep(s, c, m))
  {
    match m
    case Observe(current, others) => ObserveKeepsTimed(s, c, current, others);
    case SaveApproval => SaveKeepsTimed(s, c);
    case TakeClaim => ClaimKeepsTimed(s, c);
    case _ => OtherKeepsTimed(s, c, m);
  }

  lemma OtherKeepsTimed(s: Session, c: CallId, m: CallMove)
    requires Timed(s) && c < |s.calls| && CallEnabled(s, c, m)
    requires !m.Observe? && !m.SaveApproval? && !m.TakeClaim?
    ensures Timed(CallStep(s, c, m))
  {
    CallProgress(s, c, m);
    TimedGrows(s, CallStep(s, c, m));
  }

  lemma TimedKept(s: Session, s': Session)
    requires Timed(s) && Progress(s, s') && AddsCalls(s, s')
    ensures Timed(s')
  {
    TimedGrows(s, s');
  }

  lemma StepKeepsTimed(s: Session, l: Label)
    requires Timed(s) && EpochCounts(s) && Enabled(s, l)
    ensures Timed(Step(s, l))
  {
    if l.ByCall? {
      CallKeepsTimed(s, l.call, l.move);
    } else {
      StepProgress(s, l);
      OutsideCalls(s, l);
      TimedKept(s, Step(s, l));
    }
  }

  // ---- approvals ---------------------------------------------------------------- //

  lemma CallStaysAuthorised(s: Session, s': Session, call: Call)
    requires CallAuthorised(s, call) && ApprovalsGrow(s, s')
    ensures CallAuthorised(s', call)
  {
    if call.via.Some? {
      assert SameRequest(s.approvals[call.via.value], s'.approvals[call.via.value]);
    }
  }

  lemma ClaimStaysAuthorised(s: Session, s': Session, c: Claim, c': Claim)
    requires ClaimAuthorised(s, c) && ApprovalsGrow(s, s') && SameIdentity(c, c')
    ensures ClaimAuthorised(s', c')
  {
    if c.origin.via.Some? {
      assert SameRequest(s.approvals[c.origin.via.value], s'.approvals[c.origin.via.value]);
    }
  }

  /** Whatever is new in `s'` is bound to a stored approval; what is old stays bound. */
  lemma ApprovalsBoundGrow(s: Session, s': Session)
    requires ApprovalsBound(s) && Progress(s, s') && |s.calls| <= |s'.calls|
    requires forall i :: 0 <= i < |s'.calls| ==>
      CallAuthorised(s', s'.calls[i]) || (i < |s.calls| && s'.calls[i] == s.calls[i])
    requires forall c :: |s.store.claims| <= c < |s'.store.claims| ==> ClaimAuthorised(s', s'.store.claims[c])
    requires forall a :: |s.approvals| <= a < |s'.approvals| ==> Text.Trimmed(s'.approvals[a].key)
    ensures ApprovalsBound(s')
  {
    forall i | 0 <= i < |s'.calls| ensures CallAuthorised(s', s'.calls[i]) {
      if i < |s.calls| && s'.calls[i] == s.calls[i] {
        CallStaysAuthorised(s, s', s.calls[i]);
      }
    }
    forall c | 0 <= c < |s'.store.claims| ensures ClaimAuthorised(s', s'.store.claims[c]) {
      if c < |s.store.claims| {
        ClaimStaysAuthorised(s, s', s.store.claims[c], s'.store.claims[c]);
      }
    }
    forall a | 0 <= a < |s'.approvals| ensures Text.Trimmed(s'.approvals[a].key) {
      if a < |s.approvals| { assert SameRequest(s.approvals[a], s'.approvals[a]); }
    }
  }

  lemma EnterKeepsApprovals(s: Session, req: Request, approved: Option<Digest>, via: Option<ApprovalId>)
    requires ApprovalsBound(s)
    requires approved == (if via.Some? then Some(req.digest) else None)
    requires via.Some? ==> via.value < |s.approvals| && req == ApprovedRequest(s.approvals[via.value])
    ensures ApprovalsBound(Enter(s, req, approved, via))
  {
    var s' := Enter(s, req, approved, via);
    EnterProgress(s, req, approved, via);
    assert Text.Trimmed(CallerKey(req)) by {
      if req.key.Some? { Text.StripTrims(req.key.value); }
    }
    if via.Some? { Text.StripOfTrimmed(s.approvals[via.value].key); }
    assert CallAuthorised(s', s'.calls[|s.calls|]);
    ApprovalsBoundGrow(s, s');
  }

  lemma ShapedKeepsApprovals(s: Session, s': Session, c: CallId)
    requires ApprovalsBound(s) && Progress(s, s')
    requires c < |s.calls| && s.calls[c].phase.Claiming? && ClaimShaped(s, s', c)
    ensures ApprovalsBound(s')
  {
    assert CallAuthorised(s, s.calls[c]);
    CallStaysAuthorised(s, s', s.calls[c]);
    assert CallAuthorised(s', s'.calls[c]);
    forall t | |s.store.claims| <= t < |s'.store.claims| ensures ClaimAuthorised(s', s'.store.claims[t]) {
      assert s'.store.claims[t].digest == s.calls[c].digest;
    }
    ApprovalsBoundGrow(s, s');
  }

  lemma ClaimKeepsApprovals(s: Session, c: CallId)
    requires ApprovalsBound(s) && c < |s.calls| && CallEnabled(s, c, TakeClaim)
    ensures ApprovalsBound(ClaimStep(s, c))
  {
    ClaimProgress(s, c);
    ClaimShape(s, c);
    ShapedKeepsApprovals(s, ClaimStep(s, c), c);
  }

  lemma ObserveKeepsApprovals(s: Session, c: CallId, current: bool, others: nat)
    requires ApprovalsBound(s) && Timed(s) && c < |s.calls| && s.calls[c].phase == Capturing
    ensures ApprovalsBound(ObserveStep(s, c, current, others))
  {
    var s' := ObserveStep(s, c, current, others);
    ObserveProgress(s, c, current, others);
    assert CallAuthorised(s, s.calls[c]);
    ApprovalsBoundGrow(s, s');
  }

  lemma RouteKeepsApprovals(s: Session, c: CallId, verdict: Verdict)
    requires ApprovalsBound(s) && c < |s.calls| && s.calls[c].phase == Grounding
    ensures ApprovalsBound(ClassifyStep(s, c, verdict))
  {
    assert CallAuthorised(s, s.calls[c]);
    ApprovalsBoundGrow(s, ClassifyStep(s, c, verdict));
  }

  lemma CallKeepsApprovals(s: Session, c: CallId, m: CallMove)
    requires ApprovalsBound(s) && Timed(s) && c < |s.calls| && CallEnabled(s, c, m)
    ensures ApprovalsBound(CallStep(s, c, m))
  {
    match m
    case Observe(current, others) => ObserveKeepsApprovals(s, c, current, others);
    case Classify(verdict) => RouteKeepsApprovals(s, c, verdict);
    case TakeClaim => ClaimKeepsApprovals(s, c);
    case _ => OtherKeepsApprovals(s, c, m);
  }

  lemma OtherKeepsApprovals(s: Session, c: CallId, m: CallMove)
    requires ApprovalsBound(s) && c < |s.calls| && CallEnabled(s, c, m)
    requires !m.Observe? && !m.Classify? && !m.TakeClaim?
    ensures ApprovalsBound(CallStep(s, c, m))
  {
    var s' := CallStep(s, c, m);
    CallProgress(s, c, m);
    assert CallAuthorised(s, s.calls[c]);
    CallStaysAuthorised(s, s', s.calls[c]);
    ApprovalsBoundGrow(s, s');
  }

  lemma StepKeepsApprovals(s: Session, l: Label)
    requires ApprovalsBound(s) && Timed(s) && Enabled(s, l)
    ensures ApprovalsBound(Step(s, l))
  {
    match l
    case Arrive(req) => EnterKeepsApprovals(s, req, None, None);
    case Approve(a) =>
      EnterKeepsApprovals(s, ApprovedRequest(s.approvals[a]), Some(s.approvals[a].digest), Some(a));
    case ByCall(c, m) => CallKeepsApprovals(s, c, m);
    case ByTask(t, m) => TaskProgress(s, t, m); ApprovalsBoundGrow(s, TaskStep(s, t, m));
    case ByWorld(e) => WorldProgress(s, e); ApprovalsBoundGrow(s, WorldStep(s, e));
  }

  // ---- the invariant -------------------------------------------------------------- //

  lemma StepKeepsInv(s: Session, l: Label)
    requires Inv(s) && Enabled(s, l)
    ensures Inv(Step(s, l))
  {
    StepKeepsIndexed(s, l);
    StepKeepsBraked(s, l);
    StepKeepsRetention(s, l);
    StepKeepsCallsFit(s, l);
    StepKeepsReceipts(s, l);
    StepKeepsKeys(s, l);
    StepKeepsStarts(s, l);
    StepCounts(s, l);
    StepKeepsTimed(s, l);
    StepKeepsAdmissions(s, l);
    StepKeepsEmissions(s, l);
    StepKeepsApprovals(s, l);
    StepKeepsKnown(s, l);
    StepKeepsCalled(s, l);
    StepKeepsApprovalsCalled(s, l);
    StepKeepsReceiptsFit(s, l);
    StepKeepsClients(s, l);
  }

  lemma NewSessionInv()
    ensures Inv(NEW_SESSION)
  {
  }
}
