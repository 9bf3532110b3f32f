/** Concurrent `run_burst` calls on one session, as a labelled step system.  A step is
    the code between two awaits; everything a step cannot decide (what the screen
    shows, what the policy says, how a burst ends, who cancels whom) is carried by its
    label, so a list of labels is one interleaving. */
module BurstProtocol {
  import opened Options
  import opened BurstStore

  type CallId = nat
  type ApprovalId = nat

  datatype Verdict = Permitted | ApprovalRequired | Refused

  /** Where a call is.  In `Publishing`, `at` and `lost` are history: the log length when the
      outcome was settled, and whether its evidence was lost. */
  datatype CallPhase =
    | Capturing
    | Grounding
    | SavingApproval | MarkingStatus | HoldingReply
    | Claiming(needsApproval: bool)
    | Waiting(claim: ClaimId, joined: bool, alias: bool)
    | Settling(claim: ClaimId, joined: bool, alias: bool)
    | Publishing(claim: ClaimId, joined: bool, alias: bool, word: Word, at: nat, lost: bool)
    | Done(reply: Reply)
    | Cancelled

  /** What a call's capture showed: whether the screen was still the planned one, and how
      many other machine clients were connected. */
  datatype Sight = Sight(current: bool, others: nat)

  /** One activation of `run_burst`.  `observedAt`, `sight` and `verdict` are history: the log
      length at the step that compared its planned epoch with the session's, what that step
      saw, and what the policy said. */
  datatype Call = Call(
    key: Key, digest: Digest, planned: int, approved: Option<Digest>, via: Option<ApprovalId>,
    observedAt: nat, sight: Option<Sight>, verdict: Option<Verdict>, phase: CallPhase)

  /** A stored approval request; `epoch` is the planned epoch written into it.  `holder`, the call
      that was held for it, is history. */
  datatype Approval = Approval(
    key: Key, digest: Digest, epoch: int, observedAt: nat, holder: CallId, pending: bool)

  /** History.  `Revoked` and `Latched` are exactly the steps that bump the epoch.  A gate
      that lets a micro-action through is `Admitted`; `paused` says that an await lies
      between the gate and the backend call.  `Emitted` is one HID report of that call. */
  datatype Event =
    | Started(claim: ClaimId, key: Key, digest: Digest)
    | Admitted(claim: ClaimId, others: nat, paused: bool)
    | Emitted(claim: ClaimId)
    | TaskEnded(claim: ClaimId, outcome: Outcome)
    | PendingStored(key: Key)
    | Revoked
    | Latched

  datatype Session = Session(
    store: Store, calls: seq<Call>, approvals: seq<Approval>, rejecting: set<ApprovalId>, log: seq<Event>)

  const NEW_SESSION := Session(FRESH, [], [], {}, [])

  /** The awaits of one call, from the captured frame to the published answer. */
  datatype CallMove =
    | Observe(current: bool, others: nat)
    | Classify(verdict: Verdict)
    | SaveApproval
    | MarkNeedsApproval
    | HoldReply
    | TakeClaim
    | Resume
    | Probe(others: nat)
    | Capture(evidenceFailed: bool)
    | Publish
    | Cancel

  datatype TaskMove =
    | StartTask
    | BeginMicro(others: nat, paused: bool)
    | Emit
    | EndMicro
    | EndTask(outcome: Outcome)

  datatype WorldMove =
    | BeginReject(a: ApprovalId)
    | EndReject(a: ApprovalId, state: ReceiptState)
    | CloseApproval(a: ApprovalId)
    | Abort
    | PanicLatch
    | HumanCursor

  datatype Label =
    | Arrive(req: Request)
    | Approve(a: ApprovalId)
    | ByCall(call: CallId, move: CallMove)
    | ByTask(claim: ClaimId, step: TaskMove)
    | ByWorld(event: WorldMove)

  function WithPhase(s: Session, c: CallId, phase: CallPhase): Session
    requires c < |s.calls|
  {
    s.(calls := s.calls[c := s.calls[c].(phase := phase)])
  }

  function Answer(s: Session, c: CallId, reply: Reply): Session
    requires c < |s.calls|
  {
    WithPhase(s, c, Done(reply))
  }

  /** The event a gate or an observation leaves when it notices a machine client. */
  function NoticeLog(s: Store, others: nat): seq<Event> {
    if others > 0 && !s.blockActive then [Revoked] else []
  }

  function Enter(s: Session, req: Request, approved: Option<Digest>, via: Option<ApprovalId>): Session {
    var (store, answer) := Admit(s.store, req, approved);
    var phase := if answer.Some? then Done(answer.value) else Capturing;
    var planned := if req.epoch.Some? then req.epoch.value else 0;
    s.(store := store,
       calls := s.calls + [Call(CallerKey(req), req.digest, planned, approved, via, 0, None, None, phase)])
  }

  /** An approved burst is re-entered with exactly the stored proposal. */
  function ApprovedRequest(a: Approval): Request {
    Request(Some(a.key), a.digest, true, Some(a.epoch), true)
  }

  /** The burst a call waits for has ended. */
  predicate TaskOver(s: Session, t: ClaimId) {
    t < |s.store.claims| && s.store.claims[t].phase.Ended?
  }

  predicate CallEnabled(s: Session, c: CallId, m: CallMove)
    requires c < |s.calls|
  {
    var p := s.calls[c].phase;
    match m
    case Observe(_, _) => p == Capturing
    case Classify(_) => p == Grounding
    case SaveApproval => p == SavingApproval
    case MarkNeedsApproval => p == MarkingStatus
    case HoldReply => p == HoldingReply
    case TakeClaim => p.Claiming? && IndexesInRange(s.store)
    case Resume => p.Waiting? && TaskOver(s, p.claim)
    case Probe(_) => p.Settling?
    case Capture(_) => p.Settling? && TaskOver(s, p.claim) && s.store.claims[p.claim].phase.outcome.Returned?
    case Publish => p.Publishing? && TaskOver(s, p.claim) && s.store.claims[p.claim].phase.outcome.Returned?
    case Cancel => !p.Done? && !p.Cancelled?
  }

  predicate TaskEnabled(s: Session, t: ClaimId, m: TaskMove)
    requires t < |s.store.claims|
  {
    var p := s.store.claims[t].phase;
    match m
    case StartTask => p == Created
    case BeginMicro(_, _) => p == Running(Between)
    case Emit => p == Running(Pausing) || p == Running(Emitting)
    case EndMicro => p == Running(Emitting)
    case EndTask(_) => p == Running(Between) || p == Running(Pausing)
  }

  predicate WorldEnabled(s: Session, e: WorldMove) {
    match e
    case BeginReject(a) => a < |s.approvals| && s.approvals[a].pending
    case EndReject(a, state) =>
      a < |s.approvals| && a in s.rejecting && (state == ReceiptRejected || state == ReceiptResolved)
    case CloseApproval(a) => a < |s.approvals|
    case Abort => true
    case PanicLatch => true
    case HumanCursor => true
  }

  predicate Enabled(s: Session, l: Label) {
    match l
    case Arrive(_) => true
    case Approve(a) => a < |s.approvals| && s.approvals[a].pending
    case ByCall(c, m) => c < |s.calls| && CallEnabled(s, c, m)
    case ByTask(t, m) => t < |s.store.claims| && TaskEnabled(s, t, m)
    case ByWorld(e) => WorldEnabled(s, e)
  }

  /** The policy's answer: refused, held for a human, or sent on to the claim lock. */
  function Route(s: Session, c: CallId, verdict: Verdict): CallPhase
    requires c < |s.calls|
  {
    if verdict == Refused then Done(Plain(Blocked, 0))
    else if verdict == ApprovalRequired && s.calls[c].approved != Some(s.calls[c].digest) then SavingApproval
    else Claiming(verdict == ApprovalRequired)
  }

  function ClassifyStep(s: Session, c: CallId, verdict: Verdict): Session
    requires c < |s.calls|
  {
    s.(calls := s.calls[c := s.calls[c].(phase := Route(s, c, verdict), verdict := Some(verdict))])
  }

  /** The authority a claiming call hands to the task it starts. */
  function OriginOf(call: Call, c: CallId): Origin
    requires call.phase.Claiming?
  {
    Origin(call.planned, call.observedAt, call.phase.needsApproval, call.via, c)
  }

  function ClaimStep(s: Session, c: CallId): Session
    requires c < |s.calls| && s.calls[c].phase.Claiming? && IndexesInRange(s.store)
  {
    var call := s.calls[c];
    var origin := OriginOf(call, c);
    var (store, decision) := ClaimOrJoin(s.store, call.key, call.digest, call.approved, origin);
    match decision
    case Answered(reply) => Answer(s.(store := store), c, reply)
    case Joined(t, alias) => WithPhase(s.(store := store), c, Waiting(t, true, alias))
    case Opened(t) =>
      WithPhase(s.(store := store, log := s.log + [Started(t, call.key, call.digest)]), c, Waiting(t, false, false))
  }

  function ObserveStep(s: Session, c: CallId, current: bool, others: nat): Session
    requires c < |s.calls|
  {
    var call := s.calls[c].(sight := Some(Sight(current, others)));
    var (store, answer) := CheckAuthority(s.store, call.planned, current, others);
    var noticed := if current && s.store.epoch == call.planned then NoticeLog(s.store, others) else [];
    var call' := if answer.Some? then call.(phase := Done(answer.value))
                 else call.(phase := Grounding, observedAt := |s.log|);
    s.(store := store, log := s.log + noticed, calls := s.calls[c := call'])
  }

  function SaveStep(s: Session, c: CallId): Session
    requires c < |s.calls|
  {
    var call := s.calls[c];
    WithPhase(
      s.(approvals := s.approvals + [Approval(call.key, call.digest, call.planned, call.observedAt, c, true)]),
      c, MarkingStatus)
  }

  function HoldStep(s: Session, c: CallId): Session
    requires c < |s.calls|
  {
    var call := s.calls[c];
    Answer(
      s.(store := StorePending(s.store, call.key, call.digest), log := s.log + [PendingStored(call.key)]),
      c, Plain(NeedsApproval, 0))
  }

  /** Publishing a claim's receipt and answering the caller happen in one step. */
  function FinishStep(s: Session, c: CallId, t: ClaimId, reply: Reply, retain: bool): Session
    requires c < |s.calls| && t < |s.store.claims|
  {
    Answer(s.(store := Finish(s.store, t, s.calls[c].key, s.calls[c].digest, reply, retain)), c, reply)
  }

  /** A waiter whose task has ended.  A `BurstError` is published at once, without
      retention; any other outcome goes through settling and capture. */
  function ResumeStep(s: Session, c: CallId): Session
    requires c < |s.calls| && CallEnabled(s, c, Resume)
  {
    var p := s.calls[c].phase;
    if s.store.claims[p.claim].phase.outcome.Raised? then
      FinishStep(s.(store := s.store.(status := StatusPaused)), c, p.claim, Plain(Failed, 0), false)
    else
      WithPhase(s, c, Settling(p.claim, p.joined, p.alias))
  }

  function CaptureStep(s: Session, c: CallId, evidenceFailed: bool): Session
    requires c < |s.calls| && CallEnabled(s, c, Capture(evidenceFailed))
  {
    var p := s.calls[c].phase;
    var word := Effective(s.store, s.store.claims[p.claim].phase.outcome, evidenceFailed);
    WithPhase(s.(store := Settled(s.store)), c,
              Publishing(p.claim, p.joined, p.alias, word, |s.log|, evidenceFailed))
  }

  function PublishStep(s: Session, c: CallId): Session
    requires c < |s.calls| && CallEnabled(s, c, Publish)
  {
    var p := s.calls[c].phase;
    var completed := s.store.claims[p.claim].phase.outcome.completed;
    FinishStep(s, c, p.claim, Reply(p.word, completed, p.joined, p.alias, false, false),
               completed > 0 && p.word != Completed)
  }

  function ProbeStep(s: Session, others: nat): Session {
    s.(store := NoticeClients(s.store, others), log := s.log + NoticeLog(s.store, others))
  }

  function CallStep(s: Session, c: CallId, m: CallMove): Session
    requires c < |s.calls| && CallEnabled(s, c, m)
  {
    match m
    case Observe(current, others) => ObserveStep(s, c, current, others)
    case Classify(verdict) => ClassifyStep(s, c, verdict)
    case SaveApproval => SaveStep(s, c)
    case MarkNeedsApproval => WithPhase(s.(store := s.store.(status := StatusNeedsApproval)), c, HoldingReply)
    case HoldReply => HoldStep(s, c)
    case TakeClaim => ClaimStep(s, c)
    case Resume => ResumeStep(s, c)
    case Probe(others) => ProbeStep(s, others)
    case Capture(evidenceFailed) => CaptureStep(s, c, evidenceFailed)
    case Publish => PublishStep(s, c)
    case Cancel => WithPhase(s, c, Cancelled)
  }

  /** The gate of one micro-action.  Where no await follows, the first HID report belongs to
      the same step.  An action before a `wait_for_change` awaits its baseline screenshot
      first, and a later chunk of a watched typing its focus check. */
  function MicroStep(s: Session, t: ClaimId, others: nat, paused: bool): Session
    requires t < |s.store.claims|
  {
    var s' := ProbeStep(s, others);
    if !GateOpen(s'.store, s.store.claims[t].origin.planned, others) then s'
    else if paused then
      s'.(store := SetPhase(s'.store, t, Running(Pausing)), log := s'.log + [Admitted(t, others, true)])
    else
      s'.(store := SetPhase(s'.store, t, Running(Emitting)),
          log := s'.log + [Admitted(t, others, false), Emitted(t)])
  }

  /** A HID report of an admitted micro-action; no gate is asked. */
  function EmitStep(s: Session, t: ClaimId): Session
    requires t < |s.store.claims|
  {
    s.(store := SetPhase(s.store, t, Running(Emitting)), log := s.log + [Emitted(t)])
  }

  function TaskStep(s: Session, t: ClaimId, m: TaskMove): Session
    requires t < |s.store.claims|
  {
    match m
    case StartTask => s.(store := SetPhase(s.store, t, Running(Between)))
    case BeginMicro(others, paused) => MicroStep(s, t, others, paused)
    case Emit => EmitStep(s, t)
    case EndMicro => s.(store := SetPhase(s.store, t, Running(Between)))
    case EndTask(outcome) =>
      s.(store := SetPhase(s.store, t, Ended(outcome)), log := s.log + [TaskEnded(t, outcome)])
  }

  function CloseRequest(s: Session, a: ApprovalId): Session
    requires a < |s.approvals|
  {
    s.(approvals := s.approvals[a := s.approvals[a].(pending := false)])
  }

  function WorldStep(s: Session, e: WorldMove): Session
    requires WorldEnabled(s, e)
  {
    match e
    case BeginReject(a) => s.(rejecting := s.rejecting + {a})
    case EndReject(a, state) =>
      CloseRequest(s.(store := CloseReceipt(s.store, s.approvals[a].key, state)), a)
    case CloseApproval(a) => CloseRequest(s, a)
    case Abort => s.(store := Aborted(s.store), log := s.log + [Latched])
    case PanicLatch => s.(store := PanicLatched(s.store), log := s.log + [Latched])
    case HumanCursor =>
      s.(store := RevokedByHuman(s.store), log := if s.store.stopped then s.log else s.log + [Revoked])
  }

  function Step(s: Session, l: Label): Session
    requires Enabled(s, l)
  {
    match l
    case Arrive(req) => Enter(s, req, None, None)
    case Approve(a) => Enter(s, ApprovedRequest(s.approvals[a]), Some(s.approvals[a].digest), Some(a))
    case ByCall(c, m) => CallStep(s, c, m)
    case ByTask(t, m) => TaskStep(s, t, m)
    case ByWorld(e) => WorldStep(s, e)
  }
}
