/** What callers are told, and what a refusal, a stop, a machine client and a human each put
    an end to, for every run of the runtime from boot. */
module BurstOutcomes {
  import opened Options
  import opened BurstStore
  import opened BurstProtocol
  import opened BurstInvariant
  import opened BurstSteps
  import opened BurstHistory
  import opened BurstAnswers
  import opened BurstAuthority
  import opened BurstRuntime
  import opened BurstTheorems
  import Text

  /** What the invariant says of calls, claims, receipts and epochs. */
  ghost predicate Known(s: Session) {
    && Indexed(s.store) && Retention(s.store) && ReceiptsTrue(s.store)
    && EpochCounts(s) && Timed(s) && ApprovalsBound(s)
    && CallsKnown(s) && ClaimsCalled(s) && ApprovalsCalled(s) && ReceiptsFit(s) && ClientsSeen(s)
  }

  lemma KnownOf(r: Process, sid: Sid)
    requires ProcessInv(r) && sid in r.sessions
    ensures Known(r.sessions[sid])
  {
  }

  lemma ReachableKnown(r: Process, sid: Sid)
    requires Reachable(r) && sid in r.sessions
    ensures Known(r.sessions[sid])
  {
    ReachableInv(r);
    KnownOf(r, sid);
  }

  // ---- the policy's verdict ------------------------------------------------------ //

  /** The call of a started task: it proposed exactly this burst, saw the planned screen with
      no other client, and the policy permitted it, or asked for an approval that is stored,
      for this key and digest, on the proposal of another call the policy had held. */
  ghost predicate Judged(s: Session, c: Claim) {
    && c.origin.call < |s.calls|
    && var call := s.calls[c.origin.call];
       && call.key == c.ownerKey && call.digest == c.digest && call.sight == Some(Sight(true, 0))
       && (call.verdict == Some(Permitted) || (call.verdict == Some(ApprovalRequired) && ApprovedFor(s, call)))
  }

  ghost predicate ApprovedFor(s: Session, call: Call) {
    && call.via.Some? && call.via.value < |s.approvals|
    && var p := s.approvals[call.via.value];
       && p.key == call.key && p.digest == call.digest && p.epoch == call.planned
       && p.holder < |s.calls| && s.calls[p.holder].verdict == Some(ApprovalRequired)
       && s.calls[p.holder].key == call.key && s.calls[p.holder].digest == call.digest
       && s.calls[p.holder].via.None?
  }

  /** Every task that starts was started by a call of its own that the policy let through, and
      no call starts two. */
  lemma StartsAreJudged(r: Process, sid: Sid, i: nat, j: nat)
    requires Reachable(r) && sid in r.sessions
    requires var log := r.sessions[sid].log;
             i < |log| && j < |log| && log[i].Started? && log[j].Started?
    ensures var s := r.sessions[sid];
            && s.log[i].claim < |s.store.claims| && s.log[j].claim < |s.store.claims|
            && s.store.claims[s.log[i].claim].digest == s.log[i].digest
            && s.store.claims[s.log[i].claim].ownerKey == s.log[i].key
            && Judged(s, s.store.claims[s.log[i].claim])
            && (i != j ==> s.store.claims[s.log[i].claim].origin.call != s.store.claims[s.log[j].claim].origin.call)
  {
    ReachableInv(r);
    var s := r.sessions[sid];
    assert EventFits(s.store, s.log[i]) && EventFits(s.store, s.log[j]);
    ClaimIsJudged(s, s.log[i].claim);
    assert i != j ==> s.log[i].claim != s.log[j].claim;
  }

  lemma ClaimIsJudged(s: Session, t: ClaimId)
    requires ClaimsCalled(s) && ApprovalsBound(s) && ApprovalsCalled(s) && t < |s.store.claims|
    ensures Judged(s, s.store.claims[t])
  {
    var c := s.store.claims[t];
    assert ClaimCalled(s, c);
    var call := s.calls[c.origin.call];
    assert CallAuthorised(s, call);
    if call.via.Some? {
      assert ApprovalCalled(s, s.approvals[call.via.value]);
    }
  }

  /** A call the policy refused is answered blocked and stays so, and no continuation ever
      starts a task for it. */
  lemma RefusedNeverRuns(r: Process, ms: seq<Move>, r': Process, sid: Sid, c: CallId)
    requires Reachable(r) && sid in r.sessions && c < |r.sessions[sid].calls|
    requires r.sessions[sid].calls[c].verdict == Some(Refused) && Reaches(r, ms, r')
    ensures sid in r'.sessions && c < |r'.sessions[sid].calls|
    ensures r'.sessions[sid].calls[c].phase == Done(Plain(Blocked, 0))
    ensures forall t :: 0 <= t < |r'.sessions[sid].store.claims| ==>
      r'.sessions[sid].store.claims[t].origin.call != c
  {
    ReachableInv(r);
    RunKeepsInv(r, ms, r');
    RunLearns(r, ms, r', sid);
    KnownOf(r', sid);
    assert SameCall(r.sessions[sid].calls[c], r'.sessions[sid].calls[c]);
    RefusedIsOver(r'.sessions[sid], c);
  }

  lemma RefusedIsOver(s: Session, c: CallId)
    requires CallsKnown(s) && ClaimsCalled(s) && c < |s.calls| && s.calls[c].verdict == Some(Refused)
    ensures s.calls[c].phase == Done(Plain(Blocked, 0))
    ensures forall t :: 0 <= t < |s.store.claims| ==> s.store.claims[t].origin.call != c
  {
    assert CallKnown(s, c);
    forall t | 0 <= t < |s.store.claims| ensures s.store.claims[t].origin.call != c {
      assert ClaimCalled(s, s.store.claims[t]);
    }
  }

  /** The policy's answer takes effect: refusal ends the call, a permission or a matching
      approval brings it to the claim lock, anything else holds it for a human. */
  lemma VerdictDecides(r: Process, sid: Sid, c: CallId, verdict: Verdict)
    requires Reachable(r) && sid in r.sessions && c < |r.sessions[sid].calls|
    requires r.sessions[sid].calls[c].phase == Grounding
    ensures CallEnabled(r.sessions[sid], c, Classify(verdict))
    ensures VerdictTaken(Step(r.sessions[sid], ByCall(c, Classify(verdict))).calls[c], verdict)
  {
    ReachableKnown(r, sid);
    VerdictRoutes(r.sessions[sid], c, verdict);
  }

  predicate VerdictTaken(call: Call, verdict: Verdict) {
    && call.verdict == Some(verdict)
    && (verdict == Refused <==> call.phase == Done(Plain(Blocked, 0)))
    && (verdict == Permitted || (verdict == ApprovalRequired && call.via.Some?) <==> call.phase.Claiming?)
    && (verdict == ApprovalRequired && call.via.None? <==> call.phase == SavingApproval)
  }

  lemma VerdictRoutes(s: Session, c: CallId, verdict: Verdict)
    requires ApprovalsBound(s) && c < |s.calls| && s.calls[c].phase == Grounding
    ensures VerdictTaken(ClassifyStep(s, c, verdict).calls[c], verdict)
  {
    assert CallAuthorised(s, s.calls[c]);
  }

  // ---- along a run ------------------------------------------------------------------ //

  lemma LearnsReflexive(s: Session)
    ensures CallsGrow(s, s)
  {
  }

  lemma LearnsTransitive(s: Session, s1: Session, s2: Session)
    requires CallsGrow(s, s1) && CallsGrow(s1, s2)
    ensures CallsGrow(s, s2)
  {
    forall i | 0 <= i < |s.calls| ensures SameCall(s.calls[i], s2.calls[i]) {
      assert SameCall(s.calls[i], s1.calls[i]) && SameCall(s1.calls[i], s2.calls[i]);
    }
  }

  lemma NextLearns(r: Process, m: Move, sid: Sid)
    requires Allowed(r, m) && sid in r.sessions && CallsKnown(r.sessions[sid])
    ensures sid in Next(r, m).sessions && CallsGrow(r.sessions[sid], Next(r, m).sessions[sid])
  {
    LearnsReflexive(r.sessions[sid]);
    match m
    case InSession(i, l) => if i == sid { StepLearns(r.sessions[sid], l); }
    case ExternalCursor => OutsideLearns(r.sessions[sid], ByWorld(HumanCursor));
    case LatchOne(_, i) => if i == sid { OutsideLearns(r.sessions[sid], ByWorld(PanicLatch)); }
    case _ =>
  }

  lemma {:induction false} RunLearns(r: Process, ms: seq<Move>, r': Process, sid: Sid)
    requires ProcessInv(r) && Reaches(r, ms, r') && sid in r.sessions
    ensures sid in r'.sessions && CallsGrow(r.sessions[sid], r'.sessions[sid])
    decreases |ms|
  {
    if ms == [] {
      LearnsReflexive(r.sessions[sid]);
    } else {
      var r1 := Next(r, ms[0]);
      NextKeepsInv(r, ms[0]);
      KnownOf(r, sid);
      NextLearns(r, ms[0], sid);
      RunLearns(r1, ms[1..], r', sid);
      LearnsTransitive(r.sessions[sid], r1.sessions[sid], r'.sessions[sid]);
    }
  }

  // ---- answers ------------------------------------------------------------------------ //

  /** What any call has been answered is its own: a word without actions that fits how far the
      call got, how a finished burst of its own digest ended, or what a receipt for its own key
      and digest says.  So actions are reported done, or a burst completed, only if a finished
      burst of exactly that digest did so, and the answer to a call that ran or joined one
      says which word its settling step found. */
  lemma AnswersAreOwn(r: Process, sid: Sid, c: CallId)
    requires Reachable(r) && sid in r.sessions && c < |r.sessions[sid].calls|
    requires r.sessions[sid].calls[c].phase.Done?
    ensures var s := r.sessions[sid]; var reply := s.calls[c].phase.reply;
            && AnswerFits(s, c, reply)
            && (reply.completed > 0 || reply.status == Completed ==>
                  TrueReply(s.store, s.calls[c].digest, Plain(reply.status, reply.completed)))
  {
    ReachableKnown(r, sid);
    DoneFits(r.sessions[sid], c);
  }

  lemma DoneFits(s: Session, c: CallId)
    requires CallsKnown(s) && c < |s.calls| && s.calls[c].phase.Done?
    ensures var reply := s.calls[c].phase.reply;
            && AnswerFits(s, c, reply)
            && (reply.completed > 0 || reply.status == Completed ==>
                  TrueReply(s.store, s.calls[c].digest, Plain(reply.status, reply.completed)))
  {
    var reply := s.calls[c].phase.reply;
    assert CallKnown(s, c);
    if reply.completed > 0 || reply.status == Completed { ActionsAreReported(s, c, reply); }
  }

  lemma ActionsAreReported(s: Session, c: CallId, reply: Reply)
    requires c < |s.calls| && AnswerFits(s, c, reply) && (reply.completed > 0 || reply.status == Completed)
    ensures TrueReply(s.store, s.calls[c].digest, Plain(reply.status, reply.completed))
  {
    if t: nat, at: nat, lost: bool :| Tells(s, c, reply, t, at, lost) {
      assert ReportsClaim(s.store.claims[t], s.calls[c].digest, Plain(reply.status, reply.completed));
    }
  }

  /** The request names a burst the validator accepts, under a key of 1 to 160 characters. */
  predicate WellFormed(req: Request) {
    req.valid && req.key.Some? && 1 <= |Text.Strip(req.key.value)| <= 160
  }

  /** The key's receipt, if it holds one, is the held one of the approved digest. */
  predicate Unanswered(st: Store, key: Key, digest: Digest, approved: Option<Digest>) {
    key in st.idempotency ==>
      && st.idempotency[key].digest == digest
      && st.idempotency[key].state == ReceiptPending && approved == Some(digest)
  }

  predicate Heard(s: Session, req: Request) { !s.store.stopped && WellFormed(req) }

  /** When an arriving call is turned away. */
  ghost predicate EntryRefused(s: Session, req: Request, approved: Option<Digest>, p: CallPhase) {
    var key := CallerKey(req);
    && (p == Done(Plain(Stopped, 0)) <==> s.store.stopped)
    && (p == Done(Plain(Failed, 0)) <==> !s.store.stopped && !WellFormed(req))
    && (p == Done(Plain(Conflict, 0)) <==>
          Heard(s, req) && key in s.store.idempotency && s.store.idempotency[key].digest != req.digest)
  }

  /** When it is answered from a receipt of its own key and digest. */
  ghost predicate EntryReplayed(s: Session, req: Request, approved: Option<Digest>, p: CallPhase) {
    var key := CallerKey(req);
    p.Done? && p.reply.idempotentReplay <==>
      && Heard(s, req) && !Unanswered(s.store, key, req.digest, approved)
      && s.store.idempotency[key].digest == req.digest
      && p == Done(s.store.idempotency[key].reply.(idempotentReplay := true))
  }

  /** What becomes of it otherwise. */
  ghost predicate EntryOpen(s: Session, req: Request, approved: Option<Digest>, p: CallPhase) {
    var open := Heard(s, req) && Unanswered(s.store, CallerKey(req), req.digest, approved);
    && (p.Done? && p.reply.semanticReplay <==> open && RetainedFor(s.store, req.digest))
    && (p == Done(Plain(FreshnessRequired, 0)) <==>
          open && !RetainedFor(s.store, req.digest) && (!req.worldGiven || req.epoch.None?))
    && (p == Capturing <==>
          open && !RetainedFor(s.store, req.digest) && req.worldGiven && req.epoch.Some?)
  }

  /** What becomes of a call that arrives, condition by condition. */
  ghost predicate EntryDecided(s: Session, req: Request, approved: Option<Digest>, p: CallPhase) {
    EntryRefused(s, req, approved, p) && EntryReplayed(s, req, approved, p) && EntryOpen(s, req, approved, p)
  }

  predicate Unflagged(reply: Reply) { reply == Plain(reply.status, reply.completed) }

  lemma ReceiptsUnflagged(s: Session)
    requires ReceiptsFit(s) && ReceiptsTrue(s.store)
    ensures forall k :: k in s.store.idempotency ==> Unflagged(s.store.idempotency[k].reply)
    ensures forall d :: d in s.store.unsafe ==> Unflagged(s.store.unsafe[d])
  {
    forall k | k in s.store.idempotency ensures Unflagged(s.store.idempotency[k].reply) {
      assert ReceiptFits(s, k, s.store.idempotency[k]);
    }
  }

  lemma EntryIff(r: Process, sid: Sid, req: Request, approved: Option<Digest>, via: Option<ApprovalId>)
    requires Reachable(r) && sid in r.sessions
    ensures var s := r.sessions[sid];
            EntryDecided(s, req, approved, Enter(s, req, approved, via).calls[|s.calls|].phase)
  {
    ReachableKnown(r, sid);
    ReceiptsUnflagged(r.sessions[sid]);
    EntryOf(r.sessions[sid], req, approved, via);
  }

  lemma EntryOf(s: Session, req: Request, approved: Option<Digest>, via: Option<ApprovalId>)
    requires forall k :: k in s.store.idempotency ==> Unflagged(s.store.idempotency[k].reply)
    requires forall d :: d in s.store.unsafe ==> Unflagged(s.store.unsafe[d])
    requires Retention(s.store)
    ensures EntryDecided(s, req, approved, Enter(s, req, approved, via).calls[|s.calls|].phase)
  {
    var answer := Admit(s.store, req, approved).1;
    EntryTurns(s, req, approved);
    EntryGoes(s, req, approved);
    assert Enter(s, req, approved, via).calls[|s.calls|].phase == (if answer.Some? then Done(answer.value) else Capturing);
  }

  lemma EntryTurns(s: Session, req: Request, approved: Option<Digest>)
    requires forall k :: k in s.store.idempotency ==> Unflagged(s.store.idempotency[k].reply)
    requires forall d :: d in s.store.unsafe ==> Unflagged(s.store.unsafe[d])
    ensures var answer := Admit(s.store, req, approved).1;
            var p := if answer.Some? then Done(answer.value) else Capturing;
            EntryRefused(s, req, approved, p) && EntryReplayed(s, req, approved, p)
  {
  }

  lemma EntryGoes(s: Session, req: Request, approved: Option<Digest>)
    requires forall k :: k in s.store.idempotency ==> Unflagged(s.store.idempotency[k].reply)
    requires Retention(s.store)
    ensures var answer := Admit(s.store, req, approved).1;
            EntryOpen(s, req, approved, if answer.Some? then Done(answer.value) else Capturing)
  {
    assert req.digest in s.store.unsafe <==> RetainedFor(s.store, req.digest);
  }

  // ---- the claim lock -------------------------------------------------------------------- //

  /** Claim `t` has not been published and is this digest's. */
  predicate LiveFor(st: Store, digest: Digest, t: ClaimId) {
    t < |st.claims| && !st.claims[t].finished && st.claims[t].digest == digest
  }

  /** Some unpublished claim of another digest lists the key. */
  ghost predicate KeyTaken(st: Store, key: Key, digest: Digest) {
    exists t :: 0 <= t < |st.claims| && !st.claims[t].finished && key in st.claims[t].keys
                && st.claims[t].digest != digest
  }

  /** What the claim lock decides, in terms of the claims themselves: a conflict if the key
      belongs to another burst, by receipt or by a live claim; a share in the digest's live
      claim; or a task of its own. */
  ghost predicate LockDecided(s: Session, call: Call, p: CallPhase, started: bool) {
    var st := s.store;
    var open := Unanswered(st, call.key, call.digest, call.approved) && !RetainedFor(st, call.digest);
    && (p == Done(Plain(Conflict, 0)) <==>
          || (call.key in st.idempotency && st.idempotency[call.key].digest != call.digest)
          || (open && KeyTaken(st, call.key, call.digest)))
    && (p.Waiting? ==> if p.joined then LiveFor(st, call.digest, p.claim) else p.claim == |st.claims|)
    && (p.Waiting? && p.joined <==>
          open && !KeyTaken(st, call.key, call.digest) && exists t :: LiveFor(st, call.digest, t))
    && (p.Waiting? && !p.joined <==>
          open && !KeyTaken(st, call.key, call.digest) && !exists t :: LiveFor(st, call.digest, t))
    && (started <==> p.Waiting? && !p.joined)
    && (p.Done? && p.reply.semanticReplay <==>
          Unanswered(st, call.key, call.digest, call.approved) && RetainedFor(st, call.digest))
    && (p.Done? && p.reply.idempotentReplay <==>
          && call.key in st.idempotency && !Unanswered(st, call.key, call.digest, call.approved)
          && st.idempotency[call.key].digest == call.digest
          && p == Done(st.idempotency[call.key].reply.(idempotentReplay := true)))
  }

  lemma TakenIff(st: Store, key: Key, digest: Digest)
    requires Indexed(st)
    ensures KeyTaken(st, key, digest) <==> key in st.inflight && st.claims[st.inflight[key]].digest != digest
  {
  }

  lemma LiveIff(st: Store, digest: Digest)
    requires Indexed(st)
    ensures forall t :: LiveFor(st, digest, t) <==> digest in st.semantic && st.semantic[digest] == t
  {
  }

  lemma LockIff(r: Process, sid: Sid, c: CallId)
    requires Reachable(r) && sid in r.sessions && c < |r.sessions[sid].calls|
    requires r.sessions[sid].calls[c].phase.Claiming?
    ensures var s := r.sessions[sid];
            && CallEnabled(s, c, TakeClaim)
            && LockDecided(s, s.calls[c], ClaimStep(s, c).calls[c].phase, ClaimStep(s, c).log != s.log)
  {
    ReachableKnown(r, sid);
    ReceiptsUnflagged(r.sessions[sid]);
    LockOf(r.sessions[sid], c);
  }

  lemma LockOf(s: Session, c: CallId)
    requires forall k :: k in s.store.idempotency ==> Unflagged(s.store.idempotency[k].reply)
    requires forall d :: d in s.store.unsafe ==> Unflagged(s.store.unsafe[d])
    requires Indexed(s.store) && Retention(s.store) && c < |s.calls| && s.calls[c].phase.Claiming?
    ensures LockDecided(s, s.calls[c], ClaimStep(s, c).calls[c].phase, ClaimStep(s, c).log != s.log)
  {
    var call := s.calls[c];
    TakenIff(s.store, call.key, call.digest);
    LiveIff(s.store, call.digest);
    ClaimLogs(s, c);
    assert call.digest in s.store.unsafe <==> RetainedFor(s.store, call.digest);
    if call.key in s.store.inflight {
      var t := s.store.inflight[call.key];
      assert s.store.claims[t].digest == call.digest ==> s.store.semantic[call.digest] == t;
    }
  }

  // ---- observation -------------------------------------------------------------------------- //

  /** An observation lets the call go on exactly if the screen is the planned one, no bump has
      come since the planned epoch and no other client is connected; a client it meets for the
      first time revokes control. */
  lemma ObserveIff(r: Process, sid: Sid, c: CallId, current: bool, others: nat)
    requires Reachable(r) && sid in r.sessions && c < |r.sessions[sid].calls|
    requires r.sessions[sid].calls[c].phase == Capturing
    ensures var s := r.sessions[sid]; var planned := s.calls[c].planned;
            var s' := Step(s, ByCall(c, Observe(current, others)));
            && (s'.calls[c].phase == Done(Plain(StaleWorld, 0)) <==> !current)
            && (s'.calls[c].phase == Done(Plain(ControlChanged, 0)) <==>
                  current && (planned != Bumps(s.log) || others > 0))
            && (s'.calls[c].phase == Grounding <==> current && planned == Bumps(s.log) && others == 0)
            && (s'.log == s.log + [Revoked] <==>
                  current && planned == Bumps(s.log) && others > 0 && !s.store.blockActive)
  {
    ReachableKnown(r, sid);
    var s := r.sessions[sid];
    assert |s.log + [Revoked]| != |s.log|;
  }

  // ---- settling and publishing ---------------------------------------------------------------- //

  /** A stop that has landed when an outcome is settled owns its word and the session's status;
      without one, lost evidence makes it failed and otherwise the outcome's own word stands. */
  lemma StopOwnsSettling(r: Process, sid: Sid, c: CallId, lost: bool)
    requires Reachable(r) && sid in r.sessions && c < |r.sessions[sid].calls|
    requires CallEnabled(r.sessions[sid], c, Capture(lost))
    ensures var s := r.sessions[sid]; var p := s.calls[c].phase;
            var s' := Step(s, ByCall(c, Capture(lost)));
            && s'.calls[c].phase.Publishing? && s'.calls[c].phase.claim == p.claim
            && (Latched in s.log ==> s'.calls[c].phase.word == Stopped && s'.store.status == StatusFailed)
            && (Latched !in s.log ==>
                  && s'.store.status == StatusPaused
                  && s'.calls[c].phase.word == if lost then Failed else s.store.claims[p.claim].phase.outcome.status)
  {
    ReachableKnown(r, sid);
  }

  /** Publishing answers with the word of the settling step: stopped if the session had been
      latched by then.  The digest is retained whenever an action was done and the word is not
      completed, so always after such a stop. */
  lemma StopIsPublished(r: Process, sid: Sid, c: CallId)
    requires Reachable(r) && sid in r.sessions && c < |r.sessions[sid].calls|
    requires CallEnabled(r.sessions[sid], c, Publish)
    ensures var s := r.sessions[sid]; var p := s.calls[c].phase;
            var outcome := s.store.claims[p.claim].phase.outcome;
            var s' := Step(s, ByCall(c, Publish));
            && p.at <= |s.log|
            && s'.calls[c].phase == Done(Reply(WordAt(s.log, p.at, p.lost, outcome), outcome.completed,
                                               s.store.claims[p.claim].origin.call != c,
                                               s.store.claims[p.claim].ownerKey != s.calls[c].key, false, false))
            && (Latched in s.log[..p.at] ==> s'.calls[c].phase.reply.status == Stopped)
            && (outcome.completed > 0 && s'.calls[c].phase.reply.status != Completed ==>
                  s.calls[c].digest in s'.store.unsafe)
  {
    ReachableKnown(r, sid);
    assert CallKnown(r.sessions[sid], c);
  }

  // ---- what a receipt answers ------------------------------------------------------------------- //

  /** A call that arrives under `key`, on a session that is not stopped, is answered from this
      receipt: with its reply for the same digest, with a conflict for any other. */
  ghost predicate AnswersFor(s: Session, key: Key, receipt: Receipt) {
    forall req :: !s.store.stopped && WellFormed(req) && CallerKey(req) == key ==>
      Enter(s, req, None, None).calls[|s.calls|].phase
      == Done(if req.digest == receipt.digest then receipt.reply.(idempotentReplay := true) else Plain(Conflict, 0))
  }

  lemma ReceiptAnswers(s: Session, key: Key)
    requires key in s.store.idempotency
    ensures AnswersFor(s, key, s.store.idempotency[key])
  {
  }

  /** Once published, a burst answers under each of its keys with what was published. */
  lemma PublishedAnswers(r: Process, sid: Sid, c: CallId, key: Key)
    requires Reachable(r) && sid in r.sessions && c < |r.sessions[sid].calls|
    requires CallEnabled(r.sessions[sid], c, Publish)
    requires key in r.sessions[sid].store.claims[r.sessions[sid].calls[c].phase.claim].keys
    ensures var s := r.sessions[sid]; var p := s.calls[c].phase;
            AnswersFor(PublishStep(s, c), key,
                       Receipt(s.calls[c].digest, ReceiptCompleted,
                               Plain(p.word, s.store.claims[p.claim].phase.outcome.completed)))
  {
    var s' := PublishStep(r.sessions[sid], c);
    ReceiptAnswers(s', key);
  }

  /** So does a burst that raised. */
  lemma RaisedAnswers(r: Process, sid: Sid, c: CallId, key: Key)
    requires Reachable(r) && sid in r.sessions && c < |r.sessions[sid].calls|
    requires CallEnabled(r.sessions[sid], c, Resume)
    requires var st := r.sessions[sid].store; var t := r.sessions[sid].calls[c].phase.claim;
             st.claims[t].phase.outcome.Raised? && key in st.claims[t].keys
    ensures AnswersFor(ResumeStep(r.sessions[sid], c), key,
                       Receipt(r.sessions[sid].calls[c].digest, ReceiptCompleted, Plain(Failed, 0)))
  {
    ReceiptAnswers(ResumeStep(r.sessions[sid], c), key);
  }

  /** A held call answers for its key until the human has decided. */
  lemma HeldAnswers(s: Session, c: CallId)
    requires c < |s.calls| && s.calls[c].phase == HoldingReply
    ensures var s' := Step(s, ByCall(c, HoldReply));
            && s'.calls[c].phase == Done(Plain(NeedsApproval, 0))
            && AnswersFor(s', s.calls[c].key, Receipt(s.calls[c].digest, ReceiptPending, Plain(NeedsApproval, 0)))
  {
    ReceiptAnswers(HoldStep(s, c), s.calls[c].key);
  }

  /** A decision other than approve closes whatever receipt its key holds. */
  lemma DecidedAnswers(s: Session, a: ApprovalId, state: ReceiptState)
    requires WorldEnabled(s, EndReject(a, state)) && s.approvals[a].key in s.store.idempotency
    ensures var key := s.approvals[a].key;
            var s' := Step(s, ByWorld(EndReject(a, state)));
            && AnswersFor(s', key, Receipt(s.store.idempotency[key].digest, state, Plain(Blocked, 0)))
            && !s'.approvals[a].pending
            && forall approved :: !Unanswered(s'.store, key, s.store.idempotency[key].digest, approved)
  {
    ReceiptAnswers(WorldStep(s, EndReject(a, state)), s.approvals[a].key);
  }

  /** A call answered from a retained receipt has spent its key on it. */
  lemma SemanticAnswers(s: Session, req: Request)
    requires !s.store.stopped && WellFormed(req)
    requires Unanswered(s.store, CallerKey(req), req.digest, None) && req.digest in s.store.unsafe
    ensures var s' := Step(s, Arrive(req));
            && s'.calls[|s.calls|].phase
               == Done(s.store.unsafe[req.digest].(aliasReplay := true, semanticReplay := true))
            && AnswersFor(s', CallerKey(req), Receipt(req.digest, ReceiptCompleted, s.store.unsafe[req.digest]))
  {
    ReceiptAnswers(Step(s, Arrive(req)), CallerKey(req));
  }

  // ---- the gate ------------------------------------------------------------------------------------ //

  lemma FrontBump(log: seq<Event>, m: nat)
    requires m < |log|
    ensures BumpIn(log[..|log| - 1], m, |log| - 1) ==> BumpIn(log, m, |log|)
  {
    var front := log[..|log| - 1];
    if BumpIn(front, m, |front|) {
      var b :| m <= b < |front| && IsBump(front[b]);
      assert IsBump(log[b]);
    }
  }

  /** With no bump in between, the epoch is still the planned one. */
  lemma {:induction false} QuietBumps(log: seq<Event>, m: nat)
    requires m <= |log| && !BumpIn(log, m, |log|)
    ensures Bumps(log[..m]) == Bumps(log)
    decreases |log|
  {
    if m == |log| {
      assert log[..m] == log;
    } else {
      var front := log[..|log| - 1];
      assert !IsBump(log[|log| - 1]);
      FrontBump(log, m);
      QuietBumps(front, m);
      assert front[..m] == log[..m];
    }
  }

  /** A gate lets a micro-action through exactly if the session was never latched, no other
      client is connected, and no bump of any kind has come since the claim's observation. */
  lemma GateIff(r: Process, sid: Sid, t: ClaimId, others: nat, paused: bool)
    requires Reachable(r) && sid in r.sessions && t < |r.sessions[sid].store.claims|
    requires TaskEnabled(r.sessions[sid], t, BeginMicro(others, paused))
    ensures GateDecided(r.sessions[sid], t, others, paused,
                        Step(r.sessions[sid], ByTask(t, BeginMicro(others, paused))).log)
  {
    ReachableKnown(r, sid);
    GateOf(r.sessions[sid], t, others, paused);
  }

  /** Whether the task is admitted in the log that follows. */
  ghost predicate GateDecided(s: Session, t: ClaimId, others: nat, paused: bool, log: seq<Event>)
    requires t < |s.store.claims|
  {
    s.log + [Admitted(t, others, paused)] <= log <==>
      && Latched !in s.log && others == 0
      && !BumpIn(s.log, s.store.claims[t].origin.observedAt, |s.log|)
  }

  lemma ExtendsBy(log: seq<Event>, e: Event, log': seq<Event>)
    requires log <= log'
    ensures log + [e] <= log' <==> |log| < |log'| && log'[|log|] == e
  {
    assert log + [e] <= log' ==> log'[|log|] == (log + [e])[|log|];
  }

  lemma GateOf(s: Session, t: ClaimId, others: nat, paused: bool)
    requires EpochCounts(s) && Timed(s) && t < |s.store.claims|
    ensures GateDecided(s, t, others, paused, MicroStep(s, t, others, paused).log)
  {
    var o := s.store.claims[t].origin;
    assert s.log[..|s.log|] == s.log;
    if Bumps(s.log) == o.planned {
      NoBumpBetween(s.log, o.planned, o.observedAt, |s.log|);
    } else if !BumpIn(s.log, o.observedAt, |s.log|) {
      QuietBumps(s.log, o.observedAt);
    }
    assert s.store.epoch == o.planned <==> !BumpIn(s.log, o.observedAt, |s.log|);
    if GateOpen(ProbeStep(s, others).store, o.planned, others) {
      OpenGateLog(s, t, others, paused);
    } else {
      var s' := MicroStep(s, t, others, paused);
      assert forall i :: |s.log| <= i < |s'.log| ==> !s'.log[i].Admitted?;
      ExtendsBy(s.log, Admitted(t, others, paused), s'.log);
    }
  }

  // ---- what ends a burst ---------------------------------------------------------------------------- //

  /** No admission of task `t` lies in the log from `n` on. */
  ghost predicate NoAdmissionFrom(log: seq<Event>, n: nat, t: ClaimId) {
    forall a :: n <= a < |log| ==> !(log[a].Admitted? && log[a].claim == t)
  }

  predicate Expired(st: Store, t: ClaimId)
    requires t < |st.claims|
  {
    st.stopped || st.claims[t].origin.planned < st.epoch
  }

  lemma ExpiredStays(s: Session, s': Session, t: ClaimId)
    requires EpochCounts(s) && t < |s.store.claims| && Expired(s.store, t)
    requires Progress(s, s') && AdmissionsFit(s')
    ensures NoAdmissionFrom(s'.log, |s.log|, t)
  {
    assert SameIdentity(s.store.claims[t], s'.store.claims[t]);
    forall a | |s.log| <= a < |s'.log| && s'.log[a].Admitted? && s'.log[a].claim == t
      ensures false
    {
      assert AdmissionFits(s', a) && s.log <= s'.log[..a];
      LogKept(s.log, s'.log[..a]);
    }
  }

  lemma LogKept(log: seq<Event>, past: seq<Event>)
    requires log <= past
    ensures Bumps(log) <= Bumps(past) && (Latched in log ==> Latched in past)
  {
    assert past[..|log|] == log;
    BumpsSplit(past, |log|);
    assert forall i :: 0 <= i < |log| ==> past[i] == log[i];
  }

  lemma ExpiredForever(r: Process, ms: seq<Move>, r': Process, sid: Sid, t: ClaimId)
    requires ProcessInv(r) && Reaches(r, ms, r') && sid in r.sessions
    requires t < |r.sessions[sid].store.claims| && Expired(r.sessions[sid].store, t)
    ensures sid in r'.sessions && NoAdmissionFrom(r'.sessions[sid].log, |r.sessions[sid].log|, t)
  {
    RunKeepsInv(r, ms, r');
    RunProgress(r, ms, r');
    ExpiredStays(r.sessions[sid], r'.sessions[sid], t);
  }

  /** A move after which the task has expired, and which did not admit it, ends it. */
  lemma EndedBy(r: Process, m: Move, ms: seq<Move>, r': Process, sid: Sid, t: ClaimId)
    requires Reachable(r) && Allowed(r, m) && Reaches(Next(r, m), ms, r') && sid in r.sessions
    requires sid in Next(r, m).sessions
    requires var s, s' := r.sessions[sid], Next(r, m).sessions[sid];
             && t < |s.store.claims| == |s'.store.claims| && Expired(s'.store, t)
             && s.log <= s'.log && NoAdmissionFrom(s'.log, |s.log|, t)
    ensures sid in r'.sessions && NoAdmissionFrom(r'.sessions[sid].log, |r.sessions[sid].log|, t)
  {
    ReachableInv(r);
    NextKeepsInv(r, m);
    ExpiredForever(Next(r, m), ms, r', sid, t);
    RunProgress(Next(r, m), ms, r');
    FromHere(r.sessions[sid].log, Next(r, m).sessions[sid].log, r'.sessions[sid].log, t);
  }

  lemma FromHere(log: seq<Event>, log1: seq<Event>, log2: seq<Event>, t: ClaimId)
    requires log <= log1 <= log2 && NoAdmissionFrom(log1, |log|, t) && NoAdmissionFrom(log2, |log1|, t)
    ensures NoAdmissionFrom(log2, |log|, t)
  {
    forall a | |log| <= a < |log2|
      ensures !(log2[a].Admitted? && log2[a].claim == t)
    {
      if a < |log1| { assert log2[a] == log1[a]; }
    }
  }

  /** The process step of a cursor report changes each session's store as the runtime object's
      method does. */
  lemma CursorIsRevocation(r: Process, sid: Sid)
    requires sid in r.sessions
    ensures Next(r, ExternalCursor).sessions[sid].store == RevokedByHuman(r.sessions[sid].store)
    ensures Next(r, ExternalCursor).sessions[sid].log
         == r.sessions[sid].log + if r.sessions[sid].store.stopped then [] else [Revoked]
  {
    assert r.sessions[sid].log + [] == r.sessions[sid].log;
  }

  /** Once the user has moved the cursor, no task of any session is admitted again. */
  lemma CursorEndsBursts(r: Process, ms: seq<Move>, r': Process, sid: Sid, t: ClaimId)
    requires Reachable(r) && sid in r.sessions && t < |r.sessions[sid].store.claims|
    requires Reaches(Next(r, ExternalCursor), ms, r')
    ensures sid in r'.sessions && NoAdmissionFrom(r'.sessions[sid].log, |r.sessions[sid].log|, t)
  {
    ReachableKnown(r, sid);
    PlannedBelow(r.sessions[sid]);
    EndedBy(r, ExternalCursor, ms, r', sid, t);
  }

  /** After an abort no task of the session is admitted again. */
  lemma AbortEndsBursts(r: Process, ms: seq<Move>, r': Process, sid: Sid, t: ClaimId)
    requires Reachable(r) && sid in r.sessions && t < |r.sessions[sid].store.claims|
    requires Reaches(Next(r, InSession(sid, ByWorld(Abort))), ms, r')
    ensures sid in r'.sessions && NoAdmissionFrom(r'.sessions[sid].log, |r.sessions[sid].log|, t)
  {
    EndedBy(r, InSession(sid, ByWorld(Abort)), ms, r', sid, t);
  }

  /** Once a gate has seen another client, no task the session has started by then is admitted
      again, even when the client leaves. */
  lemma ClientEndsBursts(
    r: Process, u: ClaimId, others: nat, paused: bool, ms: seq<Move>, r': Process, sid: Sid, t: ClaimId)
    requires Reachable(r) && sid in r.sessions && t < |r.sessions[sid].store.claims| && others > 0
    requires Allowed(r, InSession(sid, ByTask(u, BeginMicro(others, paused))))
    requires Reaches(Next(r, InSession(sid, ByTask(u, BeginMicro(others, paused)))), ms, r')
    ensures sid in r'.sessions && NoAdmissionFrom(r'.sessions[sid].log, |r.sessions[sid].log|, t)
  {
    ReachableKnown(r, sid);
    PlannedBelow(r.sessions[sid]);
    MeetsClient(r.sessions[sid], u, others, paused, t);
    EndedBy(r, InSession(sid, ByTask(u, BeginMicro(others, paused))), ms, r', sid, t);
  }

  lemma MeetsClient(s: Session, u: ClaimId, others: nat, paused: bool, t: ClaimId)
    requires ClientsSeen(s) && u < |s.store.claims| && t < |s.store.claims| && others > 0
    requires s.store.claims[t].origin.planned <= s.store.epoch
    ensures var s' := MicroStep(s, u, others, paused);
            && |s'.store.claims| == |s.store.claims| && Expired(s'.store, t) && s'.store.blockActive
            && s.log <= s'.log && NoAdmissionFrom(s'.log, |s.log|, t)
  {
  }

  // ---- the session's status --------------------------------------------------------------------------- //

  /** Panic leaves no session it latches resumable, and one that had ended as it was. */
  lemma PanicFailsResumable(s: Session)
    ensures var s' := Step(s, ByWorld(PanicLatch));
            && s'.store.stopped && s'.store.status in {StatusFailed, StatusDone}
            && (s.store.status in {StatusFailed, StatusDone} ==> s'.store.status == s.store.status)
            && (s.store.status !in {StatusFailed, StatusDone} ==> s'.store.status == StatusFailed)
  {
  }

  /** An abort latches and fails the session, whatever it was doing. */
  lemma AbortFailsSession(s: Session)
    ensures var s' := Step(s, ByWorld(Abort));
            s'.store.stopped && s'.store.status == StatusFailed && s'.store.epoch > s.store.epoch
  {
  }

  /** A call that arrives changes the status only if its burst is refused by the validator: the
      session is then paused. */
  lemma BadBurstPauses(s: Session, req: Request)
    ensures Step(s, Arrive(req)).store.status
         == if !s.store.stopped && !req.valid then StatusPaused else s.store.status
  {
  }

  /** The steps that write a status without looking at the latch: entering the claim, holding
      for approval, passing on what a burst raised, and a human's decision. */
  predicate WritesStatus(s: Session, l: Label)
    requires Enabled(s, l)
  {
    || (l.ByCall? && (|| l.move.MarkNeedsApproval?
                      || (l.move.TakeClaim? && ClaimStep(s, l.call).calls[l.call].phase.Waiting?)
                      || (l.move.Resume? && s.store.claims[s.calls[l.call].phase.claim].phase.outcome.Raised?)))
    || (l.ByWorld? && l.event.EndReject?)
  }

  /** The failed status of a latched session is overwritten by exactly these steps. */
  lemma StickyStatusIff(s: Session, l: Label)
    requires Enabled(s, l) && s.store.stopped && s.store.status == StatusFailed
    ensures Step(s, l).store.status != StatusFailed <==> WritesStatus(s, l)
  {
    match l
    case ByCall(c, m) => CallStatus(s, c, m);
    case ByTask(t, m) =>
    case ByWorld(e) =>
    case _ =>
  }

  lemma CallStatus(s: Session, c: CallId, m: CallMove)
    requires c < |s.calls| && CallEnabled(s, c, m) && s.store.stopped && s.store.status == StatusFailed
    ensures CallStep(s, c, m).store.status != StatusFailed <==> WritesStatus(s, ByCall(c, m))
  {
    if m.TakeClaim? { ClaimStatus(s, c); }
  }

  lemma ClaimStatus(s: Session, c: CallId)
    requires c < |s.calls| && CallEnabled(s, c, TakeClaim)
    ensures var s' := ClaimStep(s, c);
            s'.store.status == if s'.calls[c].phase.Waiting? then StatusRunning else s.store.status
  {
  }
}
