/** What every step of the burst protocol keeps. */
module BurstInvariant {
  import opened Options
  import opened BurstStore
  import opened BurstProtocol
  import Text

  // ---- reading the history ---------------------------------------------- //

  predicate IsBump(e: Event) { e == Revoked || e == Latched }

  /** How often the epoch has been bumped. */
  function Bumps(log: seq<Event>): nat {
    if log == [] then 0
    else Bumps(log[..|log| - 1]) + (if IsBump(log[|log| - 1]) then 1 else 0)
  }

  /** A task was started under `key` and no approval-pending store for `key` has
      landed since. */
  predicate Covered(log: seq<Event>, key: Key) {
    if log == [] then false
    else
      var e := log[|log| - 1];
      if e.Started? && e.key == key then true
      else if e == PendingStored(key) then false
      else Covered(log[..|log| - 1], key)
  }

  lemma BumpsAppend(log: seq<Event>, e: Event)
    ensures Bumps(log + [e]) == Bumps(log) + (if IsBump(e) then 1 else 0)
  {
    assert (log + [e])[..|log|] == log;
  }

  lemma CoveredAppend(log: seq<Event>, e: Event, key: Key)
    ensures Covered(log + [e], key) ==
            if e.Started? && e.key == key then true
            else if e == PendingStored(key) then false
            else Covered(log, key)
  {
    assert (log + [e])[..|log|] == log;
  }

  lemma {:induction false} BumpsSplit(log: seq<Event>, m: nat)
    requires m <= |log|
    ensures Bumps(log[..m]) <= Bumps(log)
    ensures Bumps(log[..m]) == Bumps(log) ==> forall i :: m <= i < |log| ==> !IsBump(log[i])
  {
    if m == |log| {
      assert log[..m] == log;
    } else {
      var front := log[..|log| - 1];
      BumpsSplit(front, m);
      assert front[..m] == log[..m];
      if Bumps(log[..m]) == Bumps(log) {
        forall i | m <= i < |log| ensures !IsBump(log[i]) {
          if i < |front| { assert log[i] == front[i]; }
        }
      }
    }
  }

  // ---- the invariant ----------------------------------------------------- //

  /** The key index names exactly the unfinished claims that list the key. */
  ghost predicate KeysIndexed(st: Store)
    requires IndexesInRange(st)
  {
    && (forall k :: k in st.inflight ==>
          k in st.claims[st.inflight[k]].keys && !st.claims[st.inflight[k]].finished)
    && (forall c, k :: 0 <= c < |st.claims| && !st.claims[c].finished && k in st.claims[c].keys ==>
          k in st.inflight && st.inflight[k] == c)
    && (forall c :: 0 <= c < |st.claims| ==> st.claims[c].ownerKey in st.claims[c].keys)
  }

  /** The digest index names exactly the unfinished claim of the digest. */
  ghost predicate DigestsIndexed(st: Store)
    requires IndexesInRange(st)
  {
    && (forall d :: d in st.semantic ==>
          st.claims[st.semantic[d]].digest == d && !st.claims[st.semantic[d]].finished)
    && (forall c :: 0 <= c < |st.claims| && !st.claims[c].finished ==>
          st.claims[c].digest in st.semantic && st.semantic[st.claims[c].digest] == c)
  }

  /** The two indexes describe exactly the unfinished claims. */
  ghost predicate Indexed(st: Store) {
    IndexesInRange(st) && KeysIndexed(st) && DigestsIndexed(st)
  }

  predicate EndedUnsafe(c: Claim) { c.phase.Ended? && Unsafe(c.phase.outcome) }

  /** Unfinished claims bar their digest through the index, unsafe ones forever through
      the retained receipt. */
  ghost predicate Braked(st: Store) {
    && (forall c :: 0 <= c < |st.claims| && st.claims[c].finished ==> st.claims[c].phase.Ended?)
    && (forall c :: 0 <= c < |st.claims| && st.claims[c].finished && EndedUnsafe(st.claims[c]) ==>
          st.claims[c].digest in st.unsafe)
    && (forall c, c' :: 0 <= c < c' < |st.claims| && st.claims[c].digest == st.claims[c'].digest ==>
          st.claims[c].finished && !EndedUnsafe(st.claims[c]))
  }

  /** Some waiter published this claim's outcome, with actions done, under a word other
      than completed. */
  predicate PublishedUnsafe(c: Claim) {
    && c.phase.Ended? && c.phase.outcome.Returned? && c.phase.outcome.completed > 0
    && exists w :: w in c.words && w != Completed
  }

  /** What it takes for a digest to have a retained receipt. */
  ghost predicate RetainedFor(st: Store, d: Digest) {
    exists c :: 0 <= c < |st.claims| && st.claims[c].digest == d && PublishedUnsafe(st.claims[c])
  }

  /** Receipts are retained for exactly the digests that were published unsafe. */
  ghost predicate Retention(st: Store) {
    && (forall c :: 0 <= c < |st.claims| && st.claims[c].words != {} ==> st.claims[c].phase.Ended?)
    && (forall d :: d in st.unsafe <==> RetainedFor(st, d))
  }

  /** A waiter holds a claim of its own digest that lists its key. */
  ghost predicate Holds(st: Store, call: Call, c: ClaimId) {
    && c < |st.claims|
    && st.claims[c].digest == call.digest
    && call.key in st.claims[c].keys
  }

  ghost predicate HasOutcome(st: Store, c: ClaimId) {
    c < |st.claims| && st.claims[c].phase.Ended? && st.claims[c].phase.outcome.Returned?
  }

  ghost predicate CallFits(st: Store, call: Call) {
    match call.phase
    case Waiting(c, _, _) => Holds(st, call, c)
    case Settling(c, _, _) => Holds(st, call, c) && HasOutcome(st, c)
    case Publishing(c, _, _, word, _, _) =>
      Holds(st, call, c) && HasOutcome(st, c) && Describes(word, st.claims[c].phase.outcome)
    case _ => true
  }

  ghost predicate CallsFit(s: Session) {
    forall i :: 0 <= i < |s.calls| ==> CallFits(s.store, s.calls[i])
  }

  /** A published reply without replay flags that tells how a finished burst for exactly
      this digest ended. */
  ghost predicate TrueReply(st: Store, digest: Digest, reply: Reply) {
    && reply == Plain(reply.status, reply.completed)
    && exists c :: 0 <= c < |st.claims| && ReportsClaim(st.claims[c], digest, reply)
  }

  predicate ReportsClaim(c: Claim, digest: Digest, reply: Reply) {
    && c.digest == digest && c.finished && c.phase.Ended?
    && match c.phase.outcome
       case Raised => reply == Plain(Failed, 0)
       case Returned(_, completed) => reply.completed == completed && Describes(reply.status, c.phase.outcome)
  }

  ghost predicate ReceiptsTrue(st: Store) {
    && (forall k :: k in st.idempotency && st.idempotency[k].state == ReceiptCompleted ==>
          TrueReply(st, st.idempotency[k].digest, st.idempotency[k].reply))
    && (forall d :: d in st.unsafe ==>
          TrueReply(st, d, st.unsafe[d]) && st.unsafe[d].completed > 0 && st.unsafe[d].status != Completed)
  }

  /** A key that has started a task is claimed, or holds a receipt that is not pending. */
  predicate Guarded(st: Store, key: Key) {
    key in st.inflight || (key in st.idempotency && st.idempotency[key].state != ReceiptPending)
  }

  ghost predicate KeysGuarded(s: Session) {
    forall k :: Covered(s.log, k) ==> Guarded(s.store, k)
  }

  ghost predicate StartsUncovered(log: seq<Event>) {
    forall j :: 0 <= j < |log| && log[j].Started? ==> !Covered(log[..j], log[j].key)
  }

  /** The key has a claim or a receipt of some kind. */
  predicate Seen(st: Store, key: Key) { key in st.inflight || key in st.idempotency }

  /** The history names the claim each event is about. */
  ghost predicate EventFits(st: Store, e: Event) {
    match e
    case Started(c, key, digest) =>
      c < |st.claims| && st.claims[c].digest == digest && st.claims[c].ownerKey == key && Seen(st, key)
    case TaskEnded(c, outcome) => c < |st.claims| && st.claims[c].phase == Ended(outcome)
    case _ => true
  }

  ghost predicate EventsFit(s: Session) {
    forall j :: 0 <= j < |s.log| ==> EventFits(s.store, s.log[j])
  }

  /** Claims are numbered in the order their tasks are started. */
  ghost predicate StartsOrdered(log: seq<Event>) {
    forall i, j :: 0 <= i < j < |log| && log[i].Started? && log[j].Started? ==> log[i].claim < log[j].claim
  }

  /** Planned epochs were current when they were checked against the screen. */
  ghost predicate PlannedAt(log: seq<Event>, planned: int, observedAt: nat) {
    observedAt <= |log| && Bumps(log[..observedAt]) == planned
  }

  predicate HasObserved(p: CallPhase) {
    !p.Capturing? && !p.Done? && !p.Cancelled?
  }

  ghost predicate EpochCounts(s: Session) {
    && s.store.epoch == Bumps(s.log)
    && (s.store.stopped <==> Latched in s.log)
  }

  ghost predicate CallTimed(s: Session, call: Call) {
    HasObserved(call.phase) ==> PlannedAt(s.log, call.planned, call.observedAt)
  }

  ghost predicate Timed(s: Session) {
    && (forall i :: 0 <= i < |s.calls| ==> CallTimed(s, s.calls[i]))
    && (forall a :: 0 <= a < |s.approvals| ==> PlannedAt(s.log, s.approvals[a].epoch, s.approvals[a].observedAt))
    && (forall c :: 0 <= c < |s.store.claims| ==>
          PlannedAt(s.log, s.store.claims[c].origin.planned, s.store.claims[c].origin.observedAt))
  }

  /** A micro-action was admitted with the latch off, no other client, and the epoch
      its claim had planned against. */
  ghost predicate AdmissionFits(s: Session, m: nat)
    requires m < |s.log| && s.log[m].Admitted?
  {
    var c := s.log[m].claim;
    && c < |s.store.claims|
    && s.store.claims[c].origin.observedAt <= m
    && Bumps(s.log[..m]) == s.store.claims[c].origin.planned
    && Latched !in s.log[..m]
    && s.log[m].others == 0
  }

  ghost predicate AdmissionsFit(s: Session) {
    forall m: nat :: m < |s.log| && s.log[m].Admitted? ==> AdmissionFits(s, m)
  }

  /** `a` is the last admission of task `t` before `m`. */
  ghost predicate OwnAdmission(log: seq<Event>, a: nat, m: nat, t: ClaimId) {
    && a < m <= |log| && log[a].Admitted? && log[a].claim == t
    && forall k :: a < k < m ==> !(log[k].Admitted? && log[k].claim == t)
  }

  ghost predicate HasAdmission(log: seq<Event>, m: nat, t: ClaimId) {
    exists a :: OwnAdmission(log, a, m, t)
  }

  /** Every HID report has an admission, and one admitted without a pause follows at once. */
  ghost predicate EmissionsAdmitted(log: seq<Event>) {
    && (forall m: nat :: m < |log| && log[m].Emitted? ==> HasAdmission(log, m, log[m].claim))
    && (forall a: nat :: a < |log| && log[a].Admitted? && !log[a].paused ==>
          a + 1 < |log| && log[a + 1] == Emitted(log[a].claim))
  }

  /** The task holds an admitted micro-action. */
  predicate InFlight(st: Store, t: ClaimId) {
    t < |st.claims| && (st.claims[t].phase == Running(Pausing) || st.claims[t].phase == Running(Emitting))
  }

  ghost predicate FlightsAdmitted(s: Session) {
    forall t: ClaimId :: InFlight(s.store, t) ==> HasAdmission(s.log, |s.log|, t)
  }

  /** The approval a call or claim runs under is the stored one, seen no later. */
  ghost predicate Authorised(s: Session, via: Option<ApprovalId>, digest: Digest, planned: int) {
    via.Some? ==>
      && via.value < |s.approvals|
      && s.approvals[via.value].digest == digest
      && s.approvals[via.value].epoch == planned
  }

  ghost predicate CallAuthorised(s: Session, call: Call) {
    && Authorised(s, call.via, call.digest, call.planned)
    && call.approved == (if call.via.Some? then Some(call.digest) else None)
    && (call.via.Some? ==>
          s.approvals[call.via.value].key == call.key &&
          (HasObserved(call.phase) ==> s.approvals[call.via.value].observedAt <= call.observedAt))
    && (call.phase.Claiming? && call.phase.needsApproval ==> call.via.Some?)
    && Text.Trimmed(call.key)
  }

  ghost predicate ClaimAuthorised(s: Session, c: Claim) {
    && Authorised(s, c.origin.via, c.digest, c.origin.planned)
    && (c.origin.via.Some? ==>
          s.approvals[c.origin.via.value].key == c.ownerKey &&
          s.approvals[c.origin.via.value].observedAt <= c.origin.observedAt)
    && (c.origin.needsApproval ==> c.origin.via.Some?)
  }

  ghost predicate ApprovalsBound(s: Session) {
    && (forall i :: 0 <= i < |s.calls| ==> CallAuthorised(s, s.calls[i]))
    && (forall c :: 0 <= c < |s.store.claims| ==> ClaimAuthorised(s, s.store.claims[c]))
    && (forall a :: 0 <= a < |s.approvals| ==> Text.Trimmed(s.approvals[a].key))
  }

  // ---- what calls know and are told ---------------------------------------- //

  /** The policy permitted the burst, or asked for the approval the call was made under. */
  predicate MayClaim(call: Call) {
    call.verdict == Some(Permitted) || (call.verdict == Some(ApprovalRequired) && call.via.Some?)
  }

  predicate SawItAlone(call: Call) { call.sight == Some(Sight(true, 0)) }

  /** The call has been at the claim lock, or has ended. */
  predicate PastClaim(p: CallPhase) {
    p.Waiting? || p.Settling? || p.Publishing? || p.Done? || p.Cancelled?
  }

  /** Some call under this key was held for approval of this digest. */
  ghost predicate HeldFor(s: Session, key: Key, digest: Digest) {
    exists h :: 0 <= h < |s.calls| && s.calls[h].key == key && s.calls[h].digest == digest
                && s.calls[h].verdict == Some(ApprovalRequired)
  }

  /** Some request made under this key was decided against. */
  ghost predicate ClosedFor(s: Session, key: Key) {
    exists a :: a in s.rejecting && a < |s.approvals| && s.approvals[a].key == key
  }

  /** What a receipt for this key and digest may say: how a finished burst of the digest
      ended, that a call was held, or that its request was decided against. */
  ghost predicate ReplyAgrees(s: Session, key: Key, digest: Digest, reply: Reply) {
    || TrueReply(s.store, digest, reply)
    || (reply == Plain(NeedsApproval, 0) && HeldFor(s, key, digest))
    || (reply == Plain(Blocked, 0) && ClosedFor(s, key))
  }

  ghost predicate ReceiptFits(s: Session, key: Key, receipt: Receipt) {
    match receipt.state
    case ReceiptCompleted => TrueReply(s.store, receipt.digest, receipt.reply)
    case ReceiptPending => receipt.reply == Plain(NeedsApproval, 0) && HeldFor(s, key, receipt.digest)
    case _ => receipt.reply == Plain(Blocked, 0) && ClosedFor(s, key)
  }

  ghost predicate ReceiptsFit(s: Session) {
    forall k :: k in s.store.idempotency ==> ReceiptFits(s, k, s.store.idempotency[k])
  }

  /** The word an outcome is published under when it is settled at `at`. */
  function WordAt(log: seq<Event>, at: nat, lost: bool, o: Outcome): Word
    requires at <= |log| && o.Returned?
  {
    if Latched in log[..at] then Stopped else if lost then Failed else o.status
  }

  /** `reply` tells call `i` how claim `t` of its digest ended and whether the call joined it. */
  ghost predicate Tells(s: Session, i: nat, reply: Reply, t: nat, at: nat, lost: bool)
    requires i < |s.calls|
  {
    var call := s.calls[i];
    && t < |s.store.claims| && at <= |s.log|
    && var c := s.store.claims[t];
       && c.digest == call.digest && call.key in c.keys && c.finished && c.phase.Ended?
       && reply == (if c.phase.outcome.Raised? then Plain(Failed, 0)
                    else Reply(WordAt(s.log, at, lost, c.phase.outcome), c.phase.outcome.completed,
                               c.origin.call != i, c.ownerKey != call.key, false, false))
  }

  ghost predicate OwnReport(s: Session, i: nat, reply: Reply)
    requires i < |s.calls|
  {
    exists t: nat, at: nat, lost: bool :: Tells(s, i, reply, t, at, lost)
  }

  /** Words that end a call without touching a claim, and when each may. */
  predicate PlainFits(call: Call, word: Word) {
    match word
    case Stopped => call.sight.None? && call.verdict.None?
    case Failed => call.sight.None? && call.verdict.None?
    case FreshnessRequired => call.sight.None? && call.verdict.None?
    case StaleWorld => call.sight.Some? && !call.sight.value.current && call.verdict.None?
    case ControlChanged => call.sight.Some? && call.sight.value.current && call.verdict.None?
    case Blocked => call.verdict == Some(Refused)
    case NeedsApproval => call.verdict == Some(ApprovalRequired) && call.via.None?
    case Conflict => call.verdict.None? || MayClaim(call)
    case _ => false
  }

  ghost predicate AnswerFits(s: Session, i: nat, reply: Reply)
    requires i < |s.calls|
  {
    var call := s.calls[i];
    || (reply == Plain(reply.status, 0) && PlainFits(call, reply.status))
    || (&& (call.verdict.None? || MayClaim(call))
        && (|| (&& reply.idempotentReplay
                && ReplyAgrees(s, call.key, call.digest, reply.(idempotentReplay := false)))
            || (&& reply.semanticReplay && reply.aliasReplay && reply.completed > 0 && reply.status != Completed
                && TrueReply(s.store, call.digest, reply.(semanticReplay := false, aliasReplay := false)))))
    || (MayClaim(call) && OwnReport(s, i, reply))
  }

  /** A waiter's flags say whether it started the claim and under which key. */
  predicate FlagsFit(s: Session, i: nat, t: ClaimId, joined: bool, alias: bool)
    requires i < |s.calls|
  {
    && t < |s.store.claims|
    && joined == (s.store.claims[t].origin.call != i)
    && alias == (s.store.claims[t].ownerKey != s.calls[i].key)
  }

  /** The word a call is about to publish is the one its settling step found. */
  predicate WordFits(s: Session, t: ClaimId, word: Word, at: nat, lost: bool) {
    && t < |s.store.claims| && s.store.claims[t].phase.Ended? && s.store.claims[t].phase.outcome.Returned?
    && at <= |s.log| && word == WordAt(s.log, at, lost, s.store.claims[t].phase.outcome)
  }

  ghost predicate CallKnown(s: Session, i: nat)
    requires i < |s.calls|
  {
    var call := s.calls[i];
    match call.phase
    case Capturing => call.sight.None? && call.verdict.None?
    case Grounding => SawItAlone(call) && call.verdict.None?
    case Claiming(n) => SawItAlone(call) && MayClaim(call) && n == (call.verdict == Some(ApprovalRequired))
    case Waiting(t, joined, alias) => SawItAlone(call) && MayClaim(call) && FlagsFit(s, i, t, joined, alias)
    case Settling(t, joined, alias) => SawItAlone(call) && MayClaim(call) && FlagsFit(s, i, t, joined, alias)
    case Publishing(t, joined, alias, word, at, lost) =>
      SawItAlone(call) && MayClaim(call) && FlagsFit(s, i, t, joined, alias) && WordFits(s, t, word, at, lost)
    case Done(reply) => AnswerFits(s, i, reply)
    case Cancelled => call.verdict != Some(Refused)
    case _ => SawItAlone(call) && call.verdict == Some(ApprovalRequired) && call.via.None?
  }

  ghost predicate CallsKnown(s: Session) {
    forall i: nat :: i < |s.calls| ==> CallKnown(s, i)
  }

  /** The call that started a claim saw the planned screen alone, under a fitting verdict. */
  ghost predicate ClaimCalled(s: Session, c: Claim) {
    && c.origin.call < |s.calls|
    && var call := s.calls[c.origin.call];
       && call.key == c.ownerKey && call.digest == c.digest && call.planned == c.origin.planned
       && call.observedAt == c.origin.observedAt && call.via == c.origin.via
       && SawItAlone(call) && MayClaim(call) && PastClaim(call.phase)
       && c.origin.needsApproval == (call.verdict == Some(ApprovalRequired))
  }

  /** No call starts two claims. */
  ghost predicate ClaimsCalled(s: Session) {
    && (forall t :: 0 <= t < |s.store.claims| ==> ClaimCalled(s, s.store.claims[t]))
    && (forall t, u :: 0 <= t < u < |s.store.claims| ==>
          s.store.claims[t].origin.call != s.store.claims[u].origin.call)
  }

  /** A stored request is the proposal of a call that the policy held. */
  ghost predicate ApprovalCalled(s: Session, a: Approval) {
    && a.holder < |s.calls|
    && var call := s.calls[a.holder];
       && call.key == a.key && call.digest == a.digest && call.planned == a.epoch
       && call.observedAt == a.observedAt && SawItAlone(call)
       && call.verdict == Some(ApprovalRequired) && call.via.None?
  }

  ghost predicate ApprovalsCalled(s: Session) {
    forall a :: 0 <= a < |s.approvals| ==> ApprovalCalled(s, s.approvals[a])
  }

  /** While a machine client is noticed, every epoch planned before is out of date. */
  ghost predicate ClientsSeen(s: Session) {
    s.store.blockActive ==>
      && (forall i :: 0 <= i < |s.calls| && HasObserved(s.calls[i].phase) ==> s.calls[i].planned < s.store.epoch)
      && (forall t :: 0 <= t < |s.store.claims| ==> s.store.claims[t].origin.planned < s.store.epoch)
  }

  ghost predicate Inv(s: Session) {
    && Indexed(s.store)
    && Braked(s.store)
    && Retention(s.store)
    && CallsFit(s)
    && ReceiptsTrue(s.store)
    && KeysGuarded(s)
    && StartsUncovered(s.log)
    && StartsOrdered(s.log)
    && EventsFit(s)
    && EpochCounts(s)
    && Timed(s)
    && AdmissionsFit(s)
    && EmissionsAdmitted(s.log)
    && FlightsAdmitted(s)
    && ApprovalsBound(s)
    && CallsKnown(s)
    && ClaimsCalled(s)
    && ApprovalsCalled(s)
    && ReceiptsFit(s)
    && ClientsSeen(s)
  }
}
