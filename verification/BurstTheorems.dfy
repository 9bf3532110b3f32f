/** What the burst protocol promises, for every run of the runtime from boot. */
module BurstTheorems {
  import opened Options
  import opened BurstStore
  import opened BurstProtocol
  import opened BurstInvariant
  import opened BurstSteps
  import opened BurstEmissions
  import opened BurstAuthority
  import opened BurstRuntime

  /** A state some run from boot reaches. */
  ghost predicate Reachable(r: Process) { exists ms :: Reaches(BOOT, ms, r) }

  lemma ReachableInv(r: Process)
    requires Reachable(r)
    ensures ProcessInv(r)
  {
    var ms :| Reaches(BOOT, ms, r);
    BootInv();
    RunKeepsInv(BOOT, ms, r);
  }

  // ---- claim indexes --------------------------------------------------------- //

  ghost predicate IndexesAgree(st: Store, c: ClaimId)
    requires c < |st.claims|
  {
    var claim := st.claims[c];
    && (!claim.finished <==> claim.digest in st.semantic && st.semantic[claim.digest] == c)
    && (forall k :: (k in claim.keys && !claim.finished) <==> (k in st.inflight && st.inflight[k] == c))
    && (forall c' :: 0 <= c' < |st.claims| && c' != c && !claim.finished && !st.claims[c'].finished ==>
          st.claims[c'].digest != claim.digest && st.claims[c'].keys !! claim.keys)
  }

  lemma IndexedAgree(st: Store, c: ClaimId)
    requires Indexed(st) && c < |st.claims|
    ensures IndexesAgree(st, c)
  {
    forall c' | 0 <= c' < |st.claims| && c' != c && !st.claims[c].finished && !st.claims[c'].finished
      ensures st.claims[c'].keys !! st.claims[c].keys
    {
      forall k | k in st.claims[c'].keys ensures k !in st.claims[c].keys {
        assert st.inflight[k] == c';
      }
    }
  }

  /** The key index and the digest index name exactly the unfinished claims: a digest is
      indexed to a claim iff that claim is unfinished, a key iff the unfinished claim
      lists it; so two unfinished claims never share a digest or a key. */
  lemma ClaimIndexesAgree(r: Process, sid: Sid, c: ClaimId)
    requires Reachable(r) && sid in r.sessions && c < |r.sessions[sid].store.claims|
    ensures IndexesAgree(r.sessions[sid].store, c)
  {
    ReachableInv(r);
    IndexedAgree(r.sessions[sid].store, c);
  }

  /** What finishing claim `t` leaves alone. */
  ghost predicate OthersKept(st: Store, st': Store, t: ClaimId)
    requires t < |st.claims|
  {
    && (forall k :: k in st.inflight && st.inflight[k] != t ==> k in st'.inflight && st'.inflight[k] == st.inflight[k])
    && (forall d :: d in st.semantic && st.semantic[d] != t ==> d in st'.semantic && st'.semantic[d] == st.semantic[d])
    && (st.claims[t].finished ==> st'.inflight == st.inflight && st'.semantic == st.semantic)
  }

  lemma FinishKeepsOthers(st: Store, t: ClaimId, key: Key, digest: Digest, reply: Reply, retain: bool)
    requires Indexed(st) && t < |st.claims|
    ensures OthersKept(st, Finish(st, t, key, digest, reply, retain), t)
  {
  }

  lemma PublishKeepsOthers(s: Session, c: CallId)
    requires Indexed(s.store) && c < |s.calls| && CallEnabled(s, c, Publish)
    ensures OthersKept(s.store, PublishStep(s, c).store, s.calls[c].phase.claim)
  {
    var p := s.calls[c].phase;
    var completed := s.store.claims[p.claim].phase.outcome.completed;
    FinishKeepsOthers(s.store, p.claim, s.calls[c].key, s.calls[c].digest,
                      Reply(p.word, completed, p.joined, p.alias, false, false), completed > 0 && p.word != Completed);
  }

  lemma RaiseKeepsOthers(s: Session, c: CallId)
    requires Indexed(s.store) && c < |s.calls| && CallEnabled(s, c, Resume)
    ensures OthersKept(s.store, ResumeStep(s, c).store, s.calls[c].phase.claim)
  {
    var t := s.calls[c].phase.claim;
    if s.store.claims[t].phase.outcome.Raised? {
      FinishKeepsOthers(s.store.(status := StatusPaused), t, s.calls[c].key, s.calls[c].digest, Plain(Failed, 0), false);
    }
  }

  /** A late waiter that finishes a claim, by publishing its outcome or by passing on what it
      raised, takes nothing out of either index that belongs to another claim, and nothing
      at all if its claim was already finished. */
  lemma LateFinishEvictsNothing(r: Process, sid: Sid, c: CallId)
    requires Reachable(r) && sid in r.sessions && c < |r.sessions[sid].calls|
    ensures var s := r.sessions[sid];
            CallEnabled(s, c, Publish) ==> OthersKept(s.store, PublishStep(s, c).store, s.calls[c].phase.claim)
    ensures var s := r.sessions[sid];
            CallEnabled(s, c, Resume) ==> OthersKept(s.store, ResumeStep(s, c).store, s.calls[c].phase.claim)
  {
    ReachableInv(r);
    var s := r.sessions[sid];
    if CallEnabled(s, c, Publish) { PublishKeepsOthers(s, c); }
    if CallEnabled(s, c, Resume) { RaiseKeepsOthers(s, c); }
  }

  // ---- at most once per key ---------------------------------------------------- //

  lemma {:induction false} UncoveredMeansPending(log: seq<Event>, i: nat, key: Key)
    requires i < |log| && log[i].Started? && log[i].key == key && !Covered(log, key)
    ensures exists m :: i < m < |log| && log[m] == PendingStored(key)
  {
    var n := |log| - 1;
    if log[n] == PendingStored(key) {
      assert i < n < |log|;
    } else {
      UncoveredMeansPending(log[..n], i, key);
      var m :| i < m < n && log[..n][m] == PendingStored(key);
      assert log[m] == PendingStored(key);
    }
  }

  /** Two tasks are started under one key only if an approval-pending store for that key
      landed between the two starts. */
  lemma AtMostOncePerKey(r: Process, sid: Sid, i: nat, j: nat)
    requires Reachable(r) && sid in r.sessions
    requires var log := r.sessions[sid].log;
             i < j < |log| && log[i].Started? && log[j].Started? && log[i].key == log[j].key
    ensures var log := r.sessions[sid].log;
            exists m :: i < m < j && log[m] == PendingStored(log[i].key)
  {
    ReachableInv(r);
    PendingBetween(r.sessions[sid].log, i, j);
  }

  lemma PendingBetween(log: seq<Event>, i: nat, j: nat)
    requires StartsUncovered(log)
    requires i < j < |log| && log[i].Started? && log[j].Started? && log[i].key == log[j].key
    ensures exists m :: i < m < j && log[m] == PendingStored(log[i].key)
  {
    UncoveredMeansPending(log[..j], i, log[i].key);
    var m :| i < m < j && log[..j][m] == PendingStored(log[i].key);
    assert log[m] == PendingStored(log[i].key);
  }

  /** What lets a key that already has a claim or a receipt start again. */
  predicate Reopened(st: Store, key: Key, digest: Digest, approved: Option<Digest>) {
    && key in st.idempotency
    && st.idempotency[key].state == ReceiptPending
    && st.idempotency[key].digest == digest
    && approved == Some(digest)
    && key !in st.inflight
    && digest !in st.unsafe && digest !in st.semantic
  }

  lemma OpenedIffReopened(st: Store, key: Key, digest: Digest, approved: Option<Digest>, origin: Origin)
    requires IndexesInRange(st) && Seen(st, key)
    ensures ClaimOrJoin(st, key, digest, approved, origin).1.Opened? <==> Reopened(st, key, digest, approved)
  {
  }

  lemma ClaimLogs(s: Session, c: CallId)
    requires c < |s.calls| && CallEnabled(s, c, TakeClaim)
    ensures var call := s.calls[c];
            var origin := OriginOf(call, c);
            ClaimStep(s, c).log != s.log <==>
            ClaimOrJoin(s.store, call.key, call.digest, call.approved, origin).1.Opened?
  {
    assert forall e :: |s.log + [e]| == |s.log| + 1;
  }

  /** For a key that has started a task before, the claim step starts another one exactly
      when the key's receipt is again a pending one for the approved digest and neither a
      claim nor an unsafe receipt covers that digest. */
  lemma SecondStartIff(r: Process, sid: Sid, i: nat, c: CallId)
    requires Reachable(r) && sid in r.sessions && c < |r.sessions[sid].calls|
    requires r.sessions[sid].calls[c].phase.Claiming?
    requires var s := r.sessions[sid];
             i < |s.log| && s.log[i].Started? && s.log[i].key == s.calls[c].key
    ensures var s := r.sessions[sid]; var call := s.calls[c];
            && CallEnabled(s, c, TakeClaim)
            && (ClaimStep(s, c).log != s.log <==> Reopened(s.store, call.key, call.digest, call.approved))
  {
    ReachableInv(r);
    var s := r.sessions[sid];
    assert EventFits(s.store, s.log[i]);
    var call := s.calls[c];
    ClaimLogs(s, c);
    OpenedIffReopened(s.store, call.key, call.digest, call.approved,
                      OriginOf(call, c));
  }

  // ---- the semantic brake -------------------------------------------------------- //

  /** A task that ends with actions done but not completed bars its digest from its own
      start onward: no later start in the history carries that digest, under any key. */
  lemma SemanticBrake(r: Process, sid: Sid, i: nat, e: nat, j: nat)
    requires Reachable(r) && sid in r.sessions
    requires var log := r.sessions[sid].log;
             && i < |log| && e < |log| && j < |log|
             && log[i].Started? && log[e].TaskEnded? && log[e].claim == log[i].claim
             && Unsafe(log[e].outcome)
             && i < j && log[j].Started?
    ensures r.sessions[sid].log[j].digest != r.sessions[sid].log[i].digest
  {
    ReachableInv(r);
    UnsafeBars(r.sessions[sid], i, e, j);
  }

  lemma UnsafeBars(s: Session, i: nat, e: nat, j: nat)
    requires Braked(s.store) && EventsFit(s) && StartsOrdered(s.log)
    requires i < j < |s.log| && e < |s.log|
    requires s.log[i].Started? && s.log[e].TaskEnded? && s.log[e].claim == s.log[i].claim
    requires Unsafe(s.log[e].outcome) && s.log[j].Started?
    ensures s.log[j].digest != s.log[i].digest
  {
    assert EventFits(s.store, s.log[i]) && EventFits(s.store, s.log[e]) && EventFits(s.store, s.log[j]);
    assert s.log[i].claim < s.log[j].claim;
    assert EndedUnsafe(s.store.claims[s.log[i].claim]);
  }

  /** The same step that drops the live claim of an unsafe task retains its receipt, so
      the digest is covered before, during and after it. */
  lemma BrakeHasNoGap(r: Process, sid: Sid, c: ClaimId)
    requires Reachable(r) && sid in r.sessions && c < |r.sessions[sid].store.claims|
    requires EndedUnsafe(r.sessions[sid].store.claims[c])
    ensures var st := r.sessions[sid].store; var d := st.claims[c].digest;
            (d in st.semantic && st.semantic[d] == c) || d in st.unsafe
  {
    ReachableInv(r);
    var st := r.sessions[sid].store;
    assert Indexed(st) && Braked(st);
  }

  // ---- receipts ---------------------------------------------------------------------- //

  /** Whatever a completed receipt or a retained unsafe one replays is the ending of a
      burst that was run for exactly that digest. */
  lemma ReplaysAreTrue(r: Process, sid: Sid, key: Key)
    requires Reachable(r) && sid in r.sessions
    ensures var st := r.sessions[sid].store;
            key in st.idempotency && st.idempotency[key].state == ReceiptCompleted ==>
              TrueReply(st, st.idempotency[key].digest, st.idempotency[key].reply)
    ensures var st := r.sessions[sid].store;
            forall d :: d in st.unsafe ==> TrueReply(st, d, st.unsafe[d]) && st.unsafe[d].status != Completed
  {
    ReachableInv(r);
  }

  // ---- authority ------------------------------------------------------------------ //

  /** Epochs never decrease, latches never clear, and the history only grows, whatever
      continues a run. */
  lemma NothingIsUndone(r: Process, ms: seq<Move>, r': Process, sid: Sid)
    requires Reaches(r, ms, r') && sid in r.sessions
    ensures sid in r'.sessions
    ensures r.sessions[sid].log <= r'.sessions[sid].log
    ensures r.sessions[sid].store.epoch <= r'.sessions[sid].store.epoch
    ensures r.sessions[sid].store.stopped ==> r'.sessions[sid].store.stopped
  {
    RunProgress(r, ms, r');
  }

  /** No bump lies between the observation of a planned epoch and a later moment at which
      the epoch is still the planned one. */
  lemma NoBumpBetween(log: seq<Event>, planned: int, observedAt: nat, m: nat)
    requires observedAt <= m <= |log| && PlannedAt(log, planned, observedAt) && Bumps(log[..m]) == planned
    ensures forall b :: observedAt <= b < m ==> !IsBump(log[b])
  {
    var past := log[..m];
    assert past[..observedAt] == log[..observedAt];
    BumpsSplit(past, observedAt);
    forall b | observedAt <= b < m ensures !IsBump(log[b]) {
      assert log[b] == past[b];
    }
  }

  /** Every admission of a task happens with the latch never set before it, no other
      client, the epoch its claim planned against, and no bump of any kind since the
      planning call compared that epoch with the session's. */
  ghost predicate CleanAdmission(s: Session, a: nat)
    requires a < |s.log| && s.log[a].Admitted?
  {
    var c := s.log[a].claim;
    && c < |s.store.claims|
    && Latched !in s.log[..a] && s.log[a].others == 0
    && Bumps(s.log[..a]) == s.store.claims[c].origin.planned
    && s.store.claims[c].origin.observedAt <= a
    && !BumpIn(s.log, s.store.claims[c].origin.observedAt, a)
  }

  /** A bump at some place from `i` up to but not including `j`. */
  ghost predicate BumpIn(log: seq<Event>, i: nat, j: nat) {
    exists b :: i <= b < j && b < |log| && IsBump(log[b])
  }

  lemma CleanFromFit(s: Session, a: nat)
    requires AdmissionsFit(s) && Timed(s) && a < |s.log| && s.log[a].Admitted?
    ensures CleanAdmission(s, a)
  {
    assert AdmissionFits(s, a);
    var o := s.store.claims[s.log[a].claim].origin;
    NoBumpBetween(s.log, o.planned, o.observedAt, a);
  }

  /** After any bump no task planned before it is admitted again, whatever joins it. */
  lemma NoResurrection(r: Process, sid: Sid, a: nat)
    requires Reachable(r) && sid in r.sessions
    requires a < |r.sessions[sid].log| && r.sessions[sid].log[a].Admitted?
    ensures CleanAdmission(r.sessions[sid], a)
  {
    ReachableInv(r);
    CleanFromFit(r.sessions[sid], a);
  }

  lemma OwnAdmissionUnique(log: seq<Event>, a: nat, a': nat, m: nat, t: ClaimId)
    requires OwnAdmission(log, a, m, t) && OwnAdmission(log, a', m, t)
    ensures a == a'
  {
  }

  /** Where the bumps before a report lie, if its admission was clean. */
  lemma BumpsAfterAdmission(s: Session, a: nat, m: nat, from: nat)
    requires a < m <= |s.log| && s.log[a].Admitted? && from <= a && !BumpIn(s.log, from, a)
    ensures BumpIn(s.log, from, m) <==> BumpIn(s.log, a + 1, m)
  {
    if BumpIn(s.log, from, m) {
      var b :| from <= b < m && b < |s.log| && IsBump(s.log[b]);
      assert b != a;
      assert a + 1 <= b;
    }
    if BumpIn(s.log, a + 1, m) {
      var b :| a + 1 <= b < m && b < |s.log| && IsBump(s.log[b]);
      assert from <= b;
    }
  }

  /** Every HID report belongs to the last admission of its task, that admission was clean,
      and the report follows a bump made since its claim's observation exactly when the bump
      landed while the admitted micro-action was under way. */
  lemma EmissionAfterBumpIff(r: Process, sid: Sid, m: nat) returns (a: nat)
    requires Reachable(r) && sid in r.sessions
    requires m < |r.sessions[sid].log| && r.sessions[sid].log[m].Emitted?
    ensures var s := r.sessions[sid]; var t := s.log[m].claim;
            && OwnAdmission(s.log, a, m, t) && CleanAdmission(s, a)
            && (BumpIn(s.log, s.store.claims[t].origin.observedAt, m) <==> BumpIn(s.log, a + 1, m))
  {
    ReachableInv(r);
    a := AdmissionOf(r.sessions[sid], m);
  }

  lemma AdmissionOf(s: Session, m: nat) returns (a: nat)
    requires AdmissionsFit(s) && Timed(s) && EmissionsAdmitted(s.log) && m < |s.log| && s.log[m].Emitted?
    ensures var t := s.log[m].claim;
            && OwnAdmission(s.log, a, m, t) && CleanAdmission(s, a)
            && (BumpIn(s.log, s.store.claims[t].origin.observedAt, m) <==> BumpIn(s.log, a + 1, m))
  {
    var t := s.log[m].claim;
    assert HasAdmission(s.log, m, t);
    a :| OwnAdmission(s.log, a, m, t);
    CleanFromFit(s, a);
    BumpsAfterAdmission(s, a, m, s.store.claims[t].origin.observedAt);
  }

  /** Report `m` is the first of the micro-action admitted at `a`: the call into the backend. */
  ghost predicate FirstReport(log: seq<Event>, a: nat, m: nat, t: ClaimId) {
    && m < |log| && OwnAdmission(log, a, m, t) && log[m] == Emitted(t)
    && forall k :: a < k < m ==> log[k] != Emitted(t)
  }

  /** A micro-action reaches the backend after a bump made since its claim's observation
      exactly when a screenshot was awaited between its gate and the backend call, as before
      a `wait_for_change`, and the bump landed in that pause. */
  lemma LateStartIff(r: Process, sid: Sid, a: nat, m: nat, t: ClaimId)
    requires Reachable(r) && sid in r.sessions && FirstReport(r.sessions[sid].log, a, m, t)
    ensures var s := r.sessions[sid];
            && t < |s.store.claims|
            && (BumpIn(s.log, s.store.claims[t].origin.observedAt, m) <==>
                  s.log[a].paused && BumpIn(s.log, a + 1, m))
  {
    ReachableInv(r);
    var s := r.sessions[sid];
    var a' := AdmissionOf(s, m);
    OwnAdmissionUnique(s.log, a, a', m, t);
    if !s.log[a].paused {
      assert s.log[a + 1] == Emitted(t);
      assert m == a + 1;
    }
  }

  /** After a bump a task gets at most one more micro-action through: all its later reports
      belong to one admission, which the bump found under way. */
  lemma OneActionAfterBump(r: Process, sid: Sid, b: nat, m: nat, m': nat) returns (a: nat)
    requires Reachable(r) && sid in r.sessions
    requires var log := r.sessions[sid].log;
             && b < m <= m' < |log| && IsBump(log[b])
             && log[m].Emitted? && log[m'] == log[m]
             && log[m].claim < |r.sessions[sid].store.claims|
             && r.sessions[sid].store.claims[log[m].claim].origin.observedAt <= b
    ensures var log := r.sessions[sid].log; var t := log[m].claim;
            a < b && OwnAdmission(log, a, m, t) && OwnAdmission(log, a, m', t)
  {
    ReachableInv(r);
    var s := r.sessions[sid];
    var t := s.log[m].claim;
    var o := s.store.claims[t].origin.observedAt;
    a := AdmissionOf(s, m');
    assert b < a ==> BumpIn(s.log, o, a);
    assert a < b;
    assert forall k :: a < k < m ==> !(s.log[k].Admitted? && s.log[k].claim == t);
  }

  /** A bump lets at most one micro-action of a task start after it, and none unless it landed
      between that one's gate and its backend call. */
  lemma OneStartAfterBump(r: Process, sid: Sid, b: nat, a: nat, m: nat, a': nat, m': nat, t: ClaimId)
    requires Reachable(r) && sid in r.sessions
    requires var log := r.sessions[sid].log;
             && FirstReport(log, a, m, t) && FirstReport(log, a', m', t)
             && b < m && b < m' && IsBump(log[b]) && t < |r.sessions[sid].store.claims|
             && r.sessions[sid].store.claims[t].origin.observedAt <= b
    ensures m == m' && a < b && r.sessions[sid].log[a].paused
  {
    var log := r.sessions[sid].log;
    var low, high := if m <= m' then m else m', if m <= m' then m' else m;
    var own := OneActionAfterBump(r, sid, b, low, high);
    OwnAdmissionUnique(log, own, a, m, t);
    OwnAdmissionUnique(log, own, a', m', t);
    LateStartIff(r, sid, a, m, t);
  }

  /** Admission `a` of a claim that needed approval, against the approval it ran under. */
  ghost predicate BoundAdmission(s: Session, a: nat)
    requires a < |s.log| && s.log[a].Admitted? && s.log[a].claim < |s.store.claims|
  {
    var claim := s.store.claims[s.log[a].claim];
    && claim.origin.via.Some? && claim.origin.via.value < |s.approvals|
    && var p := s.approvals[claim.origin.via.value];
       && p.digest == claim.digest && p.key == claim.ownerKey
       && p.epoch == Bumps(s.log[..a])
       && p.observedAt <= a && !BumpIn(s.log, p.observedAt, a)
  }

  lemma AuthorisedAdmission(s: Session, a: nat)
    requires AdmissionsFit(s) && Timed(s) && ApprovalsBound(s)
    requires a < |s.log| && s.log[a].Admitted? && s.log[a].claim < |s.store.claims|
    requires s.store.claims[s.log[a].claim].origin.needsApproval
    ensures BoundAdmission(s, a)
  {
    var claim := s.store.claims[s.log[a].claim];
    assert AdmissionFits(s, a) && ClaimAuthorised(s, claim);
    var p := s.approvals[claim.origin.via.value];
    NoBumpBetween(s.log, p.epoch, p.observedAt, a);
  }

  /** A burst the policy wanted approved runs only under a stored approval for exactly its
      digest and key.  Each of its HID reports belongs to a micro-action admitted at the
      recorded epoch with no abort, panic or revocation since the proposal's observation;
      one that lies before the report landed while that micro-action was under way. */
  lemma ApprovalIsBound(r: Process, sid: Sid, m: nat) returns (a: nat)
    requires Reachable(r) && sid in r.sessions
    requires var s := r.sessions[sid];
             m < |s.log| && s.log[m].Emitted? && s.log[m].claim < |s.store.claims| &&
             s.store.claims[s.log[m].claim].origin.needsApproval
    ensures var s := r.sessions[sid]; var t := s.log[m].claim;
            && OwnAdmission(s.log, a, m, t) && BoundAdmission(s, a)
            && (BumpIn(s.log, s.approvals[s.store.claims[t].origin.via.value].observedAt, m) <==>
                  BumpIn(s.log, a + 1, m))
  {
    ReachableInv(r);
    var s := r.sessions[sid];
    a := AdmissionOf(s, m);
    AuthorisedAdmission(s, a);
    BumpsAfterAdmission(s, a, m, s.approvals[s.store.claims[s.log[m].claim].origin.via.value].observedAt);
  }

  // ---- panic ---------------------------------------------------------------------- //

  /** The idle event is set exactly when no task may emit HID. */
  lemma IdleIffNoneActive(r: Process)
    requires Reachable(r)
    ensures r.idle <==> forall sid: Sid, t: ClaimId :: !TaskRuns(r.sessions, sid, t)
  {
    ReachableInv(r);
    if !r.idle {
      var x :| x in r.active;
      assert x == (x.0, x.1) && TaskRuns(r.sessions, x.0, x.1);
    }
  }

  /** A latched session with no micro-action under way. */
  ghost predicate Drained(s: Session) {
    s.store.stopped && forall t: ClaimId :: !InFlight(s.store, t)
  }

  /** No HID report lies in the log from `n` on. */
  ghost predicate SilentFrom(log: seq<Event>, n: nat) {
    forall i :: n <= i < |log| ==> !log[i].Emitted?
  }

  lemma TaskKeepsDrained(s: Session, t: ClaimId, m: TaskMove)
    requires Drained(s) && t < |s.store.claims| && TaskEnabled(s, t, m)
    ensures Drained(TaskStep(s, t, m)) && s.log <= TaskStep(s, t, m).log
    ensures SilentFrom(TaskStep(s, t, m).log, |s.log|)
  {
    assert !InFlight(s.store, t);
    var s' := TaskStep(s, t, m);
    assert forall u: ClaimId :: u != t && InFlight(s'.store, u) ==> InFlight(s.store, u);
  }

  lemma StepKeepsDrained(s: Session, l: Label)
    requires Drained(s) && Enabled(s, l)
    ensures Drained(Step(s, l)) && s.log <= Step(s, l).log && SilentFrom(Step(s, l).log, |s.log|)
  {
    if l.ByTask? {
      TaskKeepsDrained(s, l.claim, l.step);
    } else {
      StepProgress(s, l);
      OnlyTasksEmit(s, l);
      OutsidePhases(s, l);
      assert forall t: ClaimId :: InFlight(Step(s, l).store, t) ==> InFlight(s.store, t);
    }
  }

  lemma NextKeepsDrained(r: Process, m: Move, sid: Sid)
    requires Allowed(r, m) && sid in r.sessions && Drained(r.sessions[sid])
    ensures var r' := Next(r, m);
            && sid in r'.sessions && Drained(r'.sessions[sid])
            && r.sessions[sid].log <= r'.sessions[sid].log
            && SilentFrom(r'.sessions[sid].log, |r.sessions[sid].log|)
  {
    match m
    case InSession(i, l) => if i == sid { StepKeepsDrained(r.sessions[sid], l); }
    case ExternalCursor => StepKeepsDrained(r.sessions[sid], ByWorld(HumanCursor));
    case LatchOne(_, i) => if i == sid { StepKeepsDrained(r.sessions[sid], ByWorld(PanicLatch)); }
    case _ =>
  }

  lemma SilenceJoins(log: seq<Event>, log1: seq<Event>, log2: seq<Event>)
    requires log <= log1 <= log2 && SilentFrom(log1, |log|) && SilentFrom(log2, |log1|)
    ensures SilentFrom(log2, |log|)
  {
    forall i | |log| <= i < |log2|
      ensures !log2[i].Emitted?
    {
      if i < |log1| { assert log2[i] == log1[i]; }
    }
  }

  /** A drained session stays drained and silent, whatever continues the run. */
  lemma {:induction false} RunKeepsDrained(r: Process, ms: seq<Move>, r': Process, sid: Sid)
    requires Reaches(r, ms, r') && sid in r.sessions && Drained(r.sessions[sid])
    ensures sid in r'.sessions && Drained(r'.sessions[sid])
    ensures r.sessions[sid].log <= r'.sessions[sid].log
    ensures SilentFrom(r'.sessions[sid].log, |r.sessions[sid].log|)
    decreases |ms|
  {
    if ms != [] {
      var r1 := Next(r, ms[0]);
      NextKeepsDrained(r, ms[0], sid);
      RunKeepsDrained(r1, ms[1..], r', sid);
      SilenceJoins(r.sessions[sid].log, r1.sessions[sid].log, r'.sessions[sid].log);
    }
  }

  /** When panic reports success, no burst task is running anywhere, every session that
      existed at the call is latched, and no continuation of the run ever emits another HID
      report for those sessions: an action admitted before the latch has been waited for. */
  lemma PanicQuiescence(r: Process, p: PanicId, ms: seq<Move>, r': Process, sid: Sid)
    requires Reachable(r) && Allowed(r, ReportPanic(p))
    requires Next(r, ReportPanic(p)).panics[p].phase == Reported(true)
    requires Reaches(Next(r, ReportPanic(p)), ms, r')
    requires sid in r.panics[p].existed
    ensures forall i: Sid, t: ClaimId :: !TaskRuns(r.sessions, i, t)
    ensures sid in r.sessions && r.sessions[sid].store.stopped
    ensures sid in r'.sessions && r'.sessions[sid].store.stopped
    ensures r.sessions[sid].log <= r'.sessions[sid].log
    ensures SilentFrom(r'.sessions[sid].log, |r.sessions[sid].log|)
  {
    PanicReportIff(r, p);
    PanicOf(r, p);
    forall t: ClaimId ensures !InFlight(r.sessions[sid].store, t) {
      assert !TaskRuns(r.sessions, sid, t);
    }
    RunKeepsDrained(Next(r, ReportPanic(p)), ms, r', sid);
  }

  lemma PanicOf(r: Process, p: PanicId)
    requires Reachable(r) && p < |r.panics|
    ensures PanicFits(r.sessions, r.panics[p])
  {
    ReachableInv(r);
  }

  /** Panic reports success exactly when its wait found the event set and no burst task has
      begun since, in any session. */
  lemma PanicReportIff(r: Process, p: PanicId)
    requires Reachable(r) && Allowed(r, ReportPanic(p))
    ensures Next(r, ReportPanic(p)).panics[p].phase.Reported?
    ensures Next(r, ReportPanic(p)).panics[p].phase.ok <==>
            r.panics[p].phase == Waited(true) && forall i: Sid, t: ClaimId :: !TaskRuns(r.sessions, i, t)
  {
    IdleIffNoneActive(r);
    IdleIffEmpty(r);
  }

  lemma IdleIffEmpty(r: Process)
    requires Reachable(r)
    ensures r.idle <==> r.active == {}
  {
    ReachableInv(r);
  }

  // ---- panic from its beginning ------------------------------------------------------------- //

  /** What a panic recorded does not change, and a wait that has ended stays as it ended until it
      is reported. */
  ghost predicate PanicKept(a: Panic, b: Panic) {
    && b.existed == a.existed
    && (a.phase.Waited? ==> b.phase == a.phase || b.phase.Reported?)
    && (a.phase.Reported? ==> b.phase.Reported?)
  }

  lemma NextKeepsPanic(r: Process, m: Move, p: PanicId)
    requires Allowed(r, m) && p < |r.panics|
    ensures p < |Next(r, m).panics| && PanicKept(r.panics[p], Next(r, m).panics[p])
  {
  }

  lemma {:induction false} RunKeepsPanic(r: Process, ms: seq<Move>, r': Process, p: PanicId)
    requires Reaches(r, ms, r') && p < |r.panics|
    ensures p < |r'.panics| && PanicKept(r.panics[p], r'.panics[p])
    decreases |ms|
  {
    if ms != [] {
      NextKeepsPanic(r, ms[0], p);
      RunKeepsPanic(Next(r, ms[0]), ms[1..], r', p);
    }
  }

  /** From end to end: a panic that reports success has latched every session that existed when it
      began, and none of them ever emits again. */
  lemma PanicStopsEverything(r0: Process, before: seq<Move>, r: Process, after: seq<Move>, r': Process, sid: Sid)
    requires Reachable(r0) && Reachable(r) && sid in r0.sessions
    requires Reaches(Next(r0, BeginPanic), before, r)
    requires Allowed(r, ReportPanic(|r0.panics|))
    requires Next(r, ReportPanic(|r0.panics|)).panics[|r0.panics|].phase == Reported(true)
    requires Reaches(Next(r, ReportPanic(|r0.panics|)), after, r')
    ensures sid in r'.sessions && r'.sessions[sid].store.stopped
    ensures sid in r.sessions && SilentFrom(r'.sessions[sid].log, |r.sessions[sid].log|)
  {
    RunKeepsPanic(Next(r0, BeginPanic), before, r, |r0.panics|);
    PanicQuiescence(r, |r0.panics|, after, r', sid);
  }

  /** A panic whose wait timed out never reports success; one whose wait found the event set does
      so exactly if no burst task runs when it reports. */
  lemma TimedOutPanicIff(r: Process, p: PanicId, quiesced: bool, ms: seq<Move>, r': Process)
    requires Reachable(r') && Allowed(r, AwaitIdle(p, quiesced))
    requires Reaches(Next(r, AwaitIdle(p, quiesced)), ms, r') && Allowed(r', ReportPanic(p))
    ensures Next(r', ReportPanic(p)).panics[p].phase
         == Reported(quiesced && forall i: Sid, t: ClaimId :: !TaskRuns(r'.sessions, i, t))
  {
    RunKeepsPanic(Next(r, AwaitIdle(p, quiesced)), ms, r', p);
    PanicReportIff(r', p);
  }
}
