/** Preservation of the properties that speak about the history: who may start, and
    under which epoch. */
module BurstHistory {
  import opened Options
  import opened BurstStore
  import opened BurstProtocol
  import opened BurstInvariant
  import opened BurstSteps

  // ---- keys --------------------------------------------------------------- //

  ghost predicate KeepsGuards(st: Store, st': Store) {
    forall k :: Guarded(st, k) ==> Guarded(st', k)
  }

  predicate Quiet(e: Event) { !e.Started? && !e.PendingStored? }

  lemma {:induction false} CoveredQuiet(log: seq<Event>, d: seq<Event>, key: Key)
    requires forall i :: 0 <= i < |d| ==> Quiet(d[i])
    ensures Covered(log + d, key) == Covered(log, key)
  {
    if d == [] {
      assert log + d == log;
    } else {
      var front := d[..|d| - 1];
      CoveredQuiet(log, front, key);
      assert log + d == (log + front) + [d[|d| - 1]];
      CoveredAppend(log + front, d[|d| - 1], key);
    }
  }

  /** A step that adds only quiet events and keeps every guard keeps the key property. */
  lemma QuietKeepsKeys(s: Session, s': Session, d: seq<Event>)
    requires KeysGuarded(s) && KeepsGuards(s.store, s'.store)
    requires s'.log == s.log + d && forall i :: 0 <= i < |d| ==> Quiet(d[i])
    ensures KeysGuarded(s')
  {
    forall k | Covered(s'.log, k) ensures Guarded(s'.store, k) {
      CoveredQuiet(s.log, d, k);
    }
  }

  lemma FinishKeepsGuards(st: Store, c: ClaimId, key: Key, digest: Digest, reply: Reply, retain: bool)
    requires Indexed(st) && c < |st.claims|
    ensures KeepsGuards(st, Finish(st, c, key, digest, reply, retain))
  {
  }

  lemma RecordKeepsGuards(st: Store, key: Key, digest: Digest)
    ensures KeepsGuards(st, RecordSemantic(st, key, digest))
  {
  }

  /** A claim is opened only for a key that is not guarded. */
  lemma OpenedUnguarded(st: Store, key: Key, digest: Digest, approved: Option<Digest>, origin: Origin)
    requires IndexesInRange(st)
    ensures var r := ClaimOrJoin(st, key, digest, approved, origin);
            KeepsGuards(st, r.0) && (r.1.Opened? ==> !Guarded(st, key) && Guarded(r.0, key))
  {
  }

  lemma ClaimKeepsKeys(s: Session, c: CallId)
    requires KeysGuarded(s) && c < |s.calls| && CallEnabled(s, c, TakeClaim)
    ensures KeysGuarded(ClaimStep(s, c))
  {
    var s' := ClaimStep(s, c);
    var call := s.calls[c];
    var origin := OriginOf(call, c);
    var r := ClaimOrJoin(s.store, call.key, call.digest, call.approved, origin);
    OpenedUnguarded(s.store, call.key, call.digest, call.approved, origin);
    if r.1.Opened? {
      var e := Started(r.1.claim, call.key, call.digest);
      forall k | Covered(s'.log, k) ensures Guarded(s'.store, k) {
        CoveredAppend(s.log, e, k);
      }
    } else {
      QuietKeepsKeys(s, s', []);
    }
  }

  lemma HoldKeepsKeys(s: Session, c: CallId)
    requires KeysGuarded(s) && c < |s.calls|
    ensures KeysGuarded(HoldStep(s, c))
  {
    var s' := HoldStep(s, c);
    forall k | Covered(s'.log, k) ensures Guarded(s'.store, k) {
      CoveredAppend(s.log, PendingStored(s.calls[c].key), k);
    }
  }

  /** The events a step adds. */
  function Delta(s: Session, s': Session): seq<Event>
    requires s.log <= s'.log
  {
    s'.log[|s.log|..]
  }

  lemma FinishKeepsKeys(s: Session, c: CallId, t: ClaimId, reply: Reply, retain: bool)
    requires Indexed(s.store) && KeysGuarded(s) && c < |s.calls| && t < |s.store.claims|
    ensures KeysGuarded(FinishStep(s, c, t, reply, retain))
  {
    FinishKeepsGuards(s.store, t, s.calls[c].key, s.calls[c].digest, reply, retain);
    QuietKeepsKeys(s, FinishStep(s, c, t, reply, retain), []);
  }

  /** The moves that neither claim, hold nor publish. */
  predicate Passive(m: CallMove) {
    m.Observe? || m.Classify? || m.SaveApproval? || m.MarkNeedsApproval? || m.Probe? || m.Capture? || m.Cancel?
  }

  lemma PassiveFrame(s: Session, c: CallId, m: CallMove)
    requires c < |s.calls| && CallEnabled(s, c, m) && Passive(m)
    ensures var s' := CallStep(s, c, m);
            s.log <= s'.log && SameClaims(s.store, s'.store) && s'.store.idempotency == s.store.idempotency
    ensures forall i :: 0 <= i < |Delta(s, CallStep(s, c, m))| ==> Delta(s, CallStep(s, c, m))[i] == Revoked
  {
  }

  lemma CallKeepsKeys(s: Session, c: CallId, m: CallMove)
    requires Indexed(s.store) && KeysGuarded(s) && c < |s.calls| && CallEnabled(s, c, m)
    ensures KeysGuarded(CallStep(s, c, m))
  {
    var p := s.calls[c].phase;
    match m
    case TakeClaim => ClaimKeepsKeys(s, c);
    case HoldReply => HoldKeepsKeys(s, c);
    case Resume =>
      var paused := s.(store := s.store.(status := StatusPaused));
      if s.store.claims[p.claim].phase.outcome.Raised? {
        FinishKeepsKeys(paused, c, p.claim, Plain(Failed, 0), false);
      }
    case Publish =>
      var completed := s.store.claims[p.claim].phase.outcome.completed;
      FinishKeepsKeys(s, c, p.claim, Reply(p.word, completed, p.joined, p.alias, false, false),
                      completed > 0 && p.word != Completed);
    case _ =>
      PassiveFrame(s, c, m);
      QuietKeepsKeys(s, CallStep(s, c, m), Delta(s, CallStep(s, c, m)));
  }

  lemma EnterKeepsGuards(s: Session, req: Request, approved: Option<Digest>, via: Option<ApprovalId>)
    ensures KeepsGuards(s.store, Enter(s, req, approved, via).store)
    ensures Enter(s, req, approved, via).log == s.log
  {
    RecordKeepsGuards(s.store, CallerKey(req), req.digest);
  }

  lemma WorldKeepsGuards(s: Session, e: WorldMove)
    requires WorldEnabled(s, e)
    ensures KeepsGuards(s.store, WorldStep(s, e).store)
  {
  }

  lemma WorldIsQuiet(s: Session, e: WorldMove)
    requires WorldEnabled(s, e)
    ensures s.log <= WorldStep(s, e).log
    ensures forall i :: 0 <= i < |Delta(s, WorldStep(s, e))| ==> Quiet(Delta(s, WorldStep(s, e))[i])
  {
  }

  lemma TaskIsQuiet(s: Session, t: ClaimId, m: TaskMove)
    requires t < |s.store.claims| && TaskEnabled(s, t, m)
    ensures s.log <= TaskStep(s, t, m).log
    ensures KeepsGuards(s.store, TaskStep(s, t, m).store)
    ensures forall i :: 0 <= i < |Delta(s, TaskStep(s, t, m))| ==> Quiet(Delta(s, TaskStep(s, t, m))[i])
  {
  }

  lemma StepKeepsKeys(s: Session, l: Label)
    requires Indexed(s.store) && KeysGuarded(s) && Enabled(s, l)
    ensures KeysGuarded(Step(s, l))
  {
    var s' := Step(s, l);
    match l
    case Arrive(req) => EnterKeepsGuards(s, req, None, None); QuietKeepsKeys(s, s', []);
    case Approve(a) =>
      EnterKeepsGuards(s, ApprovedRequest(s.approvals[a]), Some(s.approvals[a].digest), Some(a));
      QuietKeepsKeys(s, s', []);
    case ByCall(c, m) => CallKeepsKeys(s, c, m);
    case ByTask(t, m) => TaskIsQuiet(s, t, m); QuietKeepsKeys(s, s', Delta(s, s'));
    case ByWorld(e) => WorldKeepsGuards(s, e); WorldIsQuiet(s, e); QuietKeepsKeys(s, s', Delta(s, s'));
  }

  // ---- starts --------------------------------------------------------------- //

  lemma EventStaysFit(st: Store, st': Store, e: Event)
    requires EventFits(st, e) && ClaimsGrow(st, st') && forall k :: Seen(st, k) ==> Seen(st', k)
    ensures EventFits(st', e)
  {
  }

  lemma NewEventsFit(s: Session, s': Session)
    requires EventsFit(s) && Progress(s, s')
    requires forall i :: |s.log| <= i < |s'.log| ==> EventFits(s'.store, s'.log[i])
    ensures EventsFit(s')
  {
    forall j | 0 <= j < |s'.log| ensures EventFits(s'.store, s'.log[j]) {
      if j < |s.log| {
        assert s'.log[j] == s.log[j];
        EventStaysFit(s.store, s'.store, s.log[j]);
      }
    }
  }

  ghost predicate StartsFit(s: Session) {
    StartsUncovered(s.log) && StartsOrdered(s.log) && EventsFit(s)
  }

  lemma NoNewStarts(log: seq<Event>, log': seq<Event>)
    requires StartsUncovered(log) && StartsOrdered(log) && log <= log'
    requires forall i :: |log| <= i < |log'| ==> !log'[i].Started?
    ensures StartsUncovered(log') && StartsOrdered(log')
  {
    forall j | 0 <= j < |log'| && log'[j].Started? ensures !Covered(log'[..j], log'[j].key) {
      assert j < |log| && log'[j] == log[j] && log'[..j] == log[..j];
    }
  }

  lemma OneNewStart(log: seq<Event>, e: Event)
    requires StartsUncovered(log) && StartsOrdered(log) && e.Started? && !Covered(log, e.key)
    requires forall i :: 0 <= i < |log| && log[i].Started? ==> log[i].claim < e.claim
    ensures StartsUncovered(log + [e]) && StartsOrdered(log + [e])
  {
    var log' := log + [e];
    forall j | 0 <= j < |log'| && log'[j].Started? ensures !Covered(log'[..j], log'[j].key) {
      if j < |log| {
        assert log'[j] == log[j] && log'[..j] == log[..j];
      } else {
        assert log'[..j] == log;
      }
    }
  }

  lemma ClaimKeepsStarts(s: Session, c: CallId)
    requires StartsFit(s) && KeysGuarded(s) && c < |s.calls| && CallEnabled(s, c, TakeClaim)
    ensures StartsFit(ClaimStep(s, c))
  {
    var s' := ClaimStep(s, c);
    var call := s.calls[c];
    var origin := OriginOf(call, c);
    var r := ClaimOrJoin(s.store, call.key, call.digest, call.approved, origin);
    OpenedUnguarded(s.store, call.key, call.digest, call.approved, origin);
    ClaimProgress(s, c);
    NewEventsFit(s, s');
    if r.1.Opened? {
      assert !Covered(s.log, call.key);
      forall i | 0 <= i < |s.log| && s.log[i].Started? ensures s.log[i].claim < r.1.claim {
        assert EventFits(s.store, s.log[i]);
      }
      OneNewStart(s.log, Started(r.1.claim, call.key, call.digest));
    } else {
      NoNewStarts(s.log, s'.log);
    }
  }

  lemma OnlyClaimStarts(s: Session, l: Label)
    requires Enabled(s, l) && !(l.ByCall? && l.move.TakeClaim?)
    ensures s.log <= Step(s, l).log
    ensures forall i :: |s.log| <= i < |Step(s, l).log| ==> !Step(s, l).log[i].Started?
  {
    match l
    case Arrive(req) => EnterKeepsGuards(s, req, None, None);
    case Approve(a) =>
      EnterKeepsGuards(s, ApprovedRequest(s.approvals[a]), Some(s.approvals[a].digest), Some(a));
    case ByCall(c, m) =>
      if Passive(m) { PassiveFrame(s, c, m); }
      var s' := CallStep(s, c, m);
      assert forall i :: |s.log| <= i < |s'.log| ==> s'.log[i] == Delta(s, s')[i - |s.log|];
    case ByTask(t, m) =>
      TaskIsQuiet(s, t, m);
      var s' := TaskStep(s, t, m);
      assert forall i :: |s.log| <= i < |s'.log| ==> s'.log[i] == Delta(s, s')[i - |s.log|];
    case ByWorld(e) =>
      WorldIsQuiet(s, e);
      var s' := WorldStep(s, e);
      assert forall i :: |s.log| <= i < |s'.log| ==> s'.log[i] == Delta(s, s')[i - |s.log|];
  }

  /** A step other than a claim adds events that fit. */
  lemma DeltaFits(s: Session, l: Label)
    requires Enabled(s, l) && !(l.ByCall? && l.move.TakeClaim?)
    ensures s.log <= Step(s, l).log
    ensures forall i :: |s.log| <= i < |Step(s, l).log| ==> EventFits(Step(s, l).store, Step(s, l).log[i])
  {
    OnlyClaimStarts(s, l);
    var s' := Step(s, l);
    if l.ByTask? {
      TaskDeltaFits(s, l.claim, l.step);
    } else {
      forall i | |s.log| <= i < |s'.log| ensures EventFits(s'.store, s'.log[i]) {
        OnlyTasksEnd(s, l);
      }
    }
  }

  lemma TaskDeltaFits(s: Session, t: ClaimId, m: TaskMove)
    requires t < |s.store.claims| && TaskEnabled(s, t, m)
    ensures var s' := TaskStep(s, t, m);
            s.log <= s'.log && forall i :: |s.log| <= i < |s'.log| ==> EventFits(s'.store, s'.log[i])
  {
  }

  lemma OnlyTasksEnd(s: Session, l: Label)
    requires Enabled(s, l) && !l.ByTask?
    ensures s.log <= Step(s, l).log
    ensures forall i :: |s.log| <= i < |Step(s, l).log| ==> !Step(s, l).log[i].TaskEnded?
  {
    match l
    case Arrive(req) => EnterKeepsGuards(s, req, None, None);
    case Approve(a) =>
      EnterKeepsGuards(s, ApprovedRequest(s.approvals[a]), Some(s.approvals[a].digest), Some(a));
    case ByCall(c, m) =>
      var s' := CallStep(s, c, m);
      if Passive(m) { PassiveFrame(s, c, m); }
      if m.TakeClaim? { ClaimProgress(s, c); }
      assert forall i :: |s.log| <= i < |s'.log| ==> s'.log[i] == Delta(s, s')[i - |s.log|];
    case ByWorld(e) => WorldProgress(s, e);
  }

  lemma StepKeepsStarts(s: Session, l: Label)
    requires StartsFit(s) && KeysGuarded(s) && Enabled(s, l)
    ensures StartsFit(Step(s, l))
  {
    if l.ByCall? && l.move.TakeClaim? {
      ClaimKeepsStarts(s, l.call);
    } else {
      OnlyClaimStarts(s, l);
      DeltaFits(s, l);
      StepProgress(s, l);
      NewEventsFit(s, Step(s, l));
      NoNewStarts(s.log, Step(s, l).log);
    }
  }

  // ---- the epoch counts the bumps ------------------------------------------- //

  lemma ProbeCounts(s: Session, others: nat)
    requires EpochCounts(s)
    ensures EpochCounts(ProbeStep(s, others))
  {
    BumpsAppend(s.log, Revoked);
    assert s.log + [] == s.log;
  }

  lemma AppendCounts(s: Session, s': Session, e: Event)
    requires EpochCounts(s) && s'.log == s.log + [e] && e != Latched
    requires s'.store.epoch == s.store.epoch + (if IsBump(e) then 1 else 0) && s'.store.stopped == s.store.stopped
    ensures EpochCounts(s')
  {
    BumpsAppend(s.log, e);
  }

  lemma LatchCounts(s: Session, s': Session)
    requires EpochCounts(s) && s'.log == s.log + [Latched]
    requires s'.store.epoch == s.store.epoch + 1 && s'.store.stopped
    ensures EpochCounts(s')
  {
    BumpsAppend(s.log, Latched);
  }

  lemma ClaimKeepsAuthority(st: Store, key: Key, digest: Digest, approved: Option<Digest>, origin: Origin)
    requires IndexesInRange(st)
    ensures var st' := ClaimOrJoin(st, key, digest, approved, origin).0;
            st'.epoch == st.epoch && st'.stopped == st.stopped
  {
  }

  lemma ClaimCounts(s: Session, c: CallId)
    requires EpochCounts(s) && c < |s.calls| && CallEnabled(s, c, TakeClaim)
    ensures EpochCounts(ClaimStep(s, c))
  {
    var call := s.calls[c];
    var origin := OriginOf(call, c);
    var r := ClaimOrJoin(s.store, call.key, call.digest, call.approved, origin);
    ClaimKeepsAuthority(s.store, call.key, call.digest, call.approved, origin);
    if r.1.Opened? {
      AppendCounts(s, ClaimStep(s, c), Started(r.1.claim, call.key, call.digest));
    }
  }

  lemma ObserveCounts(s: Session, c: CallId, current: bool, others: nat)
    requires EpochCounts(s) && c < |s.calls|
    ensures EpochCounts(ObserveStep(s, c, current, others))
  {
    var s' := ObserveStep(s, c, current, others);
    if current && s.store.epoch == s.calls[c].planned && others > 0 && !s.store.blockActive {
      AppendCounts(s, s', Revoked);
    } else {
      assert s'.log == s.log;
    }
  }

  lemma CallCounts(s: Session, c: CallId, m: CallMove)
    requires EpochCounts(s) && c < |s.calls| && CallEnabled(s, c, m)
    ensures EpochCounts(CallStep(s, c, m))
  {
    match m
    case Observe(current, others) => ObserveCounts(s, c, current, others);
    case TakeClaim => ClaimCounts(s, c);
    case HoldReply => AppendCounts(s, CallStep(s, c, m), PendingStored(s.calls[c].key));
    case Probe(others) => ProbeCounts(s, others);
    case _ =>
  }

  /** An open gate noticed nobody, so nothing was logged before the admission. */
  lemma OpenGateLog(s: Session, t: ClaimId, others: nat, paused: bool)
    requires t < |s.store.claims|
    requires GateOpen(ProbeStep(s, others).store, s.store.claims[t].origin.planned, others)
    ensures MicroStep(s, t, others, paused).log
         == s.log + if paused then [Admitted(t, others, true)] else [Admitted(t, others, false), Emitted(t)]
    ensures others == 0 && !s.store.stopped && s.store.epoch == s.store.claims[t].origin.planned
  {
    assert s.log + [] == s.log;
  }

  lemma MicroCounts(s: Session, t: ClaimId, others: nat, paused: bool)
    requires EpochCounts(s) && t < |s.store.claims|
    ensures EpochCounts(MicroStep(s, t, others, paused))
  {
    if GateOpen(ProbeStep(s, others).store, s.store.claims[t].origin.planned, others) {
      OpenGateLog(s, t, others, paused);
      var s' := MicroStep(s, t, others, paused);
      var e := Admitted(t, others, paused);
      var admitted := s.(log := s.log + [e]);
      AppendCounts(s, admitted, e);
      if paused {
        assert s'.log == admitted.log;
      } else {
        assert s'.log == admitted.log + [Emitted(t)];
        AppendCounts(admitted, s', Emitted(t));
      }
    } else {
      ProbeCounts(s, others);
    }
  }

  lemma TaskCounts(s: Session, t: ClaimId, m: TaskMove)
    requires EpochCounts(s) && t < |s.store.claims| && TaskEnabled(s, t, m)
    ensures EpochCounts(TaskStep(s, t, m))
  {
    match m
    case BeginMicro(others, paused) => MicroCounts(s, t, others, paused);
    case Emit => AppendCounts(s, TaskStep(s, t, m), Emitted(t));
    case EndTask(o) => AppendCounts(s, TaskStep(s, t, m), TaskEnded(t, o));
    case _ =>
  }

  lemma WorldCounts(s: Session, e: WorldMove)
    requires EpochCounts(s) && WorldEnabled(s, e)
    ensures EpochCounts(WorldStep(s, e))
  {
    match e
    case Abort => LatchCounts(s, WorldStep(s, e));
    case PanicLatch => LatchCounts(s, WorldStep(s, e));
    case HumanCursor => if !s.store.stopped { AppendCounts(s, WorldStep(s, e), Revoked); }
    case _ =>
  }

  lemma StepCounts(s: Session, l: Label)
    requires EpochCounts(s) && Enabled(s, l)
    ensures EpochCounts(Step(s, l))
  {
    match l
    case ByCall(c, m) => CallCounts(s, c, m);
    case ByTask(t, m) => TaskCounts(s, t, m);
    case ByWorld(e) => WorldCounts(s, e);
    case _ =>
  }

  // ---- planned epochs --------------------------------------------------------- //

  lemma PlannedGrows(log: seq<Event>, log': seq<Event>, planned: int, observedAt: nat)
    requires PlannedAt(log, planned, observedAt) && log <= log'
    ensures PlannedAt(log', planned, observedAt)
  {
    assert log'[..observedAt] == log[..observedAt];
  }

  /** Whatever is new in `s'` is timed; what is old stays timed. */
  lemma TimedGrows(s: Session, s': Session)
    requires Timed(s) && Progress(s, s') && |s.calls| <= |s'.calls|
    requires forall i :: 0 <= i < |s'.calls| ==>
      CallTimed(s', s'.calls[i]) ||
      (i < |s.calls| && s'.calls[i].planned == s.calls[i].planned &&
       s'.calls[i].observedAt == s.calls[i].observedAt && HasObserved(s.calls[i].phase))
    requires forall a :: |s.approvals| <= a < |s'.approvals| ==>
      PlannedAt(s'.log, s'.approvals[a].epoch, s'.approvals[a].observedAt)
    requires forall c :: |s.store.claims| <= c < |s'.store.claims| ==>
      PlannedAt(s'.log, s'.store.claims[c].origin.planned, s'.store.claims[c].origin.observedAt)
    ensures Timed(s')
  {
    forall i | 0 <= i < |s'.calls| ensures CallTimed(s', s'.calls[i]) {
      if !CallTimed(s', s'.calls[i]) {
        assert CallTimed(s, s.calls[i]);
        PlannedGrows(s.log, s'.log, s.calls[i].planned, s.calls[i].observedAt);
      }
    }
    forall a | 0 <= a < |s'.approvals|
      ensures PlannedAt(s'.log, s'.approvals[a].epoch, s'.approvals[a].observedAt)
    {
      if a < |s.approvals| {
        assert SameRequest(s.approvals[a], s'.approvals[a]);
        PlannedGrows(s.log, s'.log, s.approvals[a].epoch, s.approvals[a].observedAt);
      }
    }
    forall c | 0 <= c < |s'.store.claims|
      ensures PlannedAt(s'.log, s'.store.claims[c].origin.planned, s'.store.claims[c].origin.observedAt)
    {
      if c < |s.store.claims| {
        assert SameIdentity(s.store.claims[c], s'.store.claims[c]);
        PlannedGrows(s.log, s'.log, s.store.claims[c].origin.planned, s.store.claims[c].origin.observedAt);
      }
    }
  }
}
