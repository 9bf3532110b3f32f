/** Preservation of the burst invariant, property by property. */
module BurstSteps {
  import opened Options
  import opened BurstStore
  import opened BurstProtocol
  import opened BurstInvariant

  // ---- what never goes back ---------------------------------------------- //

  ghost predicate SameIdentity(c: Claim, c': Claim) {
    && c'.digest == c.digest && c'.ownerKey == c.ownerKey && c'.origin == c.origin
    && c.keys <= c'.keys
    && (c.finished ==> c'.finished)
    && (c.phase.Ended? ==> c'.phase == c.phase)
  }

  ghost predicate ClaimsGrow(st: Store, st': Store) {
    && |st.claims| <= |st'.claims|
    && forall c :: 0 <= c < |st.claims| ==> SameIdentity(st.claims[c], st'.claims[c])
  }

  ghost predicate SameRequest(a: Approval, a': Approval) {
    a'.key == a.key && a'.digest == a.digest && a'.epoch == a.epoch && a'.observedAt == a.observedAt
  }

  ghost predicate ApprovalsGrow(s: Session, s': Session) {
    && |s.approvals| <= |s'.approvals|
    && forall a :: 0 <= a < |s.approvals| ==> SameRequest(s.approvals[a], s'.approvals[a])
  }

  /** `s'` is reached from `s` without undoing anything. */
  ghost predicate Progress(s: Session, s': Session) {
    && s.log <= s'.log
    && ClaimsGrow(s.store, s'.store)
    && ApprovalsGrow(s, s')
    && s.store.epoch <= s'.store.epoch
    && (s.store.stopped ==> s'.store.stopped)
    && s.store.unsafe.Keys <= s'.store.unsafe.Keys
    && (forall k :: Seen(s.store, k) ==> Seen(s'.store, k))
  }

  lemma ClaimOrJoinGrows(st: Store, key: Key, digest: Digest, approved: Option<Digest>, origin: Origin)
    requires IndexesInRange(st)
    ensures ClaimsGrow(st, ClaimOrJoin(st, key, digest, approved, origin).0)
  {
  }

  lemma FinishGrows(st: Store, c: ClaimId, key: Key, digest: Digest, reply: Reply, retain: bool)
    requires c < |st.claims|
    ensures ClaimsGrow(st, Finish(st, c, key, digest, reply, retain))
    ensures st.unsafe.Keys <= Finish(st, c, key, digest, reply, retain).unsafe.Keys
  {
  }

  lemma FinishProgress(s: Session, c: CallId, t: ClaimId, reply: Reply, retain: bool)
    requires c < |s.calls| && t < |s.store.claims|
    ensures Progress(s, FinishStep(s, c, t, reply, retain))
  {
    FinishGrows(s.store, t, s.calls[c].key, s.calls[c].digest, reply, retain);
  }

  lemma ClaimProgress(s: Session, c: CallId)
    requires c < |s.calls| && CallEnabled(s, c, TakeClaim)
    ensures Progress(s, ClaimStep(s, c))
  {
    var call := s.calls[c];
    var origin := OriginOf(call, c);
    ClaimOrJoinGrows(s.store, call.key, call.digest, call.approved, origin);
  }

  lemma ObserveProgress(s: Session, c: CallId, current: bool, others: nat)
    requires c < |s.calls|
    ensures Progress(s, ObserveStep(s, c, current, others))
  {
  }

  lemma ResumeProgress(s: Session, c: CallId)
    requires c < |s.calls| && CallEnabled(s, c, Resume)
    ensures Progress(s, ResumeStep(s, c))
  {
    var t := s.calls[c].phase.claim;
    if s.store.claims[t].phase.outcome.Raised? {
      var paused := s.(store := s.store.(status := StatusPaused));
      FinishProgress(paused, c, t, Plain(Failed, 0), false);
    }
  }

  lemma PublishProgress(s: Session, c: CallId)
    requires c < |s.calls| && CallEnabled(s, c, Publish)
    ensures Progress(s, PublishStep(s, c))
  {
    var p := s.calls[c].phase;
    var completed := s.store.claims[p.claim].phase.outcome.completed;
    FinishProgress(s, c, p.claim, Reply(p.word, completed, p.joined, p.alias, false, false),
                   completed > 0 && p.word != Completed);
  }

  lemma CallProgress(s: Session, c: CallId, m: CallMove)
    requires c < |s.calls| && CallEnabled(s, c, m)
    ensures Progress(s, CallStep(s, c, m))
  {
    match m
    case Observe(current, others) => ObserveProgress(s, c, current, others);
    case TakeClaim => ClaimProgress(s, c);
    case Resume => ResumeProgress(s, c);
    case Publish => PublishProgress(s, c);
    case _ =>
  }

  lemma MicroProgress(s: Session, t: ClaimId, others: nat, paused: bool)
    requires t < |s.store.claims| && TaskEnabled(s, t, BeginMicro(others, paused))
    ensures Progress(s, MicroStep(s, t, others, paused))
  {
    var probed := ProbeStep(s, others);
    assert s.log <= probed.log && probed.store.claims == s.store.claims;
    if GateOpen(probed.store, s.store.claims[t].origin.planned, others) {
      PhaseGrows(probed.store, t, Running(if paused then Pausing else Emitting));
    }
  }

  lemma PhaseGrows(st: Store, t: ClaimId, phase: Phase)
    requires t < |st.claims| && !st.claims[t].phase.Ended?
    ensures ClaimsGrow(st, SetPhase(st, t, phase))
  {
  }

  lemma TaskProgress(s: Session, t: ClaimId, m: TaskMove)
    requires t < |s.store.claims| && TaskEnabled(s, t, m)
    ensures Progress(s, TaskStep(s, t, m))
  {
    if m.BeginMicro? {
      MicroProgress(s, t, m.others, m.paused);
    } else {
      assert ClaimsGrow(s.store, TaskStep(s, t, m).store);
    }
  }

  lemma WorldProgress(s: Session, e: WorldMove)
    requires WorldEnabled(s, e)
    ensures Progress(s, WorldStep(s, e))
  {
  }

  lemma EnterProgress(s: Session, req: Request, approved: Option<Digest>, via: Option<ApprovalId>)
    ensures Progress(s, Enter(s, req, approved, via))
  {
  }

  lemma StepProgress(s: Session, l: Label)
    requires Enabled(s, l)
    ensures Progress(s, Step(s, l))
  {
    match l
    case Arrive(req) => EnterProgress(s, req, None, None);
    case Approve(a) =>
      EnterProgress(s, ApprovedRequest(s.approvals[a]), Some(s.approvals[a].digest), Some(a));
    case ByCall(c, m) => CallProgress(s, c, m);
    case ByTask(t, m) => TaskProgress(s, t, m);
    case ByWorld(e) => WorldProgress(s, e);
  }

  // ---- the indexes -------------------------------------------------------- //

  lemma IndexedFrame(st: Store, st': Store)
    requires Indexed(st)
    requires st'.claims == st.claims && st'.inflight == st.inflight && st'.semantic == st.semantic
    ensures Indexed(st')
  {
  }

  lemma OpenKeepsKeys(st: Store, key: Key, digest: Digest, origin: Origin)
    requires IndexesInRange(st) && KeysIndexed(st) && key !in st.inflight
    ensures IndexesInRange(OpenClaim(st, key, digest, origin)) && KeysIndexed(OpenClaim(st, key, digest, origin))
  {
  }

  lemma OpenKeepsDigests(st: Store, key: Key, digest: Digest, origin: Origin)
    requires IndexesInRange(st) && DigestsIndexed(st) && digest !in st.semantic
    ensures IndexesInRange(OpenClaim(st, key, digest, origin)) && DigestsIndexed(OpenClaim(st, key, digest, origin))
  {
  }

  lemma OpenKeepsIndexed(st: Store, key: Key, digest: Digest, origin: Origin)
    requires Indexed(st) && key !in st.inflight && digest !in st.semantic
    ensures Indexed(OpenClaim(st, key, digest, origin))
  {
    OpenKeepsKeys(st, key, digest, origin);
    OpenKeepsDigests(st, key, digest, origin);
  }

  lemma AliasKeepsIndexed(st: Store, key: Key, digest: Digest)
    requires Indexed(st) && key !in st.inflight && digest in st.semantic
    ensures Indexed(AliasClaim(st, key, st.semantic[digest]))
  {
  }

  lemma FinishKeepsKeys(st: Store, c: ClaimId, key: Key, digest: Digest, reply: Reply, retain: bool)
    requires IndexesInRange(st) && KeysIndexed(st) && c < |st.claims|
    ensures var st' := Finish(st, c, key, digest, reply, retain);
            IndexesInRange(st') && KeysIndexed(st')
  {
    var st' := Finish(st, c, key, digest, reply, retain);
    assert forall i :: 0 <= i < |st.claims| && i != c ==> st'.claims[i] == st.claims[i];
    assert forall k :: k in st'.inflight ==> k in st.inflight && st'.inflight[k] == st.inflight[k] && st.inflight[k] != c;
  }

  lemma FinishKeepsDigests(st: Store, c: ClaimId, key: Key, digest: Digest, reply: Reply, retain: bool)
    requires IndexesInRange(st) && DigestsIndexed(st) && c < |st.claims| && st.claims[c].digest == digest
    ensures var st' := Finish(st, c, key, digest, reply, retain);
            IndexesInRange(st') && DigestsIndexed(st')
  {
    var st' := Finish(st, c, key, digest, reply, retain);
    assert forall i :: 0 <= i < |st.claims| && i != c ==> st'.claims[i] == st.claims[i];
  }

  lemma FinishKeepsIndexed(st: Store, c: ClaimId, key: Key, digest: Digest, reply: Reply, retain: bool)
    requires Indexed(st) && c < |st.claims| && st.claims[c].digest == digest
    ensures Indexed(Finish(st, c, key, digest, reply, retain))
  {
    FinishKeepsKeys(st, c, key, digest, reply, retain);
    FinishKeepsDigests(st, c, key, digest, reply, retain);
  }

  lemma SetPhaseKeepsIndexed(st: Store, c: ClaimId, phase: Phase)
    requires Indexed(st) && c < |st.claims|
    ensures Indexed(SetPhase(st, c, phase))
  {
  }

  lemma ClaimKeepsIndexed(st: Store, key: Key, digest: Digest, approved: Option<Digest>, origin: Origin)
    requires Indexed(st)
    ensures Indexed(ClaimOrJoin(st, key, digest, approved, origin).0)
  {
    var st' := ClaimOrJoin(st, key, digest, approved, origin).0;
    if PriorAnswer(st, key, digest, approved).Some? || digest in st.unsafe || key in st.inflight {
      IndexedFrame(st, st');
    } else if digest in st.semantic {
      AliasKeepsIndexed(st, key, digest);
      IndexedFrame(AliasClaim(st, key, st.semantic[digest]), st');
    } else {
      OpenKeepsIndexed(st, key, digest, origin);
      IndexedFrame(OpenClaim(st, key, digest, origin), st');
    }
  }

  lemma ClaimStepKeepsIndexed(s: Session, c: CallId)
    requires Indexed(s.store) && c < |s.calls| && CallEnabled(s, c, TakeClaim)
    ensures Indexed(ClaimStep(s, c).store)
  {
    var call := s.calls[c];
    ClaimKeepsIndexed(s.store, call.key, call.digest, call.approved,
                      OriginOf(call, c));
  }

  lemma ResumeKeepsIndexed(s: Session, c: CallId)
    requires Indexed(s.store) && CallsFit(s) && c < |s.calls| && CallEnabled(s, c, Resume)
    ensures Indexed(ResumeStep(s, c).store)
  {
    var call := s.calls[c];
    assert CallFits(s.store, call);
    FinishKeepsIndexed(s.store.(status := StatusPaused), call.phase.claim, call.key, call.digest, Plain(Failed, 0), false);
  }

  lemma PublishKeepsIndexed(s: Session, c: CallId)
    requires Indexed(s.store) && CallsFit(s) && c < |s.calls| && CallEnabled(s, c, Publish)
    ensures Indexed(PublishStep(s, c).store)
  {
    var call := s.calls[c];
    assert CallFits(s.store, call);
    var p := call.phase;
    var completed := s.store.claims[p.claim].phase.outcome.completed;
    FinishKeepsIndexed(s.store, p.claim, call.key, call.digest,
                       Reply(p.word, completed, p.joined, p.alias, false, false), completed > 0 && p.word != Completed);
  }

  lemma CallKeepsIndexed(s: Session, c: CallId, m: CallMove)
    requires Indexed(s.store) && CallsFit(s) && c < |s.calls| && CallEnabled(s, c, m)
    ensures Indexed(CallStep(s, c, m).store)
  {
    match m
    case TakeClaim => ClaimStepKeepsIndexed(s, c);
    case Resume => ResumeKeepsIndexed(s, c);
    case Publish => PublishKeepsIndexed(s, c);
    case _ => IndexedFrame(s.store, CallStep(s, c, m).store);
  }

  /** Everything the claim properties read, except one task's phase. */
  ghost predicate SameClaims(st: Store, st': Store) {
    && st'.claims == st.claims && st'.inflight == st.inflight
    && st'.semantic == st.semantic && st'.unsafe == st.unsafe
  }

  lemma MicroFrame(s: Session, t: ClaimId, others: nat, paused: bool)
    requires t < |s.store.claims|
    ensures var s' := MicroStep(s, t, others, paused);
            t < |s'.store.claims| && SameClaims(SetPhase(s.store, t, s'.store.claims[t].phase), s'.store)
  {
    var probed := ProbeStep(s, others);
    assert SameClaims(s.store, probed.store);
    if GateOpen(probed.store, s.store.claims[t].origin.planned, others) {
      PhaseFrame(s.store, probed.store, t, Running(if paused then Pausing else Emitting));
    } else {
      SamePhase(s.store, t);
    }
  }

  lemma PhaseFrame(st: Store, st': Store, t: ClaimId, phase: Phase)
    requires t < |st.claims| && SameClaims(st, st')
    ensures SameClaims(SetPhase(st, t, phase), SetPhase(st', t, phase))
    ensures SetPhase(st', t, phase).claims[t].phase == phase
  {
  }

  lemma SamePhase(st: Store, t: ClaimId)
    requires t < |st.claims|
    ensures SameClaims(SetPhase(st, t, st.claims[t].phase), st)
  {
    assert st.claims[t := st.claims[t]] == st.claims;
  }

  lemma TaskFrame(s: Session, t: ClaimId, m: TaskMove)
    requires t < |s.store.claims| && TaskEnabled(s, t, m)
    ensures var s' := TaskStep(s, t, m);
            t < |s'.store.claims| && SameClaims(SetPhase(s.store, t, s'.store.claims[t].phase), s'.store)
  {
    if m.BeginMicro? {
      MicroFrame(s, t, m.others, m.paused);
    }
  }

  lemma EnterFrame(s: Session, req: Request, approved: Option<Digest>, via: Option<ApprovalId>)
    ensures SameClaims(s.store, Enter(s, req, approved, via).store)
  {
  }

  lemma WorldFrame(s: Session, e: WorldMove)
    requires WorldEnabled(s, e)
    ensures SameClaims(s.store, WorldStep(s, e).store)
  {
  }

  lemma OutsideFrame(s: Session, l: Label)
    requires Enabled(s, l) && !l.ByCall? && !l.ByTask?
    ensures SameClaims(s.store, Step(s, l).store)
  {
    match l
    case Arrive(req) => EnterFrame(s, req, None, None);
    case Approve(a) => EnterFrame(s, ApprovedRequest(s.approvals[a]), Some(s.approvals[a].digest), Some(a));
    case ByWorld(e) => WorldFrame(s, e);
  }

  lemma StepKeepsIndexed(s: Session, l: Label)
    requires Indexed(s.store) && CallsFit(s) && Enabled(s, l)
    ensures Indexed(Step(s, l).store)
  {
    match l
    case ByCall(c, m) => CallKeepsIndexed(s, c, m);
    case ByTask(t, m) =>
      TaskFrame(s, t, m);
      var phase := TaskStep(s, t, m).store.claims[t].phase;
      SetPhaseKeepsIndexed(s.store, t, phase);
      IndexedFrame(SetPhase(s.store, t, phase), TaskStep(s, t, m).store);
    case _ =>
      OutsideFrame(s, l);
      IndexedFrame(s.store, Step(s, l).store);
  }

  // ---- the semantic brake -------------------------------------------------- //

  lemma BrakedFrame(st: Store, st': Store)
    requires Braked(st) && st'.claims == st.claims && st.unsafe.Keys <= st'.unsafe.Keys
    ensures Braked(st')
  {
  }

  lemma OpenKeepsBraked(st: Store, key: Key, digest: Digest, origin: Origin)
    requires Indexed(st) && Braked(st) && digest !in st.semantic && digest !in st.unsafe
    ensures Braked(OpenClaim(st, key, digest, origin))
  {
  }

  lemma AliasKeepsBraked(st: Store, key: Key, c: ClaimId)
    requires Braked(st) && c < |st.claims|
    ensures Braked(AliasClaim(st, key, c))
  {
  }

  lemma FinishKeepsBraked(st: Store, c: ClaimId, key: Key, digest: Digest, reply: Reply, retain: bool)
    requires Braked(st) && c < |st.claims| && st.claims[c].digest == digest
    requires st.claims[c].phase.Ended? && (EndedUnsafe(st.claims[c]) ==> retain)
    ensures Braked(Finish(st, c, key, digest, reply, retain))
  {
  }

  lemma SetPhaseKeepsBraked(st: Store, c: ClaimId, phase: Phase)
    requires Braked(st) && c < |st.claims| && !st.claims[c].phase.Ended?
    ensures Braked(SetPhase(st, c, phase))
  {
  }

  lemma ClaimKeepsBraked(st: Store, key: Key, digest: Digest, approved: Option<Digest>, origin: Origin)
    requires Indexed(st) && Braked(st)
    ensures Braked(ClaimOrJoin(st, key, digest, approved, origin).0)
  {
    var st' := ClaimOrJoin(st, key, digest, approved, origin).0;
    if PriorAnswer(st, key, digest, approved).Some? || digest in st.unsafe || key in st.inflight {
      BrakedFrame(st, st');
    } else if digest in st.semantic {
      AliasKeepsBraked(st, key, st.semantic[digest]);
      BrakedFrame(AliasClaim(st, key, st.semantic[digest]), st');
    } else {
      OpenKeepsBraked(st, key, digest, origin);
      BrakedFrame(OpenClaim(st, key, digest, origin), st');
    }
  }

  lemma CallKeepsBraked(s: Session, c: CallId, m: CallMove)
    requires Indexed(s.store) && Braked(s.store) && CallsFit(s) && c < |s.calls| && CallEnabled(s, c, m)
    ensures Braked(CallStep(s, c, m).store)
  {
    var call := s.calls[c];
    assert CallFits(s.store, call);
    if m.TakeClaim? {
      ClaimKeepsBraked(s.store, call.key, call.digest, call.approved,
                       OriginOf(call, c));
    } else if m.Resume? && s.store.claims[call.phase.claim].phase.outcome.Raised? {
      FinishKeepsBraked(s.store.(status := StatusPaused), call.phase.claim, call.key, call.digest, Plain(Failed, 0), false);
    } else if m.Publish? {
      var p := call.phase;
      var completed := s.store.claims[p.claim].phase.outcome.completed;
      FinishKeepsBraked(s.store, p.claim, call.key, call.digest,
                        Reply(p.word, completed, p.joined, p.alias, false, false), completed > 0 && p.word != Completed);
    } else {
      BrakedFrame(s.store, CallStep(s, c, m).store);
    }
  }

  lemma StepKeepsBraked(s: Session, l: Label)
    requires Indexed(s.store) && Braked(s.store) && CallsFit(s) && Enabled(s, l)
    ensures Braked(Step(s, l).store)
  {
    match l
    case ByCall(c, m) => CallKeepsBraked(s, c, m);
    case ByTask(t, m) =>
      TaskFrame(s, t, m);
      var phase := TaskStep(s, t, m).store.claims[t].phase;
      SetPhaseKeepsBraked(s.store, t, phase);
      BrakedFrame(SetPhase(s.store, t, phase), TaskStep(s, t, m).store);
    case _ =>
      OutsideFrame(s, l);
      BrakedFrame(s.store, Step(s, l).store);
  }

  // ---- retained receipts ------------------------------------------------------ //

  lemma RetentionFrame(st: Store, st': Store)
    requires Retention(st) && st'.claims == st.claims && st'.unsafe == st.unsafe
    ensures Retention(st')
  {
    assert forall d :: RetainedFor(st', d) == RetainedFor(st, d);
  }

  /** No claim's published words or outcome change, and new claims have none. */
  ghost predicate SamePublished(st: Store, st': Store) {
    && st'.unsafe == st.unsafe && |st.claims| <= |st'.claims|
    && (forall c :: 0 <= c < |st.claims| ==>
          && st'.claims[c].digest == st.claims[c].digest && st'.claims[c].words == st.claims[c].words
          && (st.claims[c].words != {} ==> st'.claims[c].phase == st.claims[c].phase))
    && (forall c :: |st.claims| <= c < |st'.claims| ==> st'.claims[c].words == {})
  }

  lemma SameRetention(st: Store, st': Store)
    requires Retention(st) && SamePublished(st, st')
    ensures Retention(st')
  {
    forall d
      ensures RetainedFor(st, d) <==> RetainedFor(st', d)
    {
      if RetainedFor(st, d) {
        var c :| 0 <= c < |st.claims| && st.claims[c].digest == d && PublishedUnsafe(st.claims[c]);
        assert st'.claims[c].digest == d && PublishedUnsafe(st'.claims[c]);
      }
      if RetainedFor(st', d) {
        var c :| 0 <= c < |st'.claims| && st'.claims[c].digest == d && PublishedUnsafe(st'.claims[c]);
        assert st.claims[c].digest == d && PublishedUnsafe(st.claims[c]);
      }
    }
  }

  lemma PublishOnce(c: Claim, w: Word)
    requires c.phase.Ended?
    ensures PublishedUnsafe(c.(finished := true, words := c.words + {w})) <==>
            PublishedUnsafe(c) || (c.phase.outcome.Returned? && c.phase.outcome.completed > 0 && w != Completed)
  {
    var c' := c.(finished := true, words := c.words + {w});
    assert w in c'.words;
    assert forall v :: v in c.words ==> v in c'.words;
  }

  /** Publishing retains exactly when the claim has become published unsafe. */
  lemma FinishKeepsRetention(st: Store, c: ClaimId, key: Key, digest: Digest, reply: Reply, retain: bool)
    requires Retention(st) && c < |st.claims| && st.claims[c].digest == digest && st.claims[c].phase.Ended?
    requires retain <==> st.claims[c].phase.outcome.Returned? && st.claims[c].phase.outcome.completed > 0
                         && reply.status != Completed
    ensures Retention(Finish(st, c, key, digest, reply, retain))
  {
    var st' := Finish(st, c, key, digest, reply, retain);
    PublishOnce(st.claims[c], reply.status);
    forall d
      ensures d in st'.unsafe <==> RetainedFor(st', d)
    {
      if RetainedFor(st, d) {
        var i :| 0 <= i < |st.claims| && st.claims[i].digest == d && PublishedUnsafe(st.claims[i]);
        assert st'.claims[i].digest == d && PublishedUnsafe(st'.claims[i]);
      }
      if RetainedFor(st', d) {
        var i :| 0 <= i < |st'.claims| && st'.claims[i].digest == d && PublishedUnsafe(st'.claims[i]);
        assert i != c ==> st.claims[i] == st'.claims[i];
      }
      if retain && d == digest {
        assert st'.claims[c].digest == d && PublishedUnsafe(st'.claims[c]);
      }
    }
  }

  /** What the claim lock's code leaves of the claims and indexes: nothing changed, one key
      more on the claim of the digest, or one claim more for an uncovered key and digest. */
  ghost predicate ClaimedAs(st: Store, st': Store, key: Key, digest: Digest, origin: Origin)
    requires IndexesInRange(st)
  {
    || SameClaims(st, st')
    || (digest in st.semantic && SameClaims(AliasClaim(st, key, st.semantic[digest]), st'))
    || SameClaims(OpenClaim(st, key, digest, origin), st')
  }

  lemma ClaimCases(st: Store, key: Key, digest: Digest, approved: Option<Digest>, origin: Origin)
    requires IndexesInRange(st)
    ensures ClaimedAs(st, ClaimOrJoin(st, key, digest, approved, origin).0, key, digest, origin)
  {
    if PriorAnswer(st, key, digest, approved).None? && digest !in st.unsafe && key !in st.inflight {
      ClaimOpens(st, key, digest, approved, origin);
    }
  }

  lemma ClaimOpens(st: Store, key: Key, digest: Digest, approved: Option<Digest>, origin: Origin)
    requires IndexesInRange(st)
    requires PriorAnswer(st, key, digest, approved).None? && digest !in st.unsafe && key !in st.inflight
    ensures ClaimOrJoin(st, key, digest, approved, origin).0
         == (if digest in st.semantic then AliasClaim(st, key, st.semantic[digest])
             else OpenClaim(st, key, digest, origin)).(status := StatusRunning)
  {
  }

  lemma ClaimedKeepsRetention(st: Store, st': Store, key: Key, digest: Digest, origin: Origin)
    requires IndexesInRange(st) && Retention(st) && ClaimedAs(st, st', key, digest, origin)
    ensures Retention(st')
  {
    if SameClaims(st, st') {
      RetentionFrame(st, st');
    } else if digest in st.semantic && SameClaims(AliasClaim(st, key, st.semantic[digest]), st') {
      AliasKeepsRetention(st, key, st.semantic[digest]);
      RetentionFrame(AliasClaim(st, key, st.semantic[digest]), st');
    } else {
      OpenKeepsRetention(st, key, digest, origin);
      RetentionFrame(OpenClaim(st, key, digest, origin), st');
    }
  }

  lemma AliasKeepsRetention(st: Store, key: Key, c: ClaimId)
    requires Retention(st) && c < |st.claims|
    ensures Retention(AliasClaim(st, key, c))
  {
    SameRetention(st, AliasClaim(st, key, c));
  }

  lemma OpenKeepsRetention(st: Store, key: Key, digest: Digest, origin: Origin)
    requires Retention(st)
    ensures Retention(OpenClaim(st, key, digest, origin))
  {
    SameRetention(st, OpenClaim(st, key, digest, origin));
  }

  lemma ClaimKeepsRetention(st: Store, key: Key, digest: Digest, approved: Option<Digest>, origin: Origin)
    requires IndexesInRange(st) && Retention(st)
    ensures Retention(ClaimOrJoin(st, key, digest, approved, origin).0)
  {
    ClaimCases(st, key, digest, approved, origin);
    ClaimedKeepsRetention(st, ClaimOrJoin(st, key, digest, approved, origin).0, key, digest, origin);
  }

  lemma ResumeKeepsRetention(s: Session, c: CallId)
    requires Retention(s.store) && CallsFit(s) && c < |s.calls| && CallEnabled(s, c, Resume)
    ensures Retention(ResumeStep(s, c).store)
  {
    var call := s.calls[c];
    assert CallFits(s.store, call);
    var paused := s.store.(status := StatusPaused);
    RetentionFrame(s.store, paused);
    if s.store.claims[call.phase.claim].phase.outcome.Raised? {
      FinishKeepsRetention(paused, call.phase.claim, call.key, call.digest, Plain(Failed, 0), false);
    }
  }

  lemma PublishKeepsRetention(s: Session, c: CallId)
    requires Retention(s.store) && CallsFit(s) && c < |s.calls| && CallEnabled(s, c, Publish)
    ensures Retention(PublishStep(s, c).store)
  {
    var call := s.calls[c];
    assert CallFits(s.store, call);
    var p := call.phase;
    var completed := s.store.claims[p.claim].phase.outcome.completed;
    FinishKeepsRetention(s.store, p.claim, call.key, call.digest,
                         Reply(p.word, completed, p.joined, p.alias, false, false),
                         completed > 0 && p.word != Completed);
  }

  lemma CallKeepsRetention(s: Session, c: CallId, m: CallMove)
    requires Indexed(s.store) && Retention(s.store) && CallsFit(s) && c < |s.calls| && CallEnabled(s, c, m)
    ensures Retention(CallStep(s, c, m).store)
  {
    var call := s.calls[c];
    match m
    case TakeClaim =>
      ClaimKeepsRetention(s.store, call.key, call.digest, call.approved,
                          OriginOf(call, c));
    case Resume => ResumeKeepsRetention(s, c);
    case Publish => PublishKeepsRetention(s, c);
    case _ => RetentionFrame(s.store, CallStep(s, c, m).store);
  }

  lemma StepKeepsRetention(s: Session, l: Label)
    requires Indexed(s.store) && Retention(s.store) && CallsFit(s) && Enabled(s, l)
    ensures Retention(Step(s, l).store)
  {
    match l
    case ByCall(c, m) => CallKeepsRetention(s, c, m);
    case ByTask(t, m) =>
      TaskFrame(s, t, m);
      var phase := TaskStep(s, t, m).store.claims[t].phase;
      SameRetention(s.store, SetPhase(s.store, t, phase));
      RetentionFrame(SetPhase(s.store, t, phase), TaskStep(s, t, m).store);
    case _ =>
      OutsideFrame(s, l);
      RetentionFrame(s.store, Step(s, l).store);
  }

  // ---- what a claiming call adds ------------------------------------------------ //

  lemma ClaimedAdds(st: Store, st': Store, key: Key, digest: Digest, origin: Origin)
    requires IndexesInRange(st) && ClaimedAs(st, st', key, digest, origin)
    ensures |st.claims| <= |st'.claims| <= |st.claims| + 1
    ensures |st'.claims| > |st.claims| ==>
      st'.claims[|st.claims|] == Claim(digest, key, {key}, origin, Created, false, {})
  {
  }

  /** A claiming call touches no other, and the only claim it can add carries its own
      authority. */
  ghost predicate ClaimShaped(s: Session, s': Session, c: CallId)
    requires c < |s.calls| && s.calls[c].phase.Claiming?
  {
    var call := s.calls[c];
    var n := |s.store.claims|;
    && |s'.calls| == |s.calls| && s'.approvals == s.approvals
    && (forall i :: 0 <= i < |s.calls| && i != c ==> s'.calls[i] == s.calls[i])
    && s'.calls[c] == call.(phase := s'.calls[c].phase)
    && (s'.calls[c].phase.Done? || s'.calls[c].phase.Waiting?)
    && n <= |s'.store.claims| <= n + 1
    && (|s'.store.claims| > n ==>
          s'.store.claims[n] == Claim(call.digest, call.key, {call.key}, OriginOf(call, c), Created, false, {}))
  }

  lemma ClaimShape(s: Session, c: CallId)
    requires c < |s.calls| && CallEnabled(s, c, TakeClaim)
    ensures ClaimShaped(s, ClaimStep(s, c), c)
  {
    var call := s.calls[c];
    ClaimCases(s.store, call.key, call.digest, call.approved, OriginOf(call, c));
    ClaimedAdds(s.store, ClaimStep(s, c).store, call.key, call.digest, OriginOf(call, c));
  }

  // ---- the callers ---------------------------------------------------------- //

  /** A call that has just entered: it is answered, or awaits its first capture. */
  predicate JustEntered(call: Call) { call.phase.Capturing? || call.phase.Done? }

  /** Approvals and claims are as many as before, and at most calls that have just entered
      are new. */
  ghost predicate AddsCalls(s: Session, s': Session) {
    && s.calls <= s'.calls && (forall i :: |s.calls| <= i < |s'.calls| ==> JustEntered(s'.calls[i]))
    && |s'.approvals| == |s.approvals| && |s'.store.claims| == |s.store.claims|
  }

  lemma EnterCalls(s: Session, req: Request, approved: Option<Digest>, via: Option<ApprovalId>)
    ensures AddsCalls(s, Enter(s, req, approved, via))
  {
  }

  lemma TaskCalls(s: Session, t: ClaimId, m: TaskMove)
    requires t < |s.store.claims|
    ensures AddsCalls(s, TaskStep(s, t, m))
  {
  }

  lemma WorldCalls(s: Session, e: WorldMove)
    requires WorldEnabled(s, e)
    ensures AddsCalls(s, WorldStep(s, e))
  {
  }

  /** Only a call's own moves touch it. */
  lemma OutsideCalls(s: Session, l: Label)
    requires Enabled(s, l) && !l.ByCall?
    ensures AddsCalls(s, Step(s, l))
  {
    match l
    case Arrive(req) => EnterCalls(s, req, None, None);
    case Approve(a) => EnterCalls(s, ApprovedRequest(s.approvals[a]), Some(s.approvals[a].digest), Some(a));
    case ByTask(t, m) => TaskCalls(s, t, m);
    case ByWorld(e) => WorldCalls(s, e);
  }

  lemma FitGrows(st: Store, st': Store, call: Call)
    requires CallFits(st, call) && ClaimsGrow(st, st')
    ensures CallFits(st', call)
  {
  }

  /** All calls but one are untouched, and the claims only grew. */
  lemma CallsFitExcept(s: Session, s': Session, c: CallId)
    requires CallsFit(s) && ClaimsGrow(s.store, s'.store)
    requires c < |s.calls| == |s'.calls|
    requires forall i :: 0 <= i < |s.calls| && i != c ==> s'.calls[i] == s.calls[i]
    requires CallFits(s'.store, s'.calls[c])
    ensures CallsFit(s')
  {
    forall i | 0 <= i < |s'.calls| ensures CallFits(s'.store, s'.calls[i]) {
      if i != c { FitGrows(s.store, s'.store, s.calls[i]); }
    }
  }

  lemma CallKeepsCallsFit(s: Session, c: CallId, m: CallMove)
    requires Indexed(s.store) && CallsFit(s) && c < |s.calls| && CallEnabled(s, c, m)
    ensures CallsFit(CallStep(s, c, m))
  {
    var s' := CallStep(s, c, m);
    CallProgress(s, c, m);
    assert CallFits(s.store, s.calls[c]);
    FitGrows(s.store, s'.store, s.calls[c]);
    assert CallFits(s'.store, s'.calls[c]) by {
      if m.TakeClaim? { ClaimFits(s, c); }
    }
    CallsFitExcept(s, s', c);
  }

  lemma ClaimFits(s: Session, c: CallId)
    requires Indexed(s.store) && c < |s.calls| && CallEnabled(s, c, TakeClaim)
    ensures CallFits(ClaimStep(s, c).store, ClaimStep(s, c).calls[c])
  {
  }

  lemma StepKeepsCallsFit(s: Session, l: Label)
    requires Indexed(s.store) && CallsFit(s) && Enabled(s, l)
    ensures CallsFit(Step(s, l))
  {
    if l.ByCall? {
      CallKeepsCallsFit(s, l.call, l.move);
    } else {
      StepProgress(s, l);
      OutsideCalls(s, l);
      FitAll(s, Step(s, l));
    }
  }

  lemma FitAll(s: Session, s': Session)
    requires CallsFit(s) && ClaimsGrow(s.store, s'.store) && AddsCalls(s, s')
    ensures CallsFit(s')
  {
    forall i | 0 <= i < |s.calls| ensures CallFits(s'.store, s'.calls[i]) {
      FitGrows(s.store, s'.store, s.calls[i]);
    }
  }
}
