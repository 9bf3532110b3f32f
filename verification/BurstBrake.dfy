/** How far the semantic brake reaches: exactly when a digest that has emitted input and
    did not complete can be started again. */
module BurstBrake {
  import opened Options
  import opened BurstStore
  import opened BurstProtocol
  import opened BurstInvariant
  import opened BurstSteps
  import opened BurstHistory
  import opened BurstRuntime
  import opened BurstTheorems
  import Text

  // ---- continuations ----------------------------------------------------------- //

  lemma {:induction false} ReachesAppend(r: Process, ms: seq<Move>, r1: Process, m: Move)
    requires Reaches(r, ms, r1) && Allowed(r1, m)
    ensures Reaches(r, ms + [m], Next(r1, m))
    decreases |ms|
  {
    if ms == [] {
      assert (ms + [m])[1..] == [];
      assert After(Next(r1, m), []) == Some(Next(r1, m));
    } else {
      ReachesAppend(Next(r, ms[0]), ms[1..], r1, m);
      assert (ms + [m])[1..] == ms[1..] + [m];
    }
  }

  /** Some continuation of `r` brings the session to `s`. */
  ghost predicate Leads(r: Process, sid: Sid, s: Session) {
    exists ms, r' :: Reaches(r, ms, r') && sid in r'.sessions && r'.sessions[sid] == s
  }

  lemma LeadsNowhere(r: Process, sid: Sid)
    requires sid in r.sessions
    ensures Leads(r, sid, r.sessions[sid])
  {
    assert Reaches(r, [], r);
  }

  lemma LeadsStep(r: Process, sid: Sid, s: Session, l: Label)
    requires Leads(r, sid, s) && Enabled(s, l) && IsLocal(l)
    ensures Leads(r, sid, Step(s, l))
  {
    var ms, r' :| Reaches(r, ms, r') && sid in r'.sessions && r'.sessions[sid] == s;
    ReachesAppend(r, ms, r', InSession(sid, l));
    var next := Next(r', InSession(sid, l));
    assert Reaches(r, ms + [InSession(sid, l)], next) && next.sessions[sid] == Step(s, l);
  }

  // ---- starting a digest ------------------------------------------------------- //

  /** A key a caller may still choose: well formed and never used in this session. */
  predicate FreshKey(st: Store, key: Key) {
    Text.Strip(key) == key && 0 < |key| <= MAX_KEY && !Seen(st, key)
  }

  function Starter(s: Session, key: Key, d: Digest): Call {
    Call(key, d, s.store.epoch, None, None, 0, None, None, Capturing)
  }

  /** The same call once it has seen the planned screen, alone. */
  function Sighted(s: Session, key: Key, d: Digest): Call {
    Starter(s, key, d).(observedAt := |s.log|, sight := Some(Sight(true, 0)), phase := Grounding)
  }

  function Cleared(s: Session, key: Key, d: Digest, phase: CallPhase): Call {
    Sighted(s, key, d).(verdict := Some(Permitted), phase := phase)
  }

  /** A caller has joined the session, which no client blocks any more. */
  function With(s: Session, call: Call): Session {
    s.(calls := s.calls + [call],
       store := if call.phase.Capturing? then s.store else s.store.(blockActive := false))
  }

  /** The session once a permitted call for `d` under a fresh key has taken its claim. */
  function Restarted(s: Session, key: Key, d: Digest): Session {
    var store := s.store.(blockActive := false);
    var origin := Origin(s.store.epoch, |s.log|, false, None, |s.calls|);
    s.(store := OpenClaim(store, key, d, origin).(status := StatusRunning),
       calls := s.calls + [Cleared(s, key, d, Waiting(|s.store.claims|, false, false))],
       log := s.log + [Started(|s.store.claims|, key, d)])
  }

  lemma Arrives(r: Process, sid: Sid, s: Session, key: Key, d: Digest)
    requires Leads(r, sid, s) && FreshKey(s.store, key)
    requires !s.store.stopped && d !in s.store.unsafe
    ensures Leads(r, sid, With(s, Starter(s, key, d)))
  {
    var req := Request(Some(key), d, true, Some(s.store.epoch), true);
    LeadsStep(r, sid, s, Arrive(req));
    assert Step(s, Arrive(req)) == With(s, Starter(s, key, d));
  }

  lemma Observes(r: Process, sid: Sid, s: Session, key: Key, d: Digest)
    requires Leads(r, sid, With(s, Starter(s, key, d)))
    ensures Leads(r, sid, With(s, Cleared(s, key, d, Claiming(false))))
  {
    var c := |s.calls|;
    var s1 := With(s, Starter(s, key, d));
    LeadsStep(r, sid, s1, ByCall(c, Observe(true, 0)));
    var s2 := Step(s1, ByCall(c, Observe(true, 0)));
    assert s2 == With(s, Sighted(s, key, d));
    LeadsStep(r, sid, s2, ByCall(c, Classify(Permitted)));
    assert Step(s2, ByCall(c, Classify(Permitted))) == With(s, Cleared(s, key, d, Claiming(false)));
  }

  lemma Claims(r: Process, sid: Sid, s: Session, key: Key, d: Digest)
    requires Leads(r, sid, With(s, Cleared(s, key, d, Claiming(false))))
    requires IndexesInRange(s.store) && !Seen(s.store, key) && d !in s.store.semantic && d !in s.store.unsafe
    ensures Leads(r, sid, Restarted(s, key, d))
  {
    var c := |s.calls|;
    var s3 := With(s, Cleared(s, key, d, Claiming(false)));
    LeadsStep(r, sid, s3, ByCall(c, TakeClaim));
    assert Step(s3, ByCall(c, TakeClaim)) == Restarted(s, key, d);
  }

  /** From any running session, a digest that neither index nor receipt covers can be
      started under a fresh key. */
  lemma CanStart(r: Process, sid: Sid, s: Session, key: Key, d: Digest)
    requires Leads(r, sid, s) && FreshKey(s.store, key) && IndexesInRange(s.store)
    requires !s.store.stopped && d !in s.store.unsafe && d !in s.store.semantic
    ensures Leads(r, sid, Restarted(s, key, d))
  {
    Arrives(r, sid, s, key, d);
    Observes(r, sid, s, key, d);
    Claims(r, sid, s, key, d);
  }

  // ---- a retained receipt bars every continuation ------------------------------- //

  /** No start of `d` lies in the log from `n` on. */
  ghost predicate NoStartFrom(log: seq<Event>, n: nat, d: Digest) {
    forall i :: n <= i < |log| ==> !(log[i].Started? && log[i].digest == d)
  }

  lemma StepKeepsBar(s: Session, l: Label, d: Digest)
    requires Enabled(s, l) && d in s.store.unsafe
    ensures var s' := Step(s, l);
            s.log <= s'.log && d in s'.store.unsafe && NoStartFrom(s'.log, |s.log|, d)
  {
    StepProgress(s, l);
    if l.ByCall? && l.move.TakeClaim? {
    } else {
      OnlyClaimStarts(s, l);
    }
  }

  lemma NextKeepsBar(r: Process, m: Move, sid: Sid, d: Digest)
    requires Allowed(r, m) && sid in r.sessions && d in r.sessions[sid].store.unsafe
    ensures var r' := Next(r, m);
            && sid in r'.sessions && d in r'.sessions[sid].store.unsafe
            && r.sessions[sid].log <= r'.sessions[sid].log
            && NoStartFrom(r'.sessions[sid].log, |r.sessions[sid].log|, d)
  {
    match m
    case InSession(i, l) => if i == sid { StepKeepsBar(r.sessions[sid], l, d); }
    case ExternalCursor => StepKeepsBar(r.sessions[sid], ByWorld(HumanCursor), d);
    case LatchOne(_, i) => if i == sid { StepKeepsBar(r.sessions[sid], ByWorld(PanicLatch), d); }
    case _ =>
  }

  lemma {:induction false} RunKeepsBar(r: Process, ms: seq<Move>, r': Process, sid: Sid, d: Digest)
    requires Reaches(r, ms, r') && sid in r.sessions && d in r.sessions[sid].store.unsafe
    ensures sid in r'.sessions && NoStartFrom(r'.sessions[sid].log, |r.sessions[sid].log|, d)
    decreases |ms|
  {
    if ms != [] {
      var r1 := Next(r, ms[0]);
      NextKeepsBar(r, ms[0], sid, d);
      RunKeepsBar(r1, ms[1..], r', sid, d);
      RunProgress(r1, ms[1..], r');
      BarJoins(r.sessions[sid].log, r1.sessions[sid].log, r'.sessions[sid].log, d);
    }
  }

  lemma BarJoins(log: seq<Event>, log1: seq<Event>, log2: seq<Event>, d: Digest)
    requires log <= log1 <= log2 && NoStartFrom(log1, |log|, d) && NoStartFrom(log2, |log1|, d)
    ensures NoStartFrom(log2, |log|, d)
  {
    forall i | |log| <= i < |log2|
      ensures !(log2[i].Started? && log2[i].digest == d)
    {
      if i < |log1| { assert log2[i] == log1[i]; }
    }
  }

  // ---- exactly when -------------------------------------------------------------- //

  /** Some continuation starts digest `d` again. */
  ghost predicate CanRestart(r: Process, sid: Sid, d: Digest)
    requires sid in r.sessions
  {
    exists s :: Leads(r, sid, s) && !NoStartFrom(s.log, |r.sessions[sid].log|, d)
  }

  /** Once every claim of a digest has been published, a running session can start it
      again under a fresh key exactly when no claim of it was published unsafe. */
  lemma RestartIff(r: Process, sid: Sid, d: Digest, key: Key)
    requires Reachable(r) && sid in r.sessions
    requires var st := r.sessions[sid].store;
             !st.stopped && d !in st.semantic && FreshKey(st, key)
    ensures CanRestart(r, sid, d) <==> !RetainedFor(r.sessions[sid].store, d)
  {
    ReachableInv(r);
    RestartOf(r, sid, d, key);
  }

  lemma RestartOf(r: Process, sid: Sid, d: Digest, key: Key)
    requires sid in r.sessions && Indexed(r.sessions[sid].store) && Retention(r.sessions[sid].store)
    requires var st := r.sessions[sid].store;
             !st.stopped && d !in st.semantic && FreshKey(st, key)
    ensures CanRestart(r, sid, d) <==> !RetainedFor(r.sessions[sid].store, d)
  {
    var s := r.sessions[sid];
    if RetainedFor(s.store, d) {
      forall s' | Leads(r, sid, s')
        ensures NoStartFrom(s'.log, |s.log|, d)
      {
        var ms, r' :| Reaches(r, ms, r') && sid in r'.sessions && r'.sessions[sid] == s';
        RunKeepsBar(r, ms, r', sid, d);
      }
    } else {
      LeadsNowhere(r, sid);
      CanStart(r, sid, s, key, d);
      var s' := Restarted(s, key, d);
      assert s'.log[|s.log|] == Started(|s.store.claims|, key, d);
    }
  }

  /** This claim and all others of its digest have been published, the others not unsafe. */
  ghost predicate OthersSafe(st: Store, t: ClaimId) {
    && t < |st.claims| && st.claims[t].finished
    && forall c :: 0 <= c < |st.claims| && st.claims[c].digest == st.claims[t].digest && c != t ==>
         st.claims[c].finished && !PublishedUnsafe(st.claims[c])
  }

  /** The brake over emissions: once a task that emitted and did not complete has been
      published, its burst can be repeated under a regenerated key exactly when it raised or
      reported no completed action (unless another task of the burst already bars it). */
  lemma EmittedBrakeIff(r: Process, sid: Sid, m: nat, e: nat, key: Key)
    requires Reachable(r) && sid in r.sessions
    requires var s := r.sessions[sid];
             && m < e < |s.log| && s.log[m].Emitted? && s.log[e].TaskEnded? && s.log[e].claim == s.log[m].claim
             && !(s.log[e].outcome.Returned? && s.log[e].outcome.status == Completed)
             && OthersSafe(s.store, s.log[m].claim)
             && !s.store.stopped && FreshKey(s.store, key)
    ensures var s := r.sessions[sid];
            CanRestart(r, sid, s.store.claims[s.log[m].claim].digest) <==> !Unsafe(s.log[e].outcome)
  {
    ReachableInv(r);
    var s := r.sessions[sid];
    var t := s.log[m].claim;
    var d := s.store.claims[t].digest;
    assert EventFits(s.store, s.log[e]);
    RestartIff(r, sid, d, key);
    OnlyRetained(s.store, t);
  }

  lemma OnlyRetained(st: Store, t: ClaimId)
    requires Braked(st) && Retention(st) && OthersSafe(st, t)
    requires !(st.claims[t].phase.Ended? && st.claims[t].phase.outcome.Returned?
               && st.claims[t].phase.outcome.status == Completed)
    ensures RetainedFor(st, st.claims[t].digest) <==> EndedUnsafe(st.claims[t])
  {
  }

  // ---- at the claim lock ------------------------------------------------------------ //

  /** Neither a claim nor a receipt answers for the key. */
  predicate KeyUncovered(st: Store, key: Key, d: Digest, approved: Option<Digest>) {
    key !in st.inflight && PriorAnswer(st, key, d, approved).None?
  }

  /** A call at the claim lock starts a task for its digest exactly when its key is
      uncovered, every claim of the digest has been published, and none of them unsafe. */
  lemma ClaimStepIff(r: Process, sid: Sid, c: CallId)
    requires Reachable(r) && sid in r.sessions && c < |r.sessions[sid].calls|
    requires r.sessions[sid].calls[c].phase.Claiming?
    ensures var s := r.sessions[sid]; var call := s.calls[c];
            && CallEnabled(s, c, TakeClaim)
            && (ClaimStep(s, c).log != s.log <==>
                  && KeyUncovered(s.store, call.key, call.digest, call.approved)
                  && (forall t :: 0 <= t < |s.store.claims| && s.store.claims[t].digest == call.digest ==>
                        s.store.claims[t].finished && !PublishedUnsafe(s.store.claims[t])))
  {
    ReachableInv(r);
    ClaimStepOf(r.sessions[sid], c);
  }

  lemma ClaimStepOf(s: Session, c: CallId)
    requires Indexed(s.store) && Retention(s.store) && c < |s.calls| && s.calls[c].phase.Claiming?
    ensures var call := s.calls[c];
            ClaimStep(s, c).log != s.log <==>
              && KeyUncovered(s.store, call.key, call.digest, call.approved)
              && (forall t :: 0 <= t < |s.store.claims| && s.store.claims[t].digest == call.digest ==>
                    s.store.claims[t].finished && !PublishedUnsafe(s.store.claims[t]))
  {
    ClaimLogs(s, c);
    CoverIff(s.store, s.calls[c].digest);
  }

  lemma CoverIff(st: Store, d: Digest)
    requires Indexed(st) && Retention(st)
    ensures d !in st.semantic && d !in st.unsafe <==>
            forall t :: 0 <= t < |st.claims| && st.claims[t].digest == d ==>
              st.claims[t].finished && !PublishedUnsafe(st.claims[t])
  {
    if d in st.semantic {
      assert !st.claims[st.semantic[d]].finished;
    }
  }

  // ---- what a latched session can still emit ------------------------------------------ //

  /** Some continuation makes the session emit another HID report. */
  ghost predicate CanEmit(r: Process, sid: Sid)
    requires sid in r.sessions
  {
    exists s :: Leads(r, sid, s) && !SilentFrom(s.log, |r.sessions[sid].log|)
  }

  /** A latched session can emit again exactly while a micro-action is under way: this is
      what panic waits for before it reports success. */
  lemma StoppedEmitsIff(r: Process, sid: Sid)
    requires sid in r.sessions && r.sessions[sid].store.stopped
    ensures CanEmit(r, sid) <==> exists t: ClaimId :: InFlight(r.sessions[sid].store, t)
  {
    var s := r.sessions[sid];
    if t: ClaimId :| InFlight(s.store, t) {
      LeadsNowhere(r, sid);
      LeadsStep(r, sid, s, ByTask(t, Emit));
      var s' := Step(s, ByTask(t, Emit));
      assert s'.log[|s.log|] == Emitted(t);
    } else {
      forall s' | Leads(r, sid, s')
        ensures SilentFrom(s'.log, |s.log|)
      {
        var ms, r' :| Reaches(r, ms, r') && sid in r'.sessions && r'.sessions[sid] == s';
        RunKeepsDrained(r, ms, r', sid);
      }
    }
  }
}
