/** All sessions of one process, the runtime-wide set of tasks that may emit HID, and
    panic, which latches the sessions one by one and then waits for that set to drain. */
module BurstRuntime {
  import opened Options
  import opened BurstStore
  import opened BurstProtocol
  import opened BurstInvariant
  import opened BurstSteps
  import opened BurstEmissions
  import opened BurstAuthority

  type Sid = string
  type PanicId = nat
  type Task = (Sid, ClaimId)

  datatype PanicPhase = Latching | Waited(quiesced: bool) | Reported(ok: bool)

  /** `existed` are the sessions listed when the call began, `todo` those not yet latched. */
  datatype Panic = Panic(existed: set<Sid>, todo: set<Sid>, phase: PanicPhase)

  datatype Process = Process(sessions: map<Sid, Session>, active: set<Task>, idle: bool, panics: seq<Panic>)

  const BOOT := Process(map[], {}, true, [])

  datatype Move =
    | OpenSession(sid: Sid)
    | InSession(sid: Sid, inner: Label)
    | ExternalCursor
    | BeginPanic
    | LatchOne(panic: PanicId, sid: Sid)
    | AwaitIdle(panic: PanicId, quiesced: bool)
    | ReportPanic(panic: PanicId)

  /** Cursor reports and panic reach sessions only through the runtime. */
  predicate IsLocal(l: Label) {
    !(l.ByWorld? && (l.event.PanicLatch? || l.event.HumanCursor?))
  }

  predicate Allowed(r: Process, m: Move) {
    match m
    case OpenSession(sid) => sid !in r.sessions
    case InSession(sid, l) => sid in r.sessions && IsLocal(l) && Enabled(r.sessions[sid], l)
    case ExternalCursor => true
    case BeginPanic => true
    case LatchOne(p, sid) => p < |r.panics| && sid in r.panics[p].todo && sid in r.sessions
    case AwaitIdle(p, quiesced) =>
      p < |r.panics| && r.panics[p].phase == Latching && r.panics[p].todo == {} && (quiesced ==> r.idle)
    case ReportPanic(p) => p < |r.panics| && r.panics[p].phase.Waited?
  }

  /** A task enters the active set with its first instruction and leaves it with its
      last; the event is set whenever a departure empties the set. */
  function Track(r: Process, sid: Sid, l: Label): (set<Task>, bool) {
    if l.ByTask? && l.step.StartTask? then Entered(r.active, (sid, l.claim))
    else if l.ByTask? && l.step.EndTask? then Departed(r.active, r.idle, (sid, l.claim))
    else (r.active, r.idle)
  }

  function Next(r: Process, m: Move): Process
    requires Allowed(r, m)
  {
    match m
    case OpenSession(sid) => r.(sessions := r.sessions[sid := NEW_SESSION])
    case InSession(sid, l) =>
      var (active, idle) := Track(r, sid, l);
      r.(sessions := r.sessions[sid := Step(r.sessions[sid], l)], active := active, idle := idle)
    case ExternalCursor =>
      r.(sessions := map sid | sid in r.sessions :: WorldStep(r.sessions[sid], HumanCursor))
    case BeginPanic => r.(panics := r.panics + [Panic(r.sessions.Keys, r.sessions.Keys, Latching)])
    case LatchOne(p, sid) =>
      r.(sessions := r.sessions[sid := WorldStep(r.sessions[sid], PanicLatch)],
         panics := r.panics[p := r.panics[p].(todo := r.panics[p].todo - {sid})])
    case AwaitIdle(p, quiesced) => r.(panics := r.panics[p := r.panics[p].(phase := Waited(quiesced))])
    case ReportPanic(p) =>
      r.(panics := r.panics[p := r.panics[p].(phase := Reported(r.panics[p].phase.quiesced && |r.active| == 0))])
  }

  /** The state after a list of moves, if each is allowed in turn. */
  function After(r: Process, ms: seq<Move>): Option<Process>
    decreases |ms|
  {
    if ms == [] then Some(r)
    else if Allowed(r, ms[0]) then After(Next(r, ms[0]), ms[1..])
    else None
  }

  ghost predicate Reaches(r: Process, ms: seq<Move>, r': Process) { After(r, ms) == Some(r') }

  // ---- what every state of every run satisfies ------------------------------- //

  type Sessions = map<Sid, Session>

  predicate TaskRuns(ss: Sessions, sid: Sid, t: ClaimId) {
    sid in ss && t < |ss[sid].store.claims| && ss[sid].store.claims[t].phase.Running?
  }

  /** The active set holds exactly the tasks that have started and not ended. */
  ghost predicate ActiveExact(active: set<Task>, ss: Sessions) {
    forall sid: Sid, t: ClaimId :: (sid, t) in active <==> TaskRuns(ss, sid, t)
  }

  ghost predicate PanicFits(ss: Sessions, p: Panic) {
    && p.todo <= p.existed <= ss.Keys
    && (forall sid :: sid in p.existed && sid !in p.todo ==> ss[sid].store.stopped)
    && (!p.phase.Latching? ==> p.todo == {})
  }

  ghost predicate PanicsFit(r: Process) {
    forall p :: 0 <= p < |r.panics| ==> PanicFits(r.sessions, r.panics[p])
  }

  ghost predicate SessionsFit(ss: Sessions) {
    forall sid :: sid in ss ==> Inv(ss[sid])
  }

  ghost predicate ProcessInv(r: Process) {
    && SessionsFit(r.sessions)
    && (r.idle <==> r.active == {})
    && ActiveExact(r.active, r.sessions)
    && PanicsFit(r)
  }

  // ---- the active set ---------------------------------------------------------- //

  lemma MicroPhases(s: Session, t: ClaimId, others: nat, paused: bool)
    requires t < |s.store.claims| && s.store.claims[t].phase.Running?
    ensures var s' := MicroStep(s, t, others, paused);
            && |s'.store.claims| == |s.store.claims| && s'.store.claims[t].phase.Running?
            && (forall i :: 0 <= i < |s.store.claims| && i != t ==> s'.store.claims[i].phase == s.store.claims[i].phase)
  {
  }

  lemma TaskPhases(s: Session, t: ClaimId, m: TaskMove)
    requires t < |s.store.claims| && TaskEnabled(s, t, m)
    ensures var s' := TaskStep(s, t, m);
            && |s'.store.claims| == |s.store.claims|
            && (forall i :: 0 <= i < |s.store.claims| && i != t ==>
                  s'.store.claims[i].phase == s.store.claims[i].phase)
            && (s'.store.claims[t].phase.Running? <==>
                  if m.StartTask? then true else if m.EndTask? then false else s.store.claims[t].phase.Running?)
  {
    if m.BeginMicro? {
      MicroPhases(s, t, m.others, m.paused);
    }
  }

  lemma StillExact(active: set<Task>, ss: Sessions, sid: Sid, s': Session)
    requires ActiveExact(active, ss) && sid in ss && SamePhases(ss[sid], s')
    ensures ActiveExact(active, ss[sid := s'])
  {
    forall i: Sid, t: ClaimId ensures (i, t) in active <==> TaskRuns(ss[sid := s'], i, t) {
      assert (i, t) in active <==> TaskRuns(ss, i, t);
    }
  }

  lemma TaskTracks(r: Process, sid: Sid, t: ClaimId, m: TaskMove)
    requires ActiveExact(r.active, r.sessions) && (r.idle <==> r.active == {})
    requires sid in r.sessions && t < |r.sessions[sid].store.claims| && TaskEnabled(r.sessions[sid], t, m)
    ensures var (active, idle) := Track(r, sid, ByTask(t, m));
            (idle <==> active == {}) && ActiveExact(active, r.sessions[sid := TaskStep(r.sessions[sid], t, m)])
  {
    var (active, idle) := Track(r, sid, ByTask(t, m));
    var ss := r.sessions[sid := TaskStep(r.sessions[sid], t, m)];
    TaskPhases(r.sessions[sid], t, m);
    forall i: Sid, u: ClaimId ensures (i, u) in active <==> TaskRuns(ss, i, u) {
      assert (i, u) in r.active <==> TaskRuns(r.sessions, i, u);
    }
    if m.StartTask? { assert (sid, t) in active; }
  }

  lemma InSessionTracks(r: Process, sid: Sid, l: Label)
    requires ActiveExact(r.active, r.sessions) && (r.idle <==> r.active == {})
    requires sid in r.sessions && Enabled(r.sessions[sid], l)
    ensures var (active, idle) := Track(r, sid, l);
            (idle <==> active == {}) && ActiveExact(active, r.sessions[sid := Step(r.sessions[sid], l)])
  {
    if l.ByTask? {
      TaskTracks(r, sid, l.claim, l.step);
    } else {
      OutsidePhases(r.sessions[sid], l);
      StillExact(r.active, r.sessions, sid, Step(r.sessions[sid], l));
    }
  }

  // ---- panics ------------------------------------------------------------------- //

  lemma PanicStaysFit(ss: Sessions, ss': Sessions, p: Panic)
    requires PanicFits(ss, p) && ss.Keys <= ss'.Keys
    requires forall sid :: sid in ss && ss[sid].store.stopped ==> ss'[sid].store.stopped
    ensures PanicFits(ss', p)
  {
  }

  lemma PanicsStayFit(r: Process, r': Process)
    requires PanicsFit(r) && r'.panics == r.panics && r.sessions.Keys <= r'.sessions.Keys
    requires forall sid :: sid in r.sessions && r.sessions[sid].store.stopped ==> r'.sessions[sid].store.stopped
    ensures PanicsFit(r')
  {
    forall p | 0 <= p < |r'.panics| ensures PanicFits(r'.sessions, r'.panics[p]) {
      PanicStaysFit(r.sessions, r'.sessions, r.panics[p]);
    }
  }

  // ---- steps --------------------------------------------------------------------- //

  lemma InSessionKeepsPanics(r: Process, sid: Sid, l: Label)
    requires PanicsFit(r) && Allowed(r, InSession(sid, l))
    ensures PanicsFit(Next(r, InSession(sid, l)))
  {
    StepProgress(r.sessions[sid], l);
    PanicsStayFit(r, Next(r, InSession(sid, l)));
  }

  lemma InSessionKeepsInv(r: Process, sid: Sid, l: Label)
    requires ProcessInv(r) && Allowed(r, InSession(sid, l))
    ensures ProcessInv(Next(r, InSession(sid, l)))
  {
    InSessionTracks(r, sid, l);
    OneStepFits(r.sessions, sid, l);
    InSessionKeepsPanics(r, sid, l);
  }

  lemma CursorKeepsInv(r: Process)
    requires ProcessInv(r)
    ensures ProcessInv(Next(r, ExternalCursor))
  {
    var r' := Next(r, ExternalCursor);
    forall sid | sid in r'.sessions
      ensures Inv(r'.sessions[sid]) && r'.sessions[sid].store.claims == r.sessions[sid].store.claims
      ensures r.sessions[sid].store.stopped == r'.sessions[sid].store.stopped
    {
      StepKeepsInv(r.sessions[sid], ByWorld(HumanCursor));
    }
    forall i: Sid, t: ClaimId ensures (i, t) in r'.active <==> TaskRuns(r'.sessions, i, t) {
      assert (i, t) in r.active <==> TaskRuns(r.sessions, i, t);
    }
    PanicsStayFit(r, r');
  }

  lemma OneStepFits(ss: Sessions, sid: Sid, l: Label)
    requires SessionsFit(ss) && sid in ss && Enabled(ss[sid], l)
    ensures SessionsFit(ss[sid := Step(ss[sid], l)])
  {
    StepKeepsInv(ss[sid], l);
  }

  lemma LatchPhases(s: Session)
    ensures SamePhases(s, WorldStep(s, PanicLatch))
  {
  }

  lemma LatchKeepsPanics(r: Process, p: PanicId, sid: Sid)
    requires PanicsFit(r) && Allowed(r, LatchOne(p, sid))
    ensures PanicsFit(Next(r, LatchOne(p, sid)))
  {
    var r' := Next(r, LatchOne(p, sid));
    forall q | 0 <= q < |r'.panics| ensures PanicFits(r'.sessions, r'.panics[q]) {
      assert PanicFits(r.sessions, r.panics[q]);
      PanicStaysFit(r.sessions, r'.sessions, r.panics[q]);
    }
  }

  lemma LatchKeepsInv(r: Process, p: PanicId, sid: Sid)
    requires ProcessInv(r) && Allowed(r, LatchOne(p, sid))
    ensures ProcessInv(Next(r, LatchOne(p, sid)))
  {
    var s' := WorldStep(r.sessions[sid], PanicLatch);
    OneStepFits(r.sessions, sid, ByWorld(PanicLatch));
    LatchPhases(r.sessions[sid]);
    StillExact(r.active, r.sessions, sid, s');
    LatchKeepsPanics(r, p, sid);
  }

  lemma OpenTracks(r: Process, sid: Sid)
    requires ActiveExact(r.active, r.sessions) && sid !in r.sessions
    ensures ActiveExact(r.active, r.sessions[sid := NEW_SESSION])
  {
    var ss := r.sessions[sid := NEW_SESSION];
    forall i: Sid, t: ClaimId ensures (i, t) in r.active <==> TaskRuns(ss, i, t) {
      assert (i, t) in r.active <==> TaskRuns(r.sessions, i, t);
    }
  }

  lemma OpenFits(ss: Sessions, sid: Sid)
    requires SessionsFit(ss)
    ensures SessionsFit(ss[sid := NEW_SESSION])
  {
    NewSessionInv();
  }

  lemma OpenKeepsPanics(r: Process, sid: Sid)
    requires PanicsFit(r) && sid !in r.sessions
    ensures PanicsFit(r.(sessions := r.sessions[sid := NEW_SESSION]))
  {
    PanicsStayFit(r, r.(sessions := r.sessions[sid := NEW_SESSION]));
  }

  lemma OpenKeepsInv(r: Process, sid: Sid)
    requires ProcessInv(r) && sid !in r.sessions
    ensures ProcessInv(Next(r, OpenSession(sid)))
  {
    OpenFits(r.sessions, sid);
    OpenTracks(r, sid);
    OpenKeepsPanics(r, sid);
  }

  lemma NextKeepsInv(r: Process, m: Move)
    requires ProcessInv(r) && Allowed(r, m)
    ensures ProcessInv(Next(r, m))
  {
    match m
    case OpenSession(sid) => OpenKeepsInv(r, sid);
    case InSession(sid, l) => InSessionKeepsInv(r, sid, l);
    case ExternalCursor => CursorKeepsInv(r);
    case LatchOne(p, sid) => LatchKeepsInv(r, p, sid);
    case _ =>
      var r' := Next(r, m);
      forall p | 0 <= p < |r'.panics| ensures PanicFits(r'.sessions, r'.panics[p]) {
        if p < |r.panics| { assert PanicFits(r.sessions, r.panics[p]); }
      }
  }

  lemma {:induction false} RunKeepsInv(r: Process, ms: seq<Move>, r': Process)
    requires ProcessInv(r) && Reaches(r, ms, r')
    ensures ProcessInv(r')
    decreases |ms|
  {
    if ms != [] {
      NextKeepsInv(r, ms[0]);
      RunKeepsInv(Next(r, ms[0]), ms[1..], r');
    }
  }

  lemma BootInv()
    ensures ProcessInv(BOOT)
  {
  }

  // ---- nothing is undone ------------------------------------------------------- //

  ghost predicate ProcessProgress(r: Process, r': Process) {
    forall sid :: sid in r.sessions ==> sid in r'.sessions && Progress(r.sessions[sid], r'.sessions[sid])
  }

  lemma ProgressReflexive(s: Session)
    ensures Progress(s, s)
  {
  }

  lemma ProgressTransitive(s: Session, s1: Session, s2: Session)
    requires Progress(s, s1) && Progress(s1, s2)
    ensures Progress(s, s2)
  {
    forall c | 0 <= c < |s.store.claims| ensures SameIdentity(s.store.claims[c], s2.store.claims[c]) {
      assert SameIdentity(s.store.claims[c], s1.store.claims[c]);
      assert SameIdentity(s1.store.claims[c], s2.store.claims[c]);
    }
    forall a | 0 <= a < |s.approvals| ensures SameRequest(s.approvals[a], s2.approvals[a]) {
      assert SameRequest(s.approvals[a], s1.approvals[a]);
      assert SameRequest(s1.approvals[a], s2.approvals[a]);
    }
  }

  lemma NextProgress(r: Process, m: Move)
    requires Allowed(r, m)
    ensures ProcessProgress(r, Next(r, m))
  {
    var r' := Next(r, m);
    forall sid | sid in r.sessions
      ensures sid in r'.sessions && Progress(r.sessions[sid], r'.sessions[sid])
    {
      ProgressReflexive(r.sessions[sid]);
      match m
      case InSession(i, l) => StepProgress(r.sessions[i], l);
      case ExternalCursor => WorldProgress(r.sessions[sid], HumanCursor);
      case LatchOne(_, i) => WorldProgress(r.sessions[i], PanicLatch);
      case _ =>
    }
  }

  lemma {:induction false} RunProgress(r: Process, ms: seq<Move>, r': Process)
    requires Reaches(r, ms, r')
    ensures ProcessProgress(r, r')
    decreases |ms|
  {
    if ms == [] {
      forall sid | sid in r.sessions ensures Progress(r.sessions[sid], r'.sessions[sid]) {
        ProgressReflexive(r.sessions[sid]);
      }
    } else {
      var r1 := Next(r, ms[0]);
      NextProgress(r, ms[0]);
      RunProgress(r1, ms[1..], r');
      forall sid | sid in r.sessions
        ensures sid in r'.sessions && Progress(r.sessions[sid], r'.sessions[sid])
      {
        ProgressTransitive(r.sessions[sid], r1.sessions[sid], r'.sessions[sid]);
      }
    }
  }
}
