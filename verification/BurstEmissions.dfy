/** Preservation of what the history says about micro-actions: which gate admitted each, and
    which admission each HID report belongs to. */
module BurstEmissions {
  import opened Options
  import opened BurstStore
  import opened BurstProtocol
  import opened BurstInvariant
  import opened BurstSteps
  import opened BurstHistory

  // ---- phases ------------------------------------------------------------------ //

  /** No phase changes and no claim starts out running. */
  ghost predicate SamePhases(s: Session, s': Session) {
    && |s.store.claims| <= |s'.store.claims|
    && (forall t :: 0 <= t < |s.store.claims| ==> s'.store.claims[t].phase == s.store.claims[t].phase)
    && (forall t :: |s.store.claims| <= t < |s'.store.claims| ==> s'.store.claims[t].phase == Created)
  }

  lemma ClaimPhases(s: Session, c: CallId)
    requires c < |s.calls| && CallEnabled(s, c, TakeClaim)
    ensures SamePhases(s, ClaimStep(s, c))
  {
  }

  lemma ResumePhases(s: Session, c: CallId)
    requires c < |s.calls| && CallEnabled(s, c, Resume)
    ensures SamePhases(s, ResumeStep(s, c))
  {
  }

  lemma CallPhases(s: Session, c: CallId, m: CallMove)
    requires c < |s.calls| && CallEnabled(s, c, m)
    ensures SamePhases(s, CallStep(s, c, m))
  {
    match m
    case TakeClaim => ClaimPhases(s, c);
    case Resume => ResumePhases(s, c);
    case _ =>
  }

  lemma OutsidePhases(s: Session, l: Label)
    requires Enabled(s, l) && !l.ByTask?
    ensures SamePhases(s, Step(s, l))
  {
    if l.ByCall? {
      CallPhases(s, l.call, l.move);
    } else {
      OutsideFrame(s, l);
    }
  }

  // ---- admissions ---------------------------------------------------------------- //

  lemma OldAdmissionsFit(s: Session, s': Session, m: nat)
    requires AdmissionsFit(s) && Progress(s, s') && m < |s.log| && s.log[m].Admitted?
    ensures AdmissionFits(s', m)
  {
    assert AdmissionFits(s, m);
    assert s'.log[m] == s.log[m] && s'.log[..m] == s.log[..m];
    assert SameIdentity(s.store.claims[s.log[m].claim], s'.store.claims[s.log[m].claim]);
  }

  lemma SilentKeepsAdmissions(s: Session, s': Session)
    requires AdmissionsFit(s) && Progress(s, s')
    requires forall i :: |s.log| <= i < |s'.log| ==> !s'.log[i].Admitted?
    ensures AdmissionsFit(s')
  {
    forall m: nat | m < |s'.log| && s'.log[m].Admitted? ensures AdmissionFits(s', m) {
      OldAdmissionsFit(s, s', m);
    }
  }

  lemma MicroKeepsAdmissions(s: Session, t: ClaimId, others: nat, paused: bool)
    requires AdmissionsFit(s) && EpochCounts(s) && Timed(s) && t < |s.store.claims|
    requires TaskEnabled(s, t, BeginMicro(others, paused))
    ensures AdmissionsFit(MicroStep(s, t, others, paused))
  {
    var s' := MicroStep(s, t, others, paused);
    TaskProgress(s, t, BeginMicro(others, paused));
    if GateOpen(ProbeStep(s, others).store, s.store.claims[t].origin.planned, others) {
      OpenGateLog(s, t, others, paused);
      forall m: nat | m < |s'.log| && s'.log[m].Admitted? ensures AdmissionFits(s', m) {
        if m < |s.log| {
          OldAdmissionsFit(s, s', m);
        } else {
          assert m == |s.log| && s'.log[..m] == s.log;
          assert SameIdentity(s.store.claims[t], s'.store.claims[t]);
        }
      }
    } else {
      SilentKeepsAdmissions(s, s');
    }
  }

  /** Only gates admit, and only tasks emit. */
  predicate MicroEvent(e: Event) { e.Admitted? || e.Emitted? }

  lemma OnlyTasksEmit(s: Session, l: Label)
    requires Enabled(s, l) && !(l.ByTask? && (l.step.BeginMicro? || l.step.Emit?))
    ensures s.log <= Step(s, l).log
    ensures forall i :: |s.log| <= i < |Step(s, l).log| ==> !MicroEvent(Step(s, l).log[i])
  {
    match l
    case Arrive(req) => EnterKeepsGuards(s, req, None, None);
    case Approve(a) =>
      EnterKeepsGuards(s, ApprovedRequest(s.approvals[a]), Some(s.approvals[a].digest), Some(a));
    case ByCall(c, m) =>
      var s' := CallStep(s, c, m);
      if Passive(m) { PassiveFrame(s, c, m); }
      if m.TakeClaim? { ClaimProgress(s, c); }
      assert forall i :: |s.log| <= i < |s'.log| ==> s'.log[i] == Delta(s, s')[i - |s.log|];
    case ByTask(t, m) =>
    case ByWorld(e) =>
      WorldProgress(s, e);
  }

  lemma StepKeepsAdmissions(s: Session, l: Label)
    requires AdmissionsFit(s) && EpochCounts(s) && Timed(s) && Enabled(s, l)
    ensures AdmissionsFit(Step(s, l))
  {
    if l.ByTask? && l.step.BeginMicro? {
      MicroKeepsAdmissions(s, l.claim, l.step.others, l.step.paused);
    } else {
      if !(l.ByTask? && l.step.Emit?) { OnlyTasksEmit(s, l); }
      StepProgress(s, l);
      SilentKeepsAdmissions(s, Step(s, l));
    }
  }

  // ---- emissions ------------------------------------------------------------------ //

  lemma OwnAdmissionKept(log: seq<Event>, log': seq<Event>, a: nat, m: nat, t: ClaimId)
    requires OwnAdmission(log, a, m, t) && log <= log'
    ensures OwnAdmission(log', a, m, t)
  {
    assert forall k :: 0 <= k < |log| ==> log'[k] == log[k];
  }

  /** The last admission of a task stays its last over events that admit nothing for it. */
  lemma AdmissionExtends(log: seq<Event>, d: seq<Event>, t: ClaimId)
    requires HasAdmission(log, |log|, t)
    requires forall i :: 0 <= i < |d| ==> !(d[i].Admitted? && d[i].claim == t)
    ensures HasAdmission(log + d, |log + d|, t)
  {
    var a :| OwnAdmission(log, a, |log|, t);
    assert OwnAdmission(log + d, a, |log + d|, t);
  }

  /** Old reports keep their admissions; new ones must show theirs. */
  lemma EmissionsGrow(log: seq<Event>, log': seq<Event>)
    requires EmissionsAdmitted(log) && log <= log'
    requires forall m: nat :: |log| <= m < |log'| && log'[m].Emitted? ==> HasAdmission(log', m, log'[m].claim)
    requires forall a: nat :: |log| <= a < |log'| && log'[a].Admitted? && !log'[a].paused ==>
               a + 1 < |log'| && log'[a + 1] == Emitted(log'[a].claim)
    ensures EmissionsAdmitted(log')
  {
    forall m: nat | m < |log'| && log'[m].Emitted? ensures HasAdmission(log', m, log'[m].claim) {
      if m < |log| {
        assert log'[m] == log[m];
        var a :| OwnAdmission(log, a, m, log[m].claim);
        OwnAdmissionKept(log, log', a, m, log[m].claim);
      }
    }
    forall a: nat | a < |log'| && log'[a].Admitted? && !log'[a].paused
      ensures a + 1 < |log'| && log'[a + 1] == Emitted(log'[a].claim)
    {
      if a < |log| { assert log'[a] == log[a] && log'[a + 1] == log[a + 1]; }
    }
  }

  /** A step that neither admits nor emits and puts no task in flight. */
  lemma SilentKeepsEmissions(s: Session, s': Session)
    requires EmissionsAdmitted(s.log) && FlightsAdmitted(s) && s.log <= s'.log
    requires forall i :: |s.log| <= i < |s'.log| ==> !MicroEvent(s'.log[i])
    requires forall t :: InFlight(s'.store, t) ==> InFlight(s.store, t)
    ensures EmissionsAdmitted(s'.log) && FlightsAdmitted(s')
  {
    EmissionsGrow(s.log, s'.log);
    var d := s'.log[|s.log|..];
    assert s'.log == s.log + d;
    forall t | InFlight(s'.store, t) ensures HasAdmission(s'.log, |s'.log|, t) {
      AdmissionExtends(s.log, d, t);
    }
  }

  lemma FreshAdmission(log: seq<Event>, e: Event, d: seq<Event>)
    requires e.Admitted? && forall i :: 0 <= i < |d| ==> !d[i].Admitted?
    ensures OwnAdmission(log + [e] + d, |log|, |log + [e] + d|, e.claim)
  {
  }

  /** The tasks in flight after the gate of task `t`. */
  lemma OthersStayInFlight(s: Session, s': Session, t: ClaimId, d: seq<Event>)
    requires FlightsAdmitted(s) && s'.log == s.log + d
    requires forall u :: InFlight(s'.store, u) && u != t ==> InFlight(s.store, u)
    requires forall i :: 0 <= i < |d| && d[i].Admitted? ==> d[i].claim == t
    requires HasAdmission(s'.log, |s'.log|, t)
    ensures FlightsAdmitted(s')
  {
    forall u | InFlight(s'.store, u) ensures HasAdmission(s'.log, |s'.log|, u) {
      if u != t { AdmissionExtends(s.log, d, u); }
    }
  }

  lemma AdmitKeepsEmissions(s: Session, t: ClaimId, others: nat, paused: bool)
    requires EmissionsAdmitted(s.log) && FlightsAdmitted(s) && t < |s.store.claims|
    requires GateOpen(ProbeStep(s, others).store, s.store.claims[t].origin.planned, others)
    ensures var s' := MicroStep(s, t, others, paused);
            EmissionsAdmitted(s'.log) && FlightsAdmitted(s')
  {
    var s' := MicroStep(s, t, others, paused);
    var e := Admitted(t, others, paused);
    var d: seq<Event> := if paused then [] else [Emitted(t)];
    OpenGateLog(s, t, others, paused);
    FreshAdmission(s.log, e, d);
    assert s'.log == s.log + [e] + d == s.log + ([e] + d);
    assert s'.log[|s.log|] == e && OwnAdmission(s'.log, |s.log|, |s.log| + 1, t);
    EmissionsGrow(s.log, s'.log);
    OthersStayInFlight(s, s', t, [e] + d);
  }

  lemma EmitKeepsEmissions(s: Session, t: ClaimId)
    requires EmissionsAdmitted(s.log) && FlightsAdmitted(s) && InFlight(s.store, t)
    ensures EmissionsAdmitted(EmitStep(s, t).log) && FlightsAdmitted(EmitStep(s, t))
  {
    var s' := EmitStep(s, t);
    var a :| OwnAdmission(s.log, a, |s.log|, t);
    OwnAdmissionKept(s.log, s'.log, a, |s.log|, t);
    EmissionsGrow(s.log, s'.log);
    AdmissionExtends(s.log, [Emitted(t)], t);
    OthersStayInFlight(s, s', t, [Emitted(t)]);
  }

  lemma TaskKeepsEmissions(s: Session, t: ClaimId, m: TaskMove)
    requires EmissionsAdmitted(s.log) && FlightsAdmitted(s) && t < |s.store.claims| && TaskEnabled(s, t, m)
    ensures EmissionsAdmitted(TaskStep(s, t, m).log) && FlightsAdmitted(TaskStep(s, t, m))
  {
    match m
    case BeginMicro(others, paused) =>
      if GateOpen(ProbeStep(s, others).store, s.store.claims[t].origin.planned, others) {
        AdmitKeepsEmissions(s, t, others, paused);
      } else {
        SilentKeepsEmissions(s, TaskStep(s, t, m));
      }
    case Emit => EmitKeepsEmissions(s, t);
    case _ => SilentKeepsEmissions(s, TaskStep(s, t, m));
  }

  lemma StepKeepsEmissions(s: Session, l: Label)
    requires EmissionsAdmitted(s.log) && FlightsAdmitted(s) && Enabled(s, l)
    ensures EmissionsAdmitted(Step(s, l).log) && FlightsAdmitted(Step(s, l))
  {
    if l.ByTask? {
      TaskKeepsEmissions(s, l.claim, l.step);
    } else {
      OnlyTasksEmit(s, l);
      OutsidePhases(s, l);
      SilentKeepsEmissions(s, Step(s, l));
    }
  }
}
