/** Concrete runs in which a promise fails.  In the first, one approval starts the same burst
    twice under one key: the approval-pending store of the held call lands after the approved
    call has already executed and published, and reopens the key. */
module BurstWitness {
  import opened Options
  import opened BurstStore
  import opened BurstProtocol
  import opened BurstInvariant
  import opened BurstRuntime
  import opened BurstTheorems
  import opened BurstBrake
  import Text

  /** Some reachable state of the runtime has this session. */
  ghost predicate Occurs(sid: Sid, s: Session) { Leads(BOOT, sid, s) }

  lemma OccursStep(sid: Sid, s: Session, l: Label)
    requires Occurs(sid, s) && Enabled(s, l) && IsLocal(l)
    ensures Occurs(sid, Step(s, l))
  {
    LeadsStep(BOOT, sid, s, l);
  }

  lemma OccursNew(sid: Sid)
    ensures Occurs(sid, NEW_SESSION)
  {
    assert Reaches(BOOT, [], BOOT);
    ReachesAppend(BOOT, [], BOOT, OpenSession(sid));
    assert Reaches(BOOT, [OpenSession(sid)], Next(BOOT, OpenSession(sid)));
    assert Next(BOOT, OpenSession(sid)).sessions[sid] == NEW_SESSION;
  }

  // ---- the run ------------------------------------------------------------------ //

  const REQUEST := Request(Some("k"), "d", true, Some(0), true)
  const ALONE := Some(Sight(true, 0))
  const FIRST := Call("k", "d", 0, None, None, 0, None, None, Capturing)
  const HELD_CALL := FIRST.(sight := ALONE, verdict := Some(ApprovalRequired), phase := MarkingStatus)
  const SECOND := FIRST.(approved := Some("d"), via := Some(0))
  const APPROVED_CALL := SECOND.(sight := ALONE, verdict := Some(ApprovalRequired))
  const REQUESTED := Approval("k", "d", 0, 0, 0, true)
  const ORIGIN := Origin(0, 0, true, Some(0), 1)
  const REPLY := Plain(Completed, 1)

  /** The held call has saved its request and awaits the status update. */
  const HELD := Session(FRESH, [HELD_CALL], [REQUESTED], {}, [])

  lemma ReachGrounding(sid: Sid)
    ensures Occurs(sid, NEW_SESSION.(calls := [FIRST.(sight := ALONE, phase := Grounding)]))
  {
    OccursNew(sid);
    Text.StripOfTrimmed("k");
    OccursStep(sid, NEW_SESSION, Arrive(REQUEST));
    var s1 := Step(NEW_SESSION, Arrive(REQUEST));
    assert s1 == NEW_SESSION.(calls := [FIRST]);
    OccursStep(sid, s1, ByCall(0, Observe(true, 0)));
    assert Step(s1, ByCall(0, Observe(true, 0))) == NEW_SESSION.(calls := [FIRST.(sight := ALONE, phase := Grounding)]);
  }

  lemma ReachHeld(sid: Sid)
    ensures Occurs(sid, HELD)
  {
    ReachGrounding(sid);
    var s2 := NEW_SESSION.(calls := [FIRST.(sight := ALONE, phase := Grounding)]);
    OccursStep(sid, s2, ByCall(0, Classify(ApprovalRequired)));
    var s3 := Step(s2, ByCall(0, Classify(ApprovalRequired)));
    assert s3 == NEW_SESSION.(calls := [HELD_CALL.(phase := SavingApproval)]);
    OccursStep(sid, s3, ByCall(0, SaveApproval));
    assert Step(s3, ByCall(0, SaveApproval)) == HELD;
  }

  /** From any state like `s`, approving request 0 brings the new call to the claim lock. */
  lemma ReachClaiming(sid: Sid, s: Session)
    requires Occurs(sid, s) && s.approvals == [REQUESTED]
    requires !s.store.stopped && s.store.epoch == 0 && !s.store.blockActive && "d" !in s.store.unsafe
    requires "k" in s.store.idempotency ==>
      s.store.idempotency["k"].state == ReceiptPending && s.store.idempotency["k"].digest == "d"
    ensures Occurs(sid, s.(calls := s.calls + [APPROVED_CALL.(observedAt := |s.log|, phase := Claiming(true))]))
  {
    var c := |s.calls|;
    Text.StripOfTrimmed("k");
    OccursStep(sid, s, Approve(0));
    var s1 := Step(s, Approve(0));
    assert s1 == s.(calls := s.calls + [SECOND]);
    OccursStep(sid, s1, ByCall(c, Observe(true, 0)));
    var s2 := Step(s1, ByCall(c, Observe(true, 0)));
    assert s2 == s.(calls := s.calls + [SECOND.(observedAt := |s.log|, sight := ALONE, phase := Grounding)]);
    OccursStep(sid, s2, ByCall(c, Classify(ApprovalRequired)));
    assert Step(s2, ByCall(c, Classify(ApprovalRequired))) ==
      s.(calls := s.calls + [APPROVED_CALL.(observedAt := |s.log|, phase := Claiming(true))]);
  }

  const CLAIMED :=
    HELD.(store := FRESH.(claims := [Claim("d", "k", {"k"}, ORIGIN, Created, false, {})],
                          inflight := map["k" := 0], semantic := map["d" := 0]),
          calls := [HELD_CALL, APPROVED_CALL.(phase := Waiting(0, false, false))],
          log := [Started(0, "k", "d")])

  lemma ReachClaimed(sid: Sid)
    ensures Occurs(sid, CLAIMED)
  {
    ReachHeld(sid);
    ReachClaiming(sid, HELD);
    var s := HELD.(calls := [HELD_CALL, APPROVED_CALL.(phase := Claiming(true))]);
    OccursStep(sid, s, ByCall(1, TakeClaim));
    assert Step(s, ByCall(1, TakeClaim)) == CLAIMED;
  }

  const RAN :=
    CLAIMED.(store := CLAIMED.store.(claims := [Claim("d", "k", {"k"}, ORIGIN, Ended(Returned(Completed, 1)), false, {})]),
             log := [Started(0, "k", "d"), Admitted(0, 0, false), Emitted(0), TaskEnded(0, Returned(Completed, 1))])

  /** Its task in the middle of its only micro-action's aftermath. */
  const EMITTED :=
    CLAIMED.(store := CLAIMED.store.(claims := [Claim("d", "k", {"k"}, ORIGIN, Running(Emitting), false, {})]),
             log := [Started(0, "k", "d"), Admitted(0, 0, false), Emitted(0)])

  lemma ReachEmitted(sid: Sid)
    ensures Occurs(sid, EMITTED)
  {
    ReachClaimed(sid);
    OccursStep(sid, CLAIMED, ByTask(0, StartTask));
    var s1 := Step(CLAIMED, ByTask(0, StartTask));
    OccursStep(sid, s1, ByTask(0, BeginMicro(0, false)));
    assert Step(s1, ByTask(0, BeginMicro(0, false))) == EMITTED;
  }

  lemma ReachRan(sid: Sid)
    ensures Occurs(sid, RAN)
  {
    ReachEmitted(sid);
    OccursStep(sid, EMITTED, ByTask(0, EndMicro));
    var s3 := Step(EMITTED, ByTask(0, EndMicro));
    OccursStep(sid, s3, ByTask(0, EndTask(Returned(Completed, 1))));
    assert Step(s3, ByTask(0, EndTask(Returned(Completed, 1)))) == RAN;
  }

  const PUBLISHED_STORE :=
    FRESH.(status := StatusPaused,
           claims := [Claim("d", "k", {"k"}, ORIGIN, Ended(Returned(Completed, 1)), true, {Completed})],
           idempotency := map["k" := Receipt("d", ReceiptCompleted, REPLY)])
  const PUBLISHED :=
    RAN.(store := PUBLISHED_STORE, calls := [HELD_CALL, APPROVED_CALL.(phase := Done(REPLY))])

  const CAPTURED :=
    RAN.(store := RAN.store.(status := StatusPaused),
         calls := [HELD_CALL, APPROVED_CALL.(phase := Publishing(0, false, false, Completed, 4, false))])

  lemma ReachCaptured(sid: Sid)
    ensures Occurs(sid, CAPTURED)
  {
    ReachRan(sid);
    OccursStep(sid, RAN, ByCall(1, Resume));
    var s1 := Step(RAN, ByCall(1, Resume));
    assert s1 == RAN.(calls := [HELD_CALL, APPROVED_CALL.(phase := Settling(0, false, false))]);
    OccursStep(sid, s1, ByCall(1, Capture(false)));
    assert Step(s1, ByCall(1, Capture(false))) == CAPTURED;
  }

  lemma FinishCaptured()
    ensures Finish(CAPTURED.store, 0, "k", "d", REPLY, false) == PUBLISHED_STORE
  {
    var st := Finish(CAPTURED.store, 0, "k", "d", REPLY, false);
    assert st.idempotency == PUBLISHED_STORE.idempotency;
    assert st.inflight == map[] && st.semantic == map[];
    assert {} + {Completed} == {Completed};
    assert st.claims == PUBLISHED_STORE.claims;
  }

  lemma ReachPublished(sid: Sid)
    ensures Occurs(sid, PUBLISHED)
  {
    ReachCaptured(sid);
    FinishCaptured();
    OccursStep(sid, CAPTURED, ByCall(1, Publish));
    var s := PublishStep(CAPTURED, 1);
    assert s.store == PUBLISHED_STORE;
    assert s == PUBLISHED;
  }

  const REOPENED :=
    PUBLISHED.(store := StorePending(PUBLISHED_STORE.(status := StatusNeedsApproval), "k", "d"),
               calls := [HELD_CALL.(phase := Done(Plain(NeedsApproval, 0))), APPROVED_CALL.(phase := Done(REPLY))],
               log := RAN.log + [PendingStored("k")])

  lemma ReachReopened(sid: Sid)
    ensures Occurs(sid, REOPENED)
  {
    ReachPublished(sid);
    OccursStep(sid, PUBLISHED, ByCall(0, MarkNeedsApproval));
    var s1 := Step(PUBLISHED, ByCall(0, MarkNeedsApproval));
    OccursStep(sid, s1, ByCall(0, HoldReply));
    assert Step(s1, ByCall(0, HoldReply)) == REOPENED;
  }

  /** The same request, approved once more, is back at the claim lock. */
  const ASKED := REOPENED.(calls := REOPENED.calls + [APPROVED_CALL.(observedAt := 5, phase := Claiming(true))])

  lemma ReachAsked(sid: Sid)
    ensures Occurs(sid, ASKED)
  {
    ReachReopened(sid);
    ReachClaiming(sid, REOPENED);
  }

  /** The key that already ran once starts a second task for the same approval. */
  lemma SameKeyStartsTwice(sid: Sid)
    ensures exists s :: Occurs(sid, s) && |s.log| == 6 && s.approvals == [REQUESTED] &&
              s.log[0] == Started(0, "k", "d") && s.log[2] == Emitted(0) && s.log[5] == Started(1, "k", "d")
  {
    ReachAsked(sid);
    var s := ASKED;
    OccursStep(sid, s, ByCall(2, TakeClaim));
    assert Step(s, ByCall(2, TakeClaim)).log == REOPENED.log + [Started(1, "k", "d")];
    assert Occurs(sid, Step(s, ByCall(2, TakeClaim)));
  }

  // ---- bursts that are repeated under a regenerated key ------------------------------- //

  const FREE := Origin(0, 0, false, None, 0)
  const OWNER := Call("k", "d", 0, None, None, 0, ALONE, Some(Permitted), Waiting(0, false, false))
  const RUNNING := Restarted(NEW_SESSION, "k", "d")

  /** The task of the first burst has emitted once and ended with this outcome. */
  function EndedWith(o: Outcome): Session {
    Session(FRESH.(claims := [Claim("d", "k", {"k"}, FREE, Ended(o), false, {})],
                   inflight := map["k" := 0], semantic := map["d" := 0]),
            [OWNER], [], {}, [Started(0, "k", "d"), Admitted(0, 0, false), Emitted(0), TaskEnded(0, o)])
  }

  /** The same in the middle of its only micro-action. */
  const EMITTING :=
    Session(FRESH.(claims := [Claim("d", "k", {"k"}, FREE, Running(Emitting), false, {})],
                   inflight := map["k" := 0], semantic := map["d" := 0]),
            [OWNER], [], {}, [Started(0, "k", "d"), Admitted(0, 0, false), Emitted(0)])

  /** The task runs and has not passed a gate yet. */
  const BEGUN :=
    Session(FRESH.(claims := [Claim("d", "k", {"k"}, FREE, Running(Between), false, {})],
                   inflight := map["k" := 0], semantic := map["d" := 0]),
            [OWNER], [], {}, [Started(0, "k", "d")])

  lemma ReachBegun(sid: Sid)
    ensures Occurs(sid, BEGUN)
  {
    OccursNew(sid);
    Text.StripOfTrimmed("k");
    CanStart(BOOT, sid, NEW_SESSION, "k", "d");
    OccursStep(sid, RUNNING, ByTask(0, StartTask));
    assert Step(RUNNING, ByTask(0, StartTask)) == BEGUN;
  }

  lemma ReachEmitting(sid: Sid)
    ensures Occurs(sid, EMITTING)
  {
    ReachBegun(sid);
    OccursStep(sid, BEGUN, ByTask(0, BeginMicro(0, false)));
    assert Step(BEGUN, ByTask(0, BeginMicro(0, false))) == EMITTING;
  }

  lemma ReachEnded(sid: Sid, o: Outcome)
    ensures Occurs(sid, EndedWith(o))
  {
    ReachEmitting(sid);
    OccursStep(sid, EMITTING, ByTask(0, EndMicro));
    var s3 := Step(EMITTING, ByTask(0, EndMicro));
    OccursStep(sid, s3, ByTask(0, EndTask(o)));
    assert Step(s3, ByTask(0, EndTask(o))) == EndedWith(o);
  }

  /** Once published without retention, the burst starts again under another key. */
  lemma RepeatsFrom(sid: Sid, s: Session, log: seq<Event>)
    requires Occurs(sid, s) && s.log == log && IndexesInRange(s.store)
    requires !s.store.stopped && "d" !in s.store.unsafe && "d" !in s.store.semantic && !Seen(s.store, "k2")
    ensures exists s' :: Occurs(sid, s') && s'.log == log + [Started(|s.store.claims|, "k2", "d")]
  {
    Text.StripOfTrimmed("k2");
    CanStart(BOOT, sid, s, "k2", "d");
    assert Occurs(sid, Restarted(s, "k2", "d"));
  }

  /** A burst that emitted and then raised is repeated under a regenerated key. */
  lemma RaisedIsRepeated(sid: Sid)
    ensures exists s :: Occurs(sid, s) &&
              s.log == [Started(0, "k", "d"), Admitted(0, 0, false), Emitted(0), TaskEnded(0, Raised),
                        Started(1, "k2", "d")]
  {
    ReachEnded(sid, Raised);
    var s := EndedWith(Raised);
    OccursStep(sid, s, ByCall(0, Resume));
    var s' := Step(s, ByCall(0, Resume));
    RepeatsFrom(sid, s', s.log);
  }

  const NOTHING_DONE := Returned(Failed, 0)

  /** Its failure has been captured and is about to be published. */
  const SETTLED :=
    EndedWith(NOTHING_DONE).(store := EndedWith(NOTHING_DONE).store.(status := StatusPaused),
                             calls := [OWNER.(phase := Publishing(0, false, false, Failed, 4, false))])

  lemma ReachSettled(sid: Sid)
    ensures Occurs(sid, SETTLED)
  {
    ReachEnded(sid, NOTHING_DONE);
    var s := EndedWith(NOTHING_DONE);
    OccursStep(sid, s, ByCall(0, Resume));
    var s1 := Step(s, ByCall(0, Resume));
    OccursStep(sid, s1, ByCall(0, Capture(false)));
    assert Step(s1, ByCall(0, Capture(false))) == SETTLED;
  }

  /** So is one whose first action emitted and failed, which reports no completed action. */
  lemma FirstActionIsRepeated(sid: Sid)
    ensures exists s :: Occurs(sid, s) &&
              s.log == [Started(0, "k", "d"), Admitted(0, 0, false), Emitted(0), TaskEnded(0, Returned(Failed, 0)),
                        Started(1, "k2", "d")]
  {
    ReachSettled(sid);
    OccursStep(sid, SETTLED, ByCall(0, Publish));
    RepeatsFrom(sid, Step(SETTLED, ByCall(0, Publish)), SETTLED.log);
  }

  // ---- a stop that lands in a pause --------------------------------------------------- //

  /** The first micro-action has been admitted and waits for its baseline screenshot. */
  const PAUSED :=
    Session(FRESH.(claims := [Claim("d", "k", {"k"}, FREE, Running(Pausing), false, {})],
                   inflight := map["k" := 0], semantic := map["d" := 0]),
            [OWNER], [], {}, [Started(0, "k", "d"), Admitted(0, 0, true)])

  lemma ReachPaused(sid: Sid)
    ensures Occurs(sid, PAUSED)
  {
    ReachBegun(sid);
    OccursStep(sid, BEGUN, ByTask(0, BeginMicro(0, true)));
    assert Step(BEGUN, ByTask(0, BeginMicro(0, true))) == PAUSED;
  }

  /** A click before a `wait_for_change` reaches the machine although the session was aborted
      after its gate. */
  lemma AbortedYetEmitted(sid: Sid)
    ensures exists s :: Occurs(sid, s) && s.store.stopped &&
              s.log == [Started(0, "k", "d"), Admitted(0, 0, true), Latched, Emitted(0)]
  {
    ReachPaused(sid);
    OccursStep(sid, PAUSED, ByWorld(Abort));
    var s1 := Step(PAUSED, ByWorld(Abort));
    OccursStep(sid, s1, ByTask(0, Emit));
    var s2 := Step(s1, ByTask(0, Emit));
    assert Occurs(sid, s2) && s2.log == [Started(0, "k", "d"), Admitted(0, 0, true), Latched, Emitted(0)];
  }

  // ---- a stop whose status is overwritten ---------------------------------------------- //

  /** A session aborted while its burst was running ends up resumable on paper, still latched,
      when the burst raises. */
  lemma AbortedYetPaused(sid: Sid)
    ensures exists s :: Occurs(sid, s) && s.store.stopped && s.store.status == StatusPaused
                        && Latched in s.log && |s.calls| == 1 && s.calls[0].phase == Done(Plain(Failed, 0))
  {
    ReachEnded(sid, Raised);
    var s := EndedWith(Raised);
    OccursStep(sid, s, ByWorld(Abort));
    var s1 := Step(s, ByWorld(Abort));
    assert s1.log == s.log + [Latched] && s1.log[|s.log|] == Latched;
    OccursStep(sid, s1, ByCall(0, Resume));
    assert Occurs(sid, Step(s1, ByCall(0, Resume)));
  }
}
