/** The shared control state of one session and the synchronous pieces of
    `run_burst` that read and write it.

    A burst digest is a SHA-256 over the whole proposal; the model treats it as
    injective, so a `Digest` simply names the proposal.  The in-flight record that
    two dictionaries share by reference is an element of `claims`, and its index
    stands for the object's identity. */
module BurstStore {
  import opened Options
  import Text

  type Key = string
  type Digest = string
  type ClaimId = nat

  datatype Word =
    | Completed | Interrupted | Failed | Unverified | Stopped | Blocked
    | Conflict | FreshnessRequired | StaleWorld | ControlChanged | NeedsApproval

  datatype SessionStatus = StatusRunning | StatusPaused | StatusNeedsApproval | StatusFailed | StatusDone

  /** What a caller gets back: a status word, the number of completed actions and
      the flags that mark a replayed answer. */
  datatype Reply = Reply(
    status: Word, completed: nat,
    inflightReplay: bool, aliasReplay: bool, idempotentReplay: bool, semanticReplay: bool)

  function Plain(status: Word, completed: nat): Reply {
    Reply(status, completed, false, false, false, false)
  }

  datatype ReceiptState = ReceiptCompleted | ReceiptPending | ReceiptRejected | ReceiptResolved
  datatype Receipt = Receipt(digest: Digest, state: ReceiptState, reply: Reply)

  /** How a burst task ends: an outcome, or a `BurstError`, which carries none. */
  datatype Outcome = Returned(status: Word, completed: nat) | Raised

  /** HID was issued and the burst is not known to have completed. */
  predicate Unsafe(o: Outcome) {
    o.Returned? && o.completed > 0 && o.status != Completed
  }

  /** The words an outcome may be published under: its own, or the overriding ones. */
  predicate Describes(word: Word, o: Outcome) {
    o.Returned? && (word == o.status || word == Stopped || word == Failed)
  }

  /** Where a running task is: between micro-actions, waiting with an admitted one that has
      not reached the backend yet, or inside the backend call of one. */
  datatype Stage = Between | Pausing | Emitting

  datatype Phase = Created | Running(stage: Stage) | Ended(outcome: Outcome)

  /** Where a claim's authority comes from.  `planned` is the epoch its gate
      compares against; the other fields are history used to state theorems:
      the log length when the planning call observed the screen, whether the policy
      asked for approval, the approval the call was made under, and the call itself. */
  datatype Origin = Origin(planned: int, observedAt: nat, needsApproval: bool, via: Option<nat>, call: nat)

  /** `finished` and `words` are history: some waiter has published this claim's receipt,
      and the status words it was published under. */
  datatype Claim = Claim(
    digest: Digest, ownerKey: Key, keys: set<Key>, origin: Origin, phase: Phase, finished: bool, words: set<Word>)

  datatype Store = Store(
    epoch: int, stopped: bool, status: SessionStatus, blockActive: bool,
    idempotency: map<Key, Receipt>,
    inflight: map<Key, ClaimId>,
    semantic: map<Digest, ClaimId>,
    unsafe: map<Digest, Reply>,
    claims: seq<Claim>)

  const FRESH := Store(0, false, StatusRunning, false, map[], map[], map[], map[], [])

  // ---- authority -------------------------------------------------------- //

  function Revoke(s: Store): Store { s.(epoch := s.epoch + 1) }

  function Latch(s: Store): Store { s.(epoch := s.epoch + 1, stopped := true) }

  function Aborted(s: Store): Store { Latch(s).(status := StatusFailed) }

  /** Human cursor reports skip stopped sessions. */
  function RevokedByHuman(s: Store): Store {
    if s.stopped then s else Revoke(s)
  }

  /** Panic reports and fails a session only if it was not already terminal. */
  predicate Haltable(status: SessionStatus) {
    status == StatusRunning || status == StatusNeedsApproval || status == StatusPaused
  }

  function PanicLatched(s: Store): Store {
    Latch(s).(status := if Haltable(s.status) then StatusFailed else s.status)
  }

  /** A newly visible machine client revokes control once per connection. */
  function NoticeClients(s: Store, others: nat): Store {
    if others > 0 && !s.blockActive then Revoke(s).(blockActive := true) else s
  }

  /** The gate's answer, read after `NoticeClients`. */
  predicate GateOpen(s: Store, planned: int, others: nat) {
    !s.stopped && s.epoch == planned && others == 0
  }

  // ---- receipts --------------------------------------------------------- //

  /** The idempotency check made on entry and again under the claim lock. */
  function PriorAnswer(s: Store, key: Key, digest: Digest, approved: Option<Digest>): Option<Reply> {
    if key !in s.idempotency then None
    else
      var prior := s.idempotency[key];
      if prior.digest != digest then Some(Plain(Conflict, 0))
      else if prior.state != ReceiptPending || approved != Some(digest) then
        Some(prior.reply.(idempotentReplay := true))
      else None
  }

  /** Replaying a retained unsafe receipt also records it under the caller's key. */
  function RecordSemantic(s: Store, key: Key, digest: Digest): Store {
    if digest in s.unsafe then
      s.(idempotency := s.idempotency[key := Receipt(digest, ReceiptCompleted, s.unsafe[digest])])
    else s
  }

  function SemanticAnswer(s: Store, digest: Digest): Option<Reply> {
    if digest in s.unsafe then
      Some(s.unsafe[digest].(aliasReplay := true, semanticReplay := true))
    else None
  }

  // ---- entry and freshness ------------------------------------------------ //

  /** `epoch` is the control epoch the caller planned against, `worldGiven` whether it
      named a world version at all, `valid` the verdict of the action validator. */
  datatype Request = Request(
    key: Option<string>, digest: Digest, worldGiven: bool, epoch: Option<int>, valid: bool)

  const MAX_KEY := 160

  function CallerKey(req: Request): Key {
    if req.key.None? then "" else Text.Strip(req.key.value)
  }

  /** `run_burst` up to its first await: the answer, if the call ends there. */
  function Admit(s: Store, req: Request, approved: Option<Digest>): (Store, Option<Reply>) {
    var key := CallerKey(req);
    if s.stopped then (s, Some(Plain(Stopped, 0)))
    else if !req.valid then (s.(status := StatusPaused), Some(Plain(Failed, 0)))
    else if key == "" || |key| > MAX_KEY then (s, Some(Plain(Failed, 0)))
    else
      var prior := PriorAnswer(s, key, req.digest, approved);
      if prior.Some? then (s, prior)
      else if req.digest in s.unsafe then
        (RecordSemantic(s, key, req.digest), SemanticAnswer(s, req.digest))
      else if !req.worldGiven || req.epoch.None? then (s, Some(Plain(FreshnessRequired, 0)))
      else (s, None)
  }

  /** The checks made on the captured frame, before grounding. */
  function CheckAuthority(s: Store, planned: int, current: bool, others: nat): (Store, Option<Reply>) {
    if !current then (s, Some(Plain(StaleWorld, 0)))
    else if s.epoch != planned then (s, Some(Plain(ControlChanged, 0)))
    else if others > 0 then (NoticeClients(s, others), Some(Plain(ControlChanged, 0)))
    else (s.(blockActive := false), None)
  }

  // ---- claims ----------------------------------------------------------- //

  datatype ClaimDecision =
    | Answered(reply: Reply)
    | Joined(claim: ClaimId, alias: bool)
    | Opened(claim: ClaimId)

  function OpenClaim(s: Store, key: Key, digest: Digest, origin: Origin): Store {
    var c := |s.claims|;
    s.(claims := s.claims + [Claim(digest, key, {key}, origin, Created, false, {})],
       inflight := s.inflight[key := c],
       semantic := s.semantic[digest := c])
  }

  function AliasClaim(s: Store, key: Key, c: ClaimId): Store
    requires c < |s.claims|
  {
    var claim := s.claims[c];
    s.(claims := s.claims[c := claim.(keys := claim.keys + {key})],
       inflight := s.inflight[key := c])
  }

  /** Indexes only ever name existing claims. */
  predicate IndexesInRange(s: Store) {
    (forall k :: k in s.inflight ==> s.inflight[k] < |s.claims|) &&
    (forall d :: d in s.semantic ==> s.semantic[d] < |s.claims|)
  }

  /** Everything done under the claim lock, up to and including `status = running`. */
  function ClaimOrJoin(s: Store, key: Key, digest: Digest, approved: Option<Digest>, origin: Origin)
    : (r: (Store, ClaimDecision))
    requires IndexesInRange(s)
  {
    var prior := PriorAnswer(s, key, digest, approved);
    if prior.Some? then (s, Answered(prior.value))
    else if digest in s.unsafe then
      (RecordSemantic(s, key, digest), Answered(SemanticAnswer(s, digest).value))
    else if key in s.inflight then
      var c := s.inflight[key];
      if s.claims[c].digest != digest then (s, Answered(Plain(Conflict, 0)))
      else (s.(status := StatusRunning), Joined(c, s.claims[c].ownerKey != key))
    else if digest in s.semantic then
      var c := s.semantic[digest];
      (AliasClaim(s, key, c).(status := StatusRunning), Joined(c, s.claims[c].ownerKey != key))
    else
      (OpenClaim(s, key, digest, origin).(status := StatusRunning), Opened(|s.claims|))
  }

  /** The receipts after `receipt` has been written under `keys`. */
  function Published(idempotency: map<Key, Receipt>, keys: set<Key>, receipt: Receipt): map<Key, Receipt> {
    idempotency + (map k | k in keys :: receipt)
  }

  /** The key index once every entry of `keys` that still names claim `c` is gone. */
  function Popped(inflight: map<Key, ClaimId>, keys: set<Key>, c: ClaimId): map<Key, ClaimId> {
    map k | k in inflight && !(k in keys && inflight[k] == c) :: inflight[k]
  }

  /** Publish a claim's receipt under every key that joined it, take it out of both
      indexes where it is still the one indexed, and retain it if it is unsafe. */
  function Finish(s: Store, c: ClaimId, key: Key, digest: Digest, reply: Reply, retain: bool): Store
    requires c < |s.claims|
  {
    var base := reply.(inflightReplay := false, aliasReplay := false);
    var keys := if s.claims[c].keys == {} then {key} else s.claims[c].keys;
    s.(
      claims := s.claims[c := s.claims[c].(finished := true, words := s.claims[c].words + {reply.status})],
      idempotency := Published(s.idempotency, keys, Receipt(digest, ReceiptCompleted, base)),
      inflight := Popped(s.inflight, keys, c),
      semantic := if digest in s.semantic && s.semantic[digest] == c then s.semantic - {digest} else s.semantic,
      unsafe := if retain then s.unsafe[digest := base] else s.unsafe)
  }

  function SetPhase(s: Store, c: ClaimId, phase: Phase): Store
    requires c < |s.claims|
  {
    s.(claims := s.claims[c := s.claims[c].(phase := phase)])
  }

  // ---- tasks that may emit -------------------------------------------------- //

  /** The active set and the idle event once `task` has begun. */
  function Entered<T(==)>(active: set<T>, task: T): (set<T>, bool) { (active + {task}, false) }

  /** The same once `task` has ended: the event is set when nothing is left. */
  function Departed<T(==)>(active: set<T>, idle: bool, task: T): (set<T>, bool) {
    var rest := active - {task};
    (rest, if rest == {} then true else idle)
  }

  // ---- approvals -------------------------------------------------------- //

  /** The approval-pending store that ends a held call.  It does not look at what the
      key already holds. */
  function StorePending(s: Store, key: Key, digest: Digest): Store {
    s.(idempotency := s.idempotency[key := Receipt(digest, ReceiptPending, Plain(NeedsApproval, 0))])
  }

  /** A human decision other than approve rewrites whatever receipt the key holds. */
  function CloseReceipt(s: Store, key: Key, state: ReceiptState): Store {
    (if key in s.idempotency then
      s.(idempotency := s.idempotency[key := s.idempotency[key].(state := state, reply := Plain(Blocked, 0))])
     else s).(status := StatusPaused)
  }

  // ---- after the burst -------------------------------------------------- //

  /** The status word published for an outcome. */
  function Effective(s: Store, o: Outcome, evidenceFailed: bool): Word
    requires o.Returned?
  {
    if s.stopped then Stopped else if evidenceFailed then Failed else o.status
  }

  /** The session once an outcome has been settled. */
  function Settled(s: Store): Store { s.(status := if s.stopped then StatusFailed else StatusPaused) }
}
