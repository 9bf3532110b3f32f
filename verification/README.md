# A verified model of the PiKVM agent's control core

This project models five pieces of the PiKVM agent and proves what they promise.

1. **The burst execution protocol.** A *burst* is a list of keyboard and mouse actions a
   controller sends in one call. Calls on one session run concurrently, can be retried,
   joined and cancelled, and race with abort, panic, cursor reports, other machine clients
   and human approvals. `BurstStore.dfy` holds the shared state of a session and the
   synchronous pieces of code that read and write it, as functions. `SessionRuntime.dfy` and
   `RuntimeObject.dfy` are the objects whose fields the runtime updates in place; every method
   is proved against those functions. `BurstProtocol.dfy` is the step system: one step is the
   code between two awaits, and a label carries whatever that code cannot decide (what the
   screen shows, what the policy says, how a burst ends, who is cancelled). `BurstRuntime.dfy`
   adds the process: all sessions, the set of tasks that may emit input, and panic.
   `BurstInvariant.dfy`, `BurstSteps.dfy`, `BurstHistory.dfy`, `BurstReceipts.dfy`,
   `BurstEmissions.dfy`, `BurstAnswers.dfy` and `BurstAuthority.dfy` prove that every step keeps
   the invariant; `BurstTheorems.dfy` and `BurstOutcomes.dfy` state the results for every state
   some run from boot reaches (the second: what callers are told, and what a refusal, a stop, a
   client and a human decision put an end to), `BurstBrake.dfy` how far the brake against repeated bursts reaches and what a latched
   session can still emit, and `BurstWitness.dfy` holds the concrete runs in which a
   promise fails.
2. **The text read-back verifier** (`Text.dfy`, `Pieces.dfy`, `EditDistance.dfy`,
   `Overlap.dfy`, `Words.dfy`, `Verification.dfy`, `VerifierTheorems.dfy`,
   `VerifierStatuses.dfy`).
3. **The visual oracle.** The observer paints a snapshot as pages of black and white cells and
   the harness reads them back (`Bits.dfy`, `Crc32.dfy`, `VisualPacket.dfy`,
   `VisualOracle.dfy`, `VisualTheorems.dfy`, `VisualFaults.dfy`). Beside it stand the observer's JSON escaping
   (`JsonEscape.dfy`) and its bounded event window (`EventWindow.dfy`).
4. **The spreadsheet receipt payload** (`SpreadsheetGrid.dfy`).
5. **The guarded transaction loop** (`Transactions.dfy`) and click grounding
   (`Grounding.dfy`).

## How to read the model

- *Atomicity.* The runtime is a single-threaded event loop, so the code between two awaits is
  one step. The claim step is everything under the session's claim lock: it contains no await.
  Waiting for the lock is covered by the arbitrary order of steps.
- *Digests.* A burst digest is a SHA-256 over the whole proposal; the model takes it to be
  injective, so a digest names a proposal.
- *Claims.* The record that the key index and the digest index share by reference is an element
  of a list, and its index stands for the object's identity. `finished`, `words`, a call's
  `sight` and `verdict`, the fields of `origin` other than `planned`, the holder of a request, the
  two last fields of `Publishing` and the log are history: they are written by the steps, and no
  step's outcome depends on them.
- *Epoch bumps.* The log events `Revoked` and `Latched` are exactly the steps that bump the
  control epoch, so counting them in a prefix of the log gives the epoch at that moment.
- *The burst executor* (`pikvm_agent/executor/burst.py:543-701`) is a task that passes a gate
  before each action, chunk or cell and then calls the backend. The log tells the two apart:
  `Admitted` is a gate found open, `Emitted` one HID report. A backend call makes several
  reports with sleeps between them (`pikvm_agent/pikvm/client.py:337-483`) and asks no gate, so
  any number of reports belongs to the last admission. The first follows the gate in the same
  step, unless the executor awaits a screenshot in between: before an action whose successor is
  `wait_for_change` (lines 600-613), and before the later chunks of a watched typing
  (`pikvm_agent/executor/typing.py:6005-6011`). The flag `paused` of an admission says so. Which
  actions a burst holds is otherwise left open. Releasing held keys after a closed gate is not
  counted as a report.
- *The world version* is reduced to one boolean per observation (is the screen still the one
  the caller planned against), and one boolean per request (was a version given at all).
- *Approvals.* The store lookup and the re-entry of an approved call are one step. Several
  rejections of one request may be in flight at once.
- *Verifier.* Letter case follows the ASCII rules. The prompt stripper and the tolerance are
  parameters, so each statement holds for all of them; the content-driven choice of precise
  mode is the `precise` flag; a stripper leaves the empty text alone; the overlap ratio is an exact fraction.
- *Visual oracle.* Bytes are integers below 256, the CRC register is a sequence of 32 bits with
  the least significant first. The reader follows `pikvm_agent/harness/visual_oracle.py`;
  its two library calls, decompression and CRC-32, are parameters. CRC-32 is the one of
  section 8 of RFC 1952, JSON strings are those of section 7 of RFC 8259.
- *Grounding.* The theorems hold for every way of measuring a line against the click, so in
  particular for the box distance the source uses.
- *Transactions.* The typer stops in the middle of a text only to report a failure, so a text
  that verifies was typed whole and any other up to an arbitrary place. The gate and the answers of the typer, the locator and the mode detector are
  arbitrary functions of the position in the action list.

## Findings

- A key can start a second task. The approval-pending store at the end of a held call follows
  two awaits and is not rechecked under the claim lock. If the same request is approved, run
  and published before that store lands, the store reopens the key, and approving once more
  runs the burst again (`BurstWitness.SameKeyStartsTwice`). Without such a store it cannot
  happen (`BurstTheorems.AtMostOncePerKey`), and `BurstTheorems.SecondStartIff` says in terms of
  the claim step's own lookups exactly when it does.
- Uncertain input can be repeated. `pikvm_agent/runtime.py:467-469` wants a burst that touched
  the machine without succeeding never repeated under a regenerated key, but a receipt is
  retained only for an outcome with completed actions. A burst that raises `BurstError` after
  its first actions (an unknown action type passes `validate_actions` at
  `pikvm_agent/executor/burst.py:331` and raises at line 1212) has none to report, and one whose
  first action typed wrong text, failed in the backend or was interrupted reports zero
  (`pikvm_agent/executor/burst.py:633-680`). `BurstWitness.RaisedIsRepeated` and
  `BurstWitness.FirstActionIsRepeated` are the runs. `BurstBrake.EmittedBrakeIff` is the exact
  condition over emissions: a published task that emitted and did not complete can be repeated
  iff it raised or reported no completed action. `BurstBrake.RestartIff` and
  `BurstBrake.ClaimStepIff` say the same of any digest and of the claim step.
- A stop does not hold back a micro-action already admitted. The gate is asked before the
  baseline screenshot of a following `wait_for_change`
  (`pikvm_agent/executor/burst.py:586-614`), and `_dispatch` does not ask again for a key, a
  click, a move or a scroll (lines 952-956, 1184-1196). So with a click before a
  `wait_for_change`, an abort, panic or cursor report that lands during the screenshot comes
  before the click (`BurstWitness.AbortedYetEmitted`). `BurstTheorems.NoResurrection` holds of
  every admission. `BurstTheorems.LateStartIff` is the exact condition for an action to start
  after a bump, `BurstTheorems.EmissionAfterBumpIff` the one for a single report, and
  `BurstTheorems.OneActionAfterBump` and `BurstTheorems.OneStartAfterBump` say that after a bump
  a task gets at most this one action through. `BurstBrake.StoppedEmitsIff` says when a latched session can still emit, which is
  what panic waits out (`BurstTheorems.PanicQuiescence`).
- The failed status of a stopped session does not stick. `pikvm_agent/runtime.py:1520-1521` wants
  no request in flight to overwrite it with a resumable one, and the settling step looks at the
  latch; but a burst that raises sets `paused` (line 1447), and so do a claim taken after the stop
  (1442), a hold for approval (1300) and a human's decision (2213), each in its own word, without
  looking. `BurstWitness.AbortedYetPaused` is a run, `BurstOutcomes.StickyStatusIff` the exact
  set of steps. The latch itself never clears, so nothing is admitted.
- `failed_case_mismatch`, reported as a difference of letter case alone, is also the word for any
  failing read when neither text has an ASCII letter or digit: two swapped symbols get it
  (`VerifierStatuses.SymbolsCalledCase`), and `VerifierStatuses.CaseWordIff` says that this is
  the only such family.
- In precise mode, a read that still shows a prompt can be reported exact although its spacing
  is wrong: `$ a  b` read as `$ a b` (`VerifierTheorems.WrongWidthVerified`). The unstripped read
  is compared with its space runs collapsed, while the spacing test looks at the stripped read.
  `VerifierTheorems.VerifiedMeansSameLineIff` is the exact condition under which a verified read
  is the intended line; without a prompt, precise mode is exact.
- Row non-interference of click grounding needs a boxed confident line: the first off-row lines
  take away the answer that a single unboxed line gave (`Grounding.FirstOffRowLine`, with the
  input in `Grounding.FarLineHidesText`).

## Model

| member | source | states |
|---|---|---|
| SessionRuntimes.SessionRuntime.Claim | pikvm_agent/runtime.py:1346-1442 | everything done under the claim lock, in place: replay, conflict, join under the same or another key, or a new claim entered in both indexes |
| SessionRuntimes.SessionRuntime.FinishExecutionClaim | pikvm_agent/runtime.py:1043-1066 | publishing a claim: the receipt under every joined key, both indexes cleared only where they still name this claim, and an unsafe result retained, all in one step |
| SessionRuntimes.SessionRuntime.PublishUnderKeys | pikvm_agent/runtime.py:1052-1060 | the loop writes the receipt under exactly the joined keys and pops exactly the entries that still name the claim |
| SessionRuntimes.SessionRuntime.Enter | pikvm_agent/runtime.py:962-1125 | the checks before the first await, in their order, with the answer each gives and the state each leaves |
| SessionRuntimes.SessionRuntime.CheckPrior | pikvm_agent/runtime.py:1068-1084 | a known key answers with a conflict or its receipt, unless the receipt is pending and this digest is the approved one |
| SessionRuntimes.SessionRuntime.ReplayUnsafeSemanticReceipt | pikvm_agent/runtime.py:1021-1041 | a retained unsafe receipt answers for its digest and is recorded under the caller's key |
| SessionRuntimes.SessionRuntime.Observe | pikvm_agent/runtime.py:1131-1215 | staleness, a changed epoch or another client ends the call; a new client bumps the epoch once |
| SessionRuntimes.SessionRuntime.Gate | pikvm_agent/runtime.py:1325-1339 | the gate is open iff the latch is off, the epoch is the planned one and no other client is connected, after noticing clients |
| SessionRuntimes.SessionRuntime.HoldForApproval | pikvm_agent/runtime.py:1317-1322 | the pending store overwrites whatever receipt the key holds |
| SessionRuntimes.SessionRuntime.ResolveWithoutApproval | pikvm_agent/runtime.py:2198-2215 | a human decision other than approve rewrites an existing receipt of the key and pauses the session |
| SessionRuntimes.SessionRuntime.SettleOutcome | pikvm_agent/runtime.py:1520-1532 | a concurrent stop owns the terminal status; lost evidence turns the published word into failed |
| SessionRuntimes.SessionRuntime.Abort | pikvm_agent/runtime.py:830-838 | abort bumps the epoch, sets the latch and fails the session |
| SessionRuntimes.SessionRuntime.PanicLatch | pikvm_agent/runtime.py:846-859 | panic bumps and latches every session and fails those not terminal |
| RuntimeObjects.Runtime.StartSession | pikvm_agent/runtime.py:736-755 | a new session starts in the fresh state and joins the table; every other entry stays |
| RuntimeObjects.Runtime.EnterHid | pikvm_agent/runtime.py:1406-1409 | a task's first instruction puts it in the active set and clears the idle event |
| RuntimeObjects.Runtime.LeaveHid | pikvm_agent/runtime.py:1425-1429 | a task's last instruction removes it and sets the event when the set is empty; the event always tells whether it is |
| RuntimeObjects.Runtime.ReportExternalCursor | pikvm_agent/runtime.py:688-707 | a cursor report raises the epoch of exactly the sessions that are not stopped, lists them and changes nothing else; no gate planned before is open afterwards |
| BurstAuthority.StepKeepsInv | pikvm_agent/runtime.py:950-1581 | every step of every call, task and outside actor keeps the twenty-part session invariant |
| BurstRuntime.RunKeepsInv | pikvm_agent/runtime.py:515-520 | every run of the process keeps it for all sessions, with the active set exact and every panic's latched sessions stopped |
| BurstTheorems.ClaimIndexesAgree | pikvm_agent/runtime.py:1375-1441 | in every reachable state a digest is indexed to a claim iff it is the digest's unfinished claim, a key iff the unfinished claim lists it; no two unfinished claims share a digest or a key |
| BurstTheorems.LateFinishEvictsNothing | pikvm_agent/runtime.py:1052-1062 | a late joiner finishing an old claim, by publishing or by passing on a raise, removes no entry of another claim, and none at all if its claim was already finished |
| BurstTheorems.AtMostOncePerKey | pikvm_agent/runtime.py:1068-1087 | in every interleaving, two tasks start under one key only if an approval-pending store for that key landed between the two starts |
| BurstTheorems.SecondStartIff | pikvm_agent/runtime.py:1352-1392 | for a key that has started before, the claim step starts another task iff its receipt is a pending one for the approved digest and nothing covers the key or the digest |
| BurstTheorems.OpenedIffReopened | pikvm_agent/runtime.py:1352-1392 | for a key seen before, the claim decision opens a new claim iff the key was reopened |
| BurstWitness.SameKeyStartsTwice | pikvm_agent/runtime.py:1299-1322 | a concrete reachable run in which one approval starts the same burst twice under one key |
| BurstTheorems.SemanticBrake | pikvm_agent/runtime.py:1372-1391 | a task that ends with completed actions and not completed bars its digest under every key from its own start onward |
| BurstBrake.EmittedBrakeIff | pikvm_agent/runtime.py:467-472 | the brake over emissions: a published task that emitted and did not complete can be started again under a regenerated key iff it raised or reported no completed action |
| BurstBrake.RestartIff | pikvm_agent/runtime.py:1574-1580 | once all claims of a digest are published, some continuation starts it again iff no claim of it was published with completed actions under a word other than completed |
| BurstBrake.ClaimStepIff | pikvm_agent/runtime.py:1352-1441 | the claim step starts a task iff the key is uncovered and every claim of the digest is published and none of them unsafe |
| BurstBrake.RunKeepsBar | pikvm_agent/runtime.py:1372-1374 | along any continuation a retained receipt admits no further start of its digest |
| BurstWitness.RaisedIsRepeated | pikvm_agent/runtime.py:1446-1460 | a concrete reachable run: a burst emits, raises and is started again under another key |
| BurstWitness.FirstActionIsRepeated | pikvm_agent/runtime.py:1574-1580 | a concrete reachable run: a burst whose first action emitted and failed is started again under another key |
| BurstTheorems.BrakeHasNoGap | pikvm_agent/runtime.py:1574-1580 | an unsafe claim's digest is at every moment covered by the live claim or the retained receipt |
| BurstTheorems.ReplaysAreTrue | pikvm_agent/runtime.py:1025-1058 | every completed or retained receipt reports how a finished burst of exactly that digest ended |
| BurstTheorems.NothingIsUndone | pikvm_agent/runtime.py:830-848 | along any continuation epochs never decrease, latches never clear and the history only grows |
| BurstTheorems.NoResurrection | pikvm_agent/runtime.py:1335-1339 | every micro-action is admitted with no latch before it, no other client, the epoch its claim planned against, and no bump since that epoch was checked |
| BurstTheorems.LateStartIff | pikvm_agent/executor/burst.py:586-614 | an admitted micro-action starts after a bump made since its claim's observation iff a screenshot was awaited after its gate and the bump landed in that pause |
| BurstTheorems.EmissionAfterBumpIff | pikvm_agent/executor/burst.py:571-586 | each HID report belongs to its task's last admission, that admission was clean, and the report follows such a bump iff the bump landed after that admission |
| BurstTheorems.OneActionAfterBump | pikvm_agent/executor/burst.py:585-596 | all reports of one task after a bump belong to one admission, made before the bump |
| BurstTheorems.OneStartAfterBump | pikvm_agent/executor/burst.py:585-614 | after a bump a task starts at most one more micro-action, and none unless the bump landed between that one's gate and its backend call |
| BurstWitness.AbortedYetEmitted | pikvm_agent/executor/burst.py:600-614 | a concrete reachable run: an action is admitted, the session is aborted during its baseline screenshot, and the action is emitted |
| BurstBrake.StoppedEmitsIff | pikvm_agent/runtime.py:862-876 | a latched session can emit along some continuation iff one of its tasks holds an admitted micro-action |
| BurstTheorems.ApprovalIsBound | pikvm_agent/runtime.py:1275-1304 | each report of a burst that needed approval belongs to a micro-action admitted under a stored request for its digest and key, at the recorded epoch, with no abort, panic or revocation since its observation; one precedes the report iff it landed after that admission |
| BurstOutcomes.StartsAreJudged | pikvm_agent/runtime.py:1244-1275 | every task that starts was started by a call of its own that proposed exactly this burst, saw the planned screen with no other client, and was permitted, or held a stored approval of its key and digest on the proposal of another call; no call starts two |
| BurstOutcomes.RefusedNeverRuns | pikvm_agent/runtime.py:1261-1274 | a call the policy refused is answered blocked, stays so, and no continuation starts a task for it |
| BurstOutcomes.VerdictDecides | pikvm_agent/runtime.py:1261-1322 | refusal ends the call, a permission or a matching approval brings it to the claim lock, anything else holds it |
| BurstOutcomes.AnswersAreOwn | pikvm_agent/runtime.py:1052-1084 | every answer ever given fits how far its call got, or is what a receipt of its own key and digest says, or reports the claim it ran or joined with honest flags; actions done and completion are reported only of a finished burst of exactly its digest |
| BurstOutcomes.EntryIff | pikvm_agent/runtime.py:962-1125 | for an arriving call, exactly when it is answered stopped, failed, conflict, from its receipt, from a retained receipt or freshness required, and when it goes on |
| BurstOutcomes.LockIff | pikvm_agent/runtime.py:1352-1441 | in terms of the claims themselves, exactly when the claim lock answers a conflict, replays, joins the live claim of the digest or starts a task |
| BurstOutcomes.ObserveIff | pikvm_agent/runtime.py:1131-1215 | an observation goes on iff the screen is the planned one, no bump has come since the planned epoch and no client is connected; a newly met client bumps |
| BurstOutcomes.GateIff | pikvm_agent/runtime.py:1325-1339 | a gate lets a micro-action through iff the session was never latched, no client is connected and no bump has come since the claim's observation |
| BurstOutcomes.CursorIsRevocation | pikvm_agent/runtime.py:695-704 | the process step of a cursor report changes each session as the runtime object's method does, and logs a bump unless the session is stopped |
| BurstOutcomes.CursorEndsBursts | pikvm_agent/runtime.py:688-704 | after a cursor report no task that had been claimed is ever admitted again, whatever continues the run |
| BurstOutcomes.AbortEndsBursts | pikvm_agent/runtime.py:830-834 | the same after an abort |
| BurstOutcomes.ClientEndsBursts | pikvm_agent/runtime.py:1325-1339 | once a gate has seen another client, no task claimed by then is admitted again, even when the client leaves |
| BurstOutcomes.StopOwnsSettling | pikvm_agent/runtime.py:1520-1532 | a stop that has landed when an outcome is settled makes its word stopped and the session failed; otherwise lost evidence makes it failed, and else the outcome's own word stands |
| BurstOutcomes.StopIsPublished | pikvm_agent/runtime.py:1533-1581 | what is published is the word of the settling step, with the actions done and honest flags, and it is retained if actions were done without completing |
| BurstOutcomes.PublishedAnswers | pikvm_agent/runtime.py:1049-1058 | once published, a burst is answered under each of its keys with exactly what was published, and another burst under such a key conflicts |
| BurstOutcomes.RaisedAnswers | pikvm_agent/runtime.py:1446-1460 | the same for a burst that raised |
| BurstOutcomes.HeldAnswers | pikvm_agent/runtime.py:1316-1323 | a held call's key answers that approval is needed |
| BurstOutcomes.DecidedAnswers | pikvm_agent/runtime.py:2198-2215 | after a decision other than approve the key's receipt answers blocked, for approved calls too, and the request is no longer pending |
| BurstOutcomes.SemanticAnswers | pikvm_agent/runtime.py:1021-1041 | a call answered from a retained receipt has spent its key on it |
| BurstOutcomes.PanicFailsResumable | pikvm_agent/runtime.py:846-853 | panic leaves no session it latches resumable, and one that had ended as it was |
| BurstOutcomes.AbortFailsSession | pikvm_agent/runtime.py:830-835 | an abort latches and fails the session, whatever it was doing |
| BurstOutcomes.BadBurstPauses | pikvm_agent/runtime.py:972-981 | a burst the validator refuses pauses the session; no other arrival touches its status |
| BurstOutcomes.StickyStatusIff | pikvm_agent/runtime.py:1520-1525 | which steps overwrite the failed status of a stopped session: exactly the four that write a status without looking at the latch |
| BurstWitness.AbortedYetPaused | pikvm_agent/runtime.py:1446-1460 | a concrete reachable run: an aborted session is paused again by a burst that raises |
| BurstTheorems.IdleIffNoneActive | pikvm_agent/runtime.py:516-520 | the idle event is set iff no burst task anywhere has started and not ended |
| BurstTheorems.PanicQuiescence | pikvm_agent/runtime.py:840-895 | when panic reports ok no burst task runs, every session that existed is latched, and no continuation ever emits another HID report for them, because the tasks that held an admitted action have ended |
| BurstTheorems.PanicReportIff | pikvm_agent/runtime.py:866-890 | panic reports ok iff its wait found the event set and no burst task runs in any session |
| BurstTheorems.PanicStopsEverything | pikvm_agent/runtime.py:840-895 | from beginning to report: every session that existed when panic began is latched when it reports ok, and never emits again |
| BurstTheorems.TimedOutPanicIff | pikvm_agent/runtime.py:867-890 | a panic whose wait timed out never reports ok; one whose wait was answered does iff no burst task runs when it reports |
| EditDistance.Levenshtein | pikvm_agent/executor/verification.py:208-225 | the two swapped rows with both early exits return at most max_d iff the recursive distance does, and then exactly it |
| EditDistance.FillRow | pikvm_agent/executor/verification.py:215-221 | one turn of the inner loop leaves the next row of the distance table and a lower bound of it |
| EditDistance.RowExit | pikvm_agent/executor/verification.py:222-223 | once every entry of a row exceeds the bound the distance does too |
| EditDistance.LengthBound | pikvm_agent/executor/verification.py:210-211 | the distance is at least the difference of the lengths |
| EditDistance.DistIsLeastEdits | pikvm_agent/executor/verification.py:208-225 | the recursive distance is the least number of insertions, deletions and replacements that turn one text into the other |
| Overlap.CountOverlap | pikvm_agent/executor/verification.py:192-205 | the dictionary pool counts the multiset intersection |
| Overlap.SortedWordsPermute | pikvm_agent/executor/verification.py:228-230 | sorting the words of a single-spaced text permutes its characters |
| Verification.FoldQuotes | pikvm_agent/executor/verification.py:96-111 | the loop folds each quote glyph within its family and nothing else |
| Verification.FoldConfusables | pikvm_agent/executor/verification.py:140-145 | the loop folds each confusable glyph |
| VerifierTheorems.NormIdempotent | pikvm_agent/executor/verification.py:114-117 | normalising twice changes nothing |
| VerifierTheorems.SameWordsOverlap | pikvm_agent/executor/verification.py:192-230 | equal sorted word lists force an overlap ratio of 1 |
| VerifierTheorems.TreesAgree | pikvm_agent/executor/verification.py:288-389 | the verdict is a mismatch iff the classifier names a kind and neither the spacing guard nor the unstripped match applies |
| VerifierTheorems.SameLine | pikvm_agent/executor/verification.py:120-137 | equal precise normal forms without a spacing difference mean equal displayed lines, every space run included, and conversely |
| VerifierTheorems.PreciseIsExact | pikvm_agent/executor/verification.py:418-427 | on a read without a prompt precise mode verifies, and then as exact, iff the read is not empty and the displayed lines are equal character for character |
| VerifierTheorems.PreciseWithPrompt | pikvm_agent/executor/verification.py:288-304 | for any read, exactly when precise mode verifies |
| VerifierTheorems.VerifiedMeansSameLineIff | pikvm_agent/executor/verification.py:288-304 | a verified read shows the intended line, stripped or not, except where the unstripped read differs in the width of a space run alone and stripping changed the glyphs or moved a run |
| VerifierTheorems.WrongWidthVerified | pikvm_agent/executor/verification.py:294-301 | the failing input: two spaces intended, one read, verified exact |
| VerifierTheorems.PromptHidesSpacing | pikvm_agent/executor/verification.py:120-137 | where stripping changes the glyphs, any read equal up to space widths is verified exact |
| VerifierTheorems.PreciseTreesAgree | pikvm_agent/executor/verification.py:305-378 | the two trees agree in precise mode on any two normal forms |
| VerifierTheorems.LenientTreesAgree | pikvm_agent/executor/verification.py:305-389 | the two trees agree in lenient mode, given that equal words overlap completely |
| VerifierStatuses.LenientVerifiedIff | pikvm_agent/executor/verification.py:288-340 | exactly which pairs of texts lenient mode verifies, in terms of normal forms, containment, confusable keys and edit distance |
| VerifierStatuses.LenientWordIff | pikvm_agent/executor/verification.py:418-427 | which of the two lenient words is reported |
| VerifierStatuses.FailedIff | pikvm_agent/executor/verification.py:418-452 | in both modes a read is reported as failed iff the classifier names a kind and neither guard of the verdict applies, and such a read is never verified |
| VerifierStatuses.FailedWordIff | pikvm_agent/executor/verification.py:441-452 | which of the three failed words is reported |
| VerifierStatuses.CaseWordIff | pikvm_agent/executor/verification.py:446-448 | a failure of letter case is one, except exactly if neither text has an ASCII letter or digit |
| VerifierStatuses.SymbolsCalledCase | pikvm_agent/executor/verification.py:446-448 | the failing input: two swapped symbols |
| VerifierStatuses.WhitespaceIff | pikvm_agent/executor/verification.py:428-431 | a read is reported as differing in spacing iff it does, and in nothing else |
| VerifierStatuses.UnverifiedIff | pikvm_agent/executor/verification.py:428-440 | exactly when a read is reported as truncated, as another region's, or as ambiguous |
| VerifierStatuses.KindIff | pikvm_agent/executor/verification.py:343-389 | exactly when each kind is named; the test for a suffix never decides |
| Words.SameWordsIff | pikvm_agent/executor/verification.py:228-230 | two texts have the same sorted word text iff they have the same words, each as often |
| VerifierStatuses.QuotesFoldIff | pikvm_agent/executor/verification.py:42-43 | two glyphs fold to one quote iff they are of one family |
| VerifierStatuses.ConfusablesFoldIff | pikvm_agent/executor/verification.py:48-58 | two glyphs fold together iff they belong to one of six classes |
| VerifierStatuses.AlnumByChar | pikvm_agent/executor/verification.py:158-160 | the alphanumeric part of a text, character by character |
| Crc32.Crc32Of | observer/windows/PikvmObserver.cpp:696-705 | the two nested loops compute the checksum of the specification function |
| Crc32.RunIsTable | observer/windows/PikvmObserver.cpp:698-703 | the bitwise loop equals the table-driven form of RFC 1952 |
| Crc32.PolyTerms | observer/windows/PikvmObserver.cpp:701-701 | the constant is the generator polynomial of ISO 3309, highest exponent first |
| Crc32.OnesByte | observer/windows/PikvmObserver.cpp:697-705 | no byte has the checksum 0, a byte of ones 0xff000000, which fixes the two inversions |
| Crc32.FeedBijective | observer/windows/PikvmObserver.cpp:699-702 | for each input byte the register update is a bijection |
| Crc32.BurstDetected | observer/windows/PikvmObserver.cpp:696-705 | messages that differ only inside four consecutive bytes have different checksums |
| VisualPacket.WriteLe16 | observer/windows/PikvmObserver.cpp:707-711 | two bytes at the offset become the little-endian value, the rest stays |
| VisualPacket.WriteLe32 | observer/windows/PikvmObserver.cpp:713-719 | four bytes at the offset become the little-endian value, the rest stays |
| VisualPacket.FitsIff | observer/windows/PikvmObserver.cpp:732-738 | a snapshot fits in 65535 pages iff it has at most 10616670 bytes |
| VisualPacket.EncodePages | observer/windows/PikvmObserver.cpp:743-765 | the page loop, packet by packet and offset by offset, yields the specified pages |
| VisualPacket.Pager.EnterVisualMode | observer/windows/PikvmObserver.cpp:731-767 | a snapshot that is too large changes nothing; any other is shown from its first page |
| VisualPacket.Pager.ExitVisualMode | observer/windows/PikvmObserver.cpp:775-780 | leaving drops the pages; the shown page always exists |
| VisualPacket.Pager.NextPage | observer/windows/PikvmObserver.cpp:1017-1022 | paging forward stops at the last page |
| VisualPacket.Pager.PreviousPage | observer/windows/PikvmObserver.cpp:1011-1015 | paging back stops at the first page |
| VisualPacket.Paint | observer/windows/PikvmObserver.cpp:954-968 | cell (row, column) is dark iff that bit of the packet is set |
| VisualPacket.ReadMatrix | pikvm_agent/harness/visual_oracle.py:208-211 | the packet read back has exactly the bits of the dark cells |
| VisualPacket.ShownOnce | pikvm_agent/harness/visual_oracle.py:195-211 | a matrix shows one packet only |
| VisualTheorems.PaintAndRead | pikvm_agent/harness/visual_oracle.py:118-128 | painting a packet and reading the cells returns the packet |
| VisualOracle.VoteIff | pikvm_agent/harness/visual_oracle.py:264-279 | the majority vote returns a chunk iff each of its bits kept two good copies |
| VisualTheorems.OneCopyLostSurvives | observer/windows/PikvmObserver.cpp:757-763 | a painted page survives the loss of one whole copy of every payload byte, a different one each time |
| VisualTheorems.LayoutCopies | observer/windows/PikvmObserver.cpp:757-763 | the page holds each payload byte three times |
| VisualTheorems.LayoutDecodes | pikvm_agent/harness/visual_oracle.py:212-241 | an intact header decodes to the fields that were written |
| VisualTheorems.RoundTrip | observer/windows/PikvmObserver.cpp:731-767 | every snapshot that fits is read back exactly from the pages painted for it, in any order, with the headers intact and one wrong cell among the three of each payload bit |
| VisualTheorems.UndamagedRoundTrip | observer/windows/PikvmObserver.cpp:731-767 | the painted pages themselves assemble to the snapshot |
| VisualTheorems.OneCopyLostRoundTrip | observer/windows/PikvmObserver.cpp:731-767 | so do pages in which one copy of every payload byte is arbitrary |
| VisualTheorems.ReadDamaged | pikvm_agent/harness/visual_oracle.py:195-288 | damaged screens in any order are read to the snapshot they were painted for |
| VisualTheorems.ShowAndRead | observer/windows/PikvmObserver.cpp:731-773 | from end to end: encoding, painting page by page and reading the cells gives the snapshot |
| VisualTheorems.AcceptedMeans | pikvm_agent/harness/visual_oracle.py:244-288 | accepted pages belong to one snapshot, each index present exactly once, and the payload has the length and checksum of the headers |
| VisualTheorems.WindowDamageRejected | pikvm_agent/harness/visual_oracle.py:286-287 | a payload wrong only inside four consecutive bytes is never accepted |
| VisualFaults.LayoutFormat | observer/windows/PikvmObserver.cpp:748-764 | the page byte by byte: tag, little-endian fields at their offsets, flag, three copies of each payload byte, zeros elsewhere |
| VisualFaults.PacketBitIff | observer/windows/PikvmObserver.cpp:954-968 | within a byte the painted bits run from the most significant to the least |
| VisualFaults.DecodeIff | pikvm_agent/harness/visual_oracle.py:212-241 | exactly which packets decode, to what, and which fault any other is refused with |
| VisualFaults.RefusedIff | pikvm_agent/harness/visual_oracle.py:244-263 | exactly which page sets are refused as empty, mixed, duplicated or incomplete |
| VisualFaults.UnpackFaults | pikvm_agent/harness/visual_oracle.py:264-288 | exactly when a complete set's payload is accepted, compressed or not, and with which fault it is refused |
| JsonEscape.Escape | observer/windows/PikvmObserver.cpp:358-393 | the loop builds the specified escaped form |
| JsonEscape.EscapedReadsBack | observer/windows/PikvmObserver.cpp:358-393 | a reader of RFC 8259 strings finds the closing quote right after the escaped form and recovers every byte |
| JsonEscape.NoControlBytes | observer/windows/PikvmObserver.cpp:384-388 | the escaped form holds no byte below 0x20 |
| JsonEscape.NoBareQuote | observer/windows/PikvmObserver.cpp:362-367 | the first unescaped quote after the escaped form is the closing one |
| JsonEscape.EscapedIsShortest | observer/windows/PikvmObserver.cpp:358-393 | no text the grammar reads as the byte is shorter than its escaped form |
| EventWindow.Observer.AppendEvent | observer/windows/PikvmObserver.cpp:395-404 | a full window drops its oldest quarter before the event is added; key presses are all kept |
| EventWindow.Observer.Reset | observer/windows/PikvmObserver.cpp:809-815 | a reset forgets all events and key codes |
| EventWindow.Observer.BuildTrace | observer/windows/PikvmObserver.cpp:504-519 | a compact snapshot carries the true key-down count and exactly the last 128 codes |
| EventWindow.WindowIsSuffix | observer/windows/PikvmObserver.cpp:397-400 | the window is the last n events of the history, n given in closed form between min(history, 15001) and 20000 |
| EventWindow.NothingDroppedEarly | observer/windows/PikvmObserver.cpp:397-399 | nothing is dropped before the window first fills up |
| EventWindow.RetainedNext | observer/windows/PikvmObserver.cpp:397-400 | how the closed form grows by one append |
| EventWindow.Run | observer/windows/PikvmObserver.cpp:395-404 | for any run of appends and resets the state describes the appends since the last reset |
| SpreadsheetGrid.AcceptsExactly | pikvm_agent/core/spreadsheet_grid.py:67-104 | validation accepts exactly the encodings of grids within the bounds and returns that grid |
| SpreadsheetGrid.RejectedIff | pikvm_agent/core/spreadsheet_grid.py:74-92 | which fault a value is rejected with: rows, shape, width, cells |
| SpreadsheetGrid.TextRejectedIff | pikvm_agent/core/spreadsheet_grid.py:93-102 | and of a grid whose cells fit: too much text, or a control character |
| SpreadsheetGrid.Payload | pikvm_agent/core/spreadsheet_grid.py:49-60 | the loop prints the rows that the cell limit reaches |
| SpreadsheetGrid.PayloadInvertible | pikvm_agent/core/spreadsheet_grid.py:49-60 | splitting the payload of a validated grid on newlines and tabs gives the rows back |
| SpreadsheetGrid.PartialPayload | pikvm_agent/core/spreadsheet_grid.py:49-60 | a partial payload is a prefix of the whole one and parses to exactly the first k cells |
| SpreadsheetGrid.PayloadLength | pikvm_agent/core/spreadsheet_grid.py:62-64 | its length is the issued characters plus one separator between cells |
| SpreadsheetGrid.NavigationPerCell | pikvm_agent/core/spreadsheet_grid.py:42-47 | navigation takes one key per cell and one more per row after the first |
| Transactions.Execute | pikvm_agent/executor/transactions.py:53-117 | over any actions and any gate, the result describes the run: what ran, why it stopped, what was verified and everything emitted |
| Transactions.Dispatch | pikvm_agent/executor/transactions.py:78-109 | what one action emits, verifies and reports when it fails; a text that does not verify may be typed in part |
| Transactions.DescribedOnce | pikvm_agent/executor/transactions.py:70-117 | a description fits one run only: status, actions, verification, error and emissions follow |
| Transactions.StopOf | pikvm_agent/executor/transactions.py:70-110 | the run stops at the first closed gate or failing action and the status says which |
| Transactions.GateObeyed | pikvm_agent/executor/transactions.py:71-77 | every action that ran met an open gate; a run is blocked iff it stops early at a closed one, and exactly then everything held is released, last |
| Transactions.NothingAfterClosedGate | pikvm_agent/executor/transactions.py:71-77 | transactions that differ only behind a closed gate emit the same |
| Transactions.ScrollMoves | pikvm_agent/executor/transactions.py:96-99 | which way and how far each direction scrolls; none is a no-op |
| Transactions.OneEffect | pikvm_agent/executor/transactions.py:80-101 | what a passing action of each kind sends, and exactly which actions send nothing |
| Transactions.LogTellsActions | pikvm_agent/executor/transactions.py:80-101 | what was sent determines which keys, texts and clicks were run, in order |
| Grounding.NearestOcrTargetText | pikvm_agent/runtime.py:198-251 | the candidate loop and the minimum compute the specified answer |
| Grounding.RowNonInterference | pikvm_agent/runtime.py:227-244 | readings that differ only by lines that do not compete, inserted anywhere, ground the click alike once each has a boxed line |
| Grounding.NonInterferenceIff | pikvm_agent/runtime.py:249-251 | where a reading has no boxed line, exactly when such lines change the answer |
| Grounding.FirstOffRowLine | pikvm_agent/runtime.py:249-251 | without a boxed line, off-row lines inserted anywhere empty the answer, and exactly when that is a change |
| Grounding.FarLineHidesText | pikvm_agent/runtime.py:232-251 | the input: a caption alone is answered, with a far boxed line it is not |
| Grounding.AnswerIff | pikvm_agent/runtime.py:232-248 | the answer is a text iff the first of the nearest competing lines lies within 140 pixels and has that text |
| Grounding.LoneLineIff | pikvm_agent/runtime.py:207-248 | a lone boxed line is answered iff the click is at most 16 pixels above or below it and at most 140 away, height counting double |
| Grounding.CompetesIff | pikvm_agent/runtime.py:208-237 | which lines compete: confidence of at least 0.10 or none, a box, some text, and the click at most 16 pixels above or below |
| Grounding.OutsideIsNearest | pikvm_agent/runtime.py:224-225 | the measured gap is the distance to the nearest place of the box's side |
| Grounding.CropMoves | pikvm_agent/runtime.py:216-223 | moving click and region together changes nothing for a crop-relative box |
| Grounding.FrameMoves | pikvm_agent/runtime.py:216-223 | a box in frame pixels has to move along |
| Grounding.CropIff | pikvm_agent/runtime.py:216-221 | which boxes are taken to be relative to the crop |

## Left out

- The burst executor, the watched typer, the policy classifier, OCR, the frame and approval
  stores: each is a nondeterministic answer or the contract given above.
- The autonomous graph path and its recovery: its input is not tracked by the active set, so
  panic quiescence speaks of bursts.
- Process restart and persistence: the idempotency tables live in memory, so every statement is
  about one process lifetime; sessions are never removed, and the event loop is not shut down.
- Exceptions raised by a store or the backend inside a call: such a call ends like a cancelled
  one, without touching its claim.
- BurstTheorems.SemanticBrake: speaks of outcomes with completed actions only, because for the
  others the source does not keep the promise; `BurstBrake.EmittedBrakeIff` is the exact extent.
- BurstTheorems.IdleIffNoneActive: speaks of the moments between steps; inside `finally` the set
  and the event change one after the other without an await.
- Verifier: Unicode case folding, the regular expression of the prompt stripper, the choice of
  precise mode and the tolerance formula; rounding of the overlap ratio.
- Visual oracle: pixel geometry, JPEG noise, box resampling and border detection; the model
  starts from one dark or light answer per cell. The encoder's own compressed variant in the
  harness is not modelled; the reader's compressed branch is, with decompression as a parameter.
- Snapshot layout beyond the trace and the escaped strings, the clipboard, Base64 and HTTP.
- Spreadsheet: the tuple and list types of the host language are one list type.
- Transactions: what the typer sends to repair a text, the reaction pause, exceptions from the backend, and the polling inside the
  mode wait; the fallback read-back is the typing answer.
- Grounding: polygon boxes are taken after their reduction to a corner and a size.
- HTTP routes, tool servers, command line, configuration, reports and launch grammar: not
  modelled.
