/** The guarded transaction loop: a result that describes exactly what was dispatched. */
module Transactions {
  import opened Options

  datatype Action =
    | Keypress(keys: string)
    | TypeText(text: string)
    | ClickElement(target: string)
    | Scroll(direction: string, amount: int)
    | Wait(ms: int)
    | WaitForMode(mode: string)
    | Unknown(kind: string)

  datatype Verification = Verification(status: string, verified: bool)

  datatype Status = Executed | Verified | Blocked | Failed

  datatype Error =
    | NoError
    | ControlChanged
    | TypingVerification(status: string)
    | ClickBlocked(reason: string)
    | ModeNotReached(mode: string)

  datatype Result = Result(status: Status, executed: seq<Action>, verification: Option<Verification>,
                           error: Error, worldAfter: Option<int>)

  /** What reaches the machine. */
  datatype Effect =
    | Pressed(keys: string) | Typed(text: string) | Clicked(target: string)
    | Scrolled(dx: int, dy: int) | ReleasedAll

  /** How the collaborators answer at each place of the transaction: the control gate, when
      there is one, the typed text's verification, how many of its characters had gone out
      when a typing that does not verify stopped, the click's objection and the mode wait. */
  datatype World = World(gate: Option<nat -> bool>, typing: nat -> Verification, sent: nat -> nat,
                         objection: nat -> Option<string>, reached: nat -> bool)

  predicate Open(w: World, i: nat) { w.gate.None? || w.gate.value(i) }

  /** Whether action `i`, once dispatched, lets the transaction go on. */
  predicate Passes(w: World, action: Action, i: nat) {
    match action
    case TypeText(_) => w.typing(i).verified
    case ClickElement(_) => w.objection(i).None?
    case WaitForMode(_) => w.reached(i)
    case _ => true
  }

  function Vector(direction: string): (int, int) {
    if direction == "up" then (0, 1) else if direction == "down" then (0, -1)
    else if direction == "right" then (1, 0) else if direction == "left" then (-1, 0)
    else (0, -1)
  }

  function Amount(amount: int): int { if amount < 1 then 1 else amount }

  /** What of a text reaches the machine: all of it when it verifies, since the typer stops
      early only to report a failure; otherwise the part sent before it stopped. */
  function TypedPart(w: World, text: string, i: nat): (part: string)
    ensures part <= text && (w.typing(i).verified ==> part == text)
    ensures !w.typing(i).verified && w.sent(i) <= |text| ==> |part| == w.sent(i)
  {
    if w.typing(i).verified || w.sent(i) >= |text| then text else text[..w.sent(i)]
  }

  /** What dispatching action `i` does; a refused click, a wait and an unknown kind do nothing. */
  function EffectsAt(w: World, action: Action, i: nat): seq<Effect> {
    match action
    case Keypress(keys) => [Pressed(keys)]
    case TypeText(text) => [Typed(TypedPart(w, text, i))]
    case ClickElement(target) => if w.objection(i).None? then [Clicked(target)] else []
    case Scroll(direction, amount) =>
      var v := Vector(direction);
      [Scrolled(v.0 * Amount(amount), v.1 * Amount(amount))]
    case Wait(_) => []
    case WaitForMode(_) => []
    case Unknown(_) => []
  }

  function Effects(w: World, actions: seq<Action>): seq<Effect> {
    if actions == [] then [] else
      var n := |actions| - 1;
      Effects(w, actions[..n]) + EffectsAt(w, actions[n], n)
  }

  /** A scroll always moves, by at least one notch and along one axis: up and right are
      positive, and a direction that is none of the four scrolls down. */
  lemma ScrollMoves(w: World, direction: string, amount: int, i: nat)
    ensures var notches := if amount < 1 then 1 else amount;
            EffectsAt(w, Scroll(direction, amount), i) ==
            [if direction == "up" then Scrolled(0, notches)
             else if direction == "right" then Scrolled(notches, 0)
             else if direction == "left" then Scrolled(-notches, 0)
             else Scrolled(0, -notches)]
    ensures EffectsAt(w, Scroll(direction, amount), i) != [Scrolled(0, 0)]
  {
  }

  // ---- what the log tells ------------------------------------------------------------------ //

  /** Actions that name what they send. */
  predicate Direct(a: Action) { a.Keypress? || a.TypeText? || a.ClickElement? }

  /** A passing action of this kind sends one thing, which names it; a click that was objected
      to, a wait and an unknown kind send nothing. */
  lemma OneEffect(w: World, a: Action, i: nat)
    ensures Direct(a) && Passes(w, a, i) ==>
      EffectsAt(w, a, i) == [match a case Keypress(keys) => Pressed(keys)
                                     case TypeText(text) => Typed(text)
                                     case ClickElement(target) => Clicked(target)
                                     case _ => ReleasedAll]
    ensures EffectsAt(w, a, i) == [] <==>
      a.Wait? || a.WaitForMode? || a.Unknown? || (a.ClickElement? && !Passes(w, a, i))
    ensures a.TypeText? && !Passes(w, a, i) ==>
      exists part :: part <= a.text && EffectsAt(w, a, i) == [Typed(part)]
  {
    if a.TypeText? && !Passes(w, a, i) {
      assert EffectsAt(w, a, i) == [Typed(TypedPart(w, a.text, i))];
    }
  }

  /** The log of a run of such actions tells which they were, in order. */
  lemma {:induction false} LogTellsActions(w: World, a: seq<Action>, w': World, b: seq<Action>)
    requires forall j :: 0 <= j < |a| ==> Direct(a[j]) && Passes(w, a[j], j)
    requires forall j :: 0 <= j < |b| ==> Direct(b[j]) && Passes(w', b[j], j)
    requires Effects(w, a) == Effects(w', b)
    ensures a == b
    decreases |a|
  {
    OneEach(w, a);
    OneEach(w', b);
    if a != [] {
      var n := |a| - 1;
      OneEffect(w, a[n], n);
      OneEffect(w', b[n], n);
      LastEffect(Effects(w, a[..n]), EffectsAt(w, a[n], n), Effects(w', b[..n]), EffectsAt(w', b[n], n));
      LogTellsActions(w, a[..n], w', b[..n]);
      assert a == a[..n] + [a[n]] && b == b[..n] + [b[n]];
    }
  }

  lemma LastEffect(s: seq<Effect>, e: seq<Effect>, t: seq<Effect>, f: seq<Effect>)
    requires |e| == |f| == 1 && s + e == t + f
    ensures s == t && e == f
  {
    assert (s + e)[|s|] == e[0] && (t + f)[|t|] == f[0];
    assert (s + e)[..|s|] == s && (t + f)[..|t|] == t;
  }

  lemma {:induction false} OneEach(w: World, a: seq<Action>)
    requires forall j :: 0 <= j < |a| ==> Direct(a[j]) && Passes(w, a[j], j)
    ensures |Effects(w, a)| == |a|
    decreases |a|
  {
    if a != [] {
      var n := |a| - 1;
      OneEffect(w, a[n], n);
      OneEach(w, a[..n]);
    }
  }

  /** The verification of the last text typed among the first actions. */
  function LastVerification(w: World, actions: seq<Action>): Option<Verification> {
    if actions == [] then None else
      var n := |actions| - 1;
      if actions[n].TypeText? then Some(w.typing(n)) else LastVerification(w, actions[..n])
  }

  /** The first `n` actions met an open gate and passed. */
  ghost predicate RanThrough(w: World, actions: seq<Action>, n: nat)
    requires n <= |actions|
  {
    forall j :: 0 <= j < n ==> Open(w, j) && Passes(w, actions[j], j)
  }

  predicate Types(actions: seq<Action>) { exists j :: 0 <= j < |actions| && actions[j].TypeText? }

  /** What a result says about the run, and what then really happened. */
  ghost predicate Describes(w: World, actions: seq<Action>, world: int, r: Result, log: seq<Effect>) {
    var n := |r.executed|;
    && r.executed <= actions
    && match r.status
       case Executed =>
         n == |actions| && RanThrough(w, actions, n) && !Types(actions) && r.verification.None?
         && log == Effects(w, actions) && r.error.NoError? && r.worldAfter == Some(world)
       case Verified =>
         n == |actions| && RanThrough(w, actions, n) && Types(actions)
         && r.verification == LastVerification(w, actions) && r.verification.Some? && r.verification.value.verified
         && log == Effects(w, actions) && r.error.NoError? && r.worldAfter == Some(world)
       case Blocked =>
         n < |actions| && RanThrough(w, actions, n) && !Open(w, n)
         && r.verification == LastVerification(w, actions[..n])
         && log == Effects(w, actions[..n]) + [ReleasedAll]
         && r.error.ControlChanged? && r.worldAfter.None?
       case Failed =>
         0 < n && RanThrough(w, actions, n - 1) && Open(w, n - 1) && !Passes(w, actions[n - 1], n - 1)
         && log == Effects(w, actions[..n]) && r.error == Reason(w, actions[n - 1], n - 1)
         && r.verification == (if actions[n - 1].TypeText? then Some(w.typing(n - 1)) else None)
         && r.worldAfter.None?
  }

  /** Why a failing action failed. */
  function Reason(w: World, action: Action, i: nat): Error {
    match action
    case TypeText(_) => TypingVerification(w.typing(i).status)
    case ClickElement(_) => if w.objection(i).Some? then ClickBlocked(w.objection(i).value) else NoError
    case WaitForMode(mode) => ModeNotReached(mode)
    case _ => NoError
  }

  /** One action: what it emits, the verification if it typed, and why it failed if it did. */
  method Dispatch(w: World, a: Action, i: nat)
    returns (emitted: seq<Effect>, typed: Option<Verification>, error: Error)
    ensures emitted == EffectsAt(w, a, i)
    ensures typed == if a.TypeText? then Some(w.typing(i)) else None
    ensures error.NoError? <==> Passes(w, a, i)
    ensures error == if Passes(w, a, i) then NoError else Reason(w, a, i)
  {
    emitted, typed, error := [], None, NoError;
    match a {
      case Keypress(keys) =>
        emitted := [Pressed(keys)];
      case TypeText(text) =>
        emitted := [Typed(TypedPart(w, text, i))];
        var verification := w.typing(i);
        typed := Some(verification);
        if !verification.verified {
          error := TypingVerification(verification.status);
        }
      case ClickElement(target) =>
        var blocked := w.objection(i);
        if blocked.Some? {
          error := ClickBlocked(blocked.value);
        } else {
          emitted := [Clicked(target)];
        }
      case Scroll(direction, amount) =>
        var v := Vector(direction);
        emitted := [Scrolled(v.0 * Amount(amount), v.1 * Amount(amount))];
      case Wait(_) =>
      case WaitForMode(mode) =>
        if !w.reached(i) {
          error := ModeNotReached(mode);
        }
      case Unknown(_) =>
    }
  }

  method Execute(w: World, actions: seq<Action>, world: int) returns (r: Result, log: seq<Effect>)
    ensures Describes(w, actions, world, r, log)
  {
    var executed: seq<Action> := [];
    var verification: Option<Verification> := None;
    log := [];
    for i := 0 to |actions|
      invariant executed == actions[..i] && RanThrough(w, actions, i)
      invariant log == Effects(w, actions[..i])
      invariant verification == LastVerification(w, actions[..i])
      invariant verification.Some? ==> verification.value.verified
      invariant verification.Some? <==> Types(actions[..i])
    {
      var a := actions[i];
      Extend(w, actions, i);
      if w.gate.Some? && !w.gate.value(i) {
        log := log + [ReleasedAll];
        r := Result(Blocked, executed, verification, ControlChanged, None);
        BlockedDescribes(w, actions, world, i);
        return;
      }
      var emitted, typed, error := Dispatch(w, a, i);
      log := log + emitted;
      if typed.Some? {
        verification := typed;
      }
      if !error.NoError? {
        r := Result(Failed, executed + [a], typed, error, None);
        FailedDescribes(w, actions, world, i);
        return;
      }
      executed := executed + [a];
    }
    assert actions[..|actions|] == actions;
    var status := if verification.Some? && verification.value.verified then Verified else Executed;
    r := Result(status, executed, verification, NoError, Some(world));
  }

  lemma BlockedDescribes(w: World, actions: seq<Action>, world: int, i: nat)
    requires i < |actions| && RanThrough(w, actions, i) && !Open(w, i)
    ensures Describes(w, actions, world,
                      Result(Blocked, actions[..i], LastVerification(w, actions[..i]), ControlChanged, None),
                      Effects(w, actions[..i]) + [ReleasedAll])
  {
  }

  lemma FailedDescribes(w: World, actions: seq<Action>, world: int, i: nat)
    requires i < |actions| && RanThrough(w, actions, i) && Open(w, i) && !Passes(w, actions[i], i)
    ensures var a := actions[i];
            Describes(w, actions, world,
                      Result(Failed, actions[..i] + [a], if a.TypeText? then Some(w.typing(i)) else None,
                             Reason(w, a, i), None),
                      Effects(w, actions[..i]) + EffectsAt(w, a, i))
  {
    Extend(w, actions, i);
  }

  lemma Extend(w: World, actions: seq<Action>, i: nat)
    requires i < |actions|
    ensures actions[..i + 1] == actions[..i] + [actions[i]]
    ensures Effects(w, actions[..i + 1]) == Effects(w, actions[..i]) + EffectsAt(w, actions[i], i)
    ensures LastVerification(w, actions[..i + 1])
         == if actions[i].TypeText? then Some(w.typing(i)) else LastVerification(w, actions[..i])
    ensures Types(actions[..i + 1]) <==> Types(actions[..i]) || actions[i].TypeText?
  {
    var next := actions[..i + 1];
    assert next[..i] == actions[..i] && next[i] == actions[i];
    if Types(actions[..i]) {
      var j :| 0 <= j < i && actions[..i][j].TypeText?;
      assert next[j].TypeText?;
    }
    if Types(next) {
      var j :| 0 <= j < i + 1 && next[j].TypeText?;
      assert j < i ==> actions[..i][j].TypeText?;
    }
  }

  // ---- what a description pins down ----------------------------------------------------- //

  /** The place where a run stops: the first closed gate or failing action, or the end. */
  function StopsAt(w: World, actions: seq<Action>, i: nat): (n: nat)
    requires i <= |actions|
    ensures i <= n <= |actions|
    decreases |actions| - i
  {
    if i == |actions| || !Open(w, i) || !Passes(w, actions[i], i) then i else StopsAt(w, actions, i + 1)
  }

  lemma {:induction false} StopsAtFirst(w: World, actions: seq<Action>, i: nat, n: nat)
    requires i <= n <= |actions|
    requires forall j :: i <= j < n ==> Open(w, j) && Passes(w, actions[j], j)
    requires n == |actions| || !Open(w, n) || !Passes(w, actions[n], n)
    ensures StopsAt(w, actions, i) == n
    decreases n - i
  {
    if i < n {
      StopsAtFirst(w, actions, i + 1, n);
    }
  }

  /** A result that describes a run can only be that run's: status, actions done, error and
      everything emitted follow from the world. */
  lemma DescribedOnce(w: World, actions: seq<Action>, world: int, r: Result, log: seq<Effect>,
                      r': Result, log': seq<Effect>)
    requires Describes(w, actions, world, r, log) && Describes(w, actions, world, r', log')
    ensures r == r' && log == log'
  {
    StopOf(w, actions, world, r, log);
    StopOf(w, actions, world, r', log');
    if r.status.Executed? || r.status.Verified? {
      assert actions[..|actions|] == actions;
    }
  }

  /** Where a described run stopped decides its status. */
  lemma StopOf(w: World, actions: seq<Action>, world: int, r: Result, log: seq<Effect>)
    requires Describes(w, actions, world, r, log)
    ensures var stop := StopsAt(w, actions, 0);
            && |r.executed| == (if r.status.Failed? then stop + 1 else stop)
            && r.executed == actions[..|r.executed|]
            && (r.status.Executed? || r.status.Verified? <==> stop == |actions|)
            && (r.status.Verified? ==> Types(actions)) && (r.status.Executed? ==> !Types(actions))
            && (r.status.Blocked? <==> stop < |actions| && !Open(w, stop))
  {
    var n := |r.executed|;
    StopsAtFirst(w, actions, 0, if r.status.Failed? then n - 1 else n);
  }

  lemma {:induction false} NoRelease(w: World, actions: seq<Action>)
    ensures ReleasedAll !in Effects(w, actions)
    decreases |actions|
  {
    if actions != [] {
      NoRelease(w, actions[..|actions| - 1]);
    }
  }

  /** With a gate, every action that was run met it open; a run is blocked exactly if it stops
      before its end at a closed one, and exactly then everything held is released, last. */
  lemma GateObeyed(w: World, actions: seq<Action>, world: int, r: Result, log: seq<Effect>)
    requires Describes(w, actions, world, r, log)
    ensures w.gate.Some? ==> forall j :: 0 <= j < |r.executed| ==> w.gate.value(j)
    ensures r.status.Blocked? <==>
            |r.executed| < |actions| && w.gate.Some? && !w.gate.value(|r.executed|) && !r.status.Failed?
    ensures r.status.Blocked? <==> ReleasedAll in log
    ensures r.status.Blocked? ==> log[|log| - 1] == ReleasedAll
  {
    var n := |r.executed|;
    NoRelease(w, actions);
    NoRelease(w, actions[..n]);
    if w.gate.Some? {
      forall j | 0 <= j < n ensures w.gate.value(j) {
        assert Open(w, j);
      }
    }
  }

  /** A closed gate: whatever the rest of the transaction is, nothing from there on is
      dispatched, so runs that differ only behind it emit the same. */
  lemma NothingAfterClosedGate(w: World, a: seq<Action>, b: seq<Action>, world: int,
                               r: Result, log: seq<Effect>, r': Result, log': seq<Effect>)
    requires Describes(w, a, world, r, log) && r.status.Blocked?
    requires |r.executed| < |b| && a[..|r.executed|] == b[..|r.executed|]
    requires Describes(w, b, world, r', log')
    ensures r' == r && log' == log
  {
    var n := |r.executed|;
    StopOf(w, b, world, r', log');
    forall j | 0 <= j < n
      ensures Open(w, j) && Passes(w, b[j], j)
    {
      assert a[..n][j] == b[..n][j];
    }
    StopsAtFirst(w, b, 0, n);
  }
}
