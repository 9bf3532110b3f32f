/** The observer's bounded trace: a window over the input events, all key-down codes, and
    the part of them a snapshot carries. */
module EventWindow {

  const MAX_EVENTS := 20000
  const DROPPED := 5000
  const VISUAL_KEYS := 128

  /** One append: a full window first drops its oldest quarter. */
  function Appended<T>(window: seq<T>, event: T): seq<T> {
    if |window| == MAX_EVENTS then window[DROPPED..] + [event] else window + [event]
  }

  /** The window a history of appends leaves. */
  function Window<T>(history: seq<T>): (window: seq<T>)
    ensures |window| <= |history|
  {
    if history == [] then [] else Appended(Window(history[..|history| - 1]), history[|history| - 1])
  }

  /** How many events of a history of `n` are kept. */
  function Retained(n: nat): (k: nat)
    ensures k <= n && k <= MAX_EVENTS
    ensures k >= if n < 15001 then n else 15001
  {
    if n <= 20000 then n else 15001 + (n - 20001) % 5000
  }

  lemma RetainedNext(n: nat)
    ensures Retained(n + 1) == if Retained(n) == MAX_EVENTS then 15001 else Retained(n) + 1
  {
    if n > 20000 {
      var m := n - 20001;
      if m % 5000 == 4999 {
        assert (m + 1) % 5000 == 0;
      } else {
        assert (m + 1) % 5000 == m % 5000 + 1;
      }
    }
  }

  /** Appending to the last `k` events leaves the last `k + 1`, or 15001 of a full window. */
  lemma AppendedSuffix<T>(history: seq<T>, k: nat)
    requires k < |history| && k <= MAX_EVENTS
    ensures var n := |history| - 1; var kept := if k == MAX_EVENTS then 15001 else k + 1;
            Appended(history[n - k..n], history[n]) == history[|history| - kept..]
  {
  }

  /** The window is exactly the last `Retained` events, in order. */
  lemma {:induction false} WindowIsSuffix<T>(history: seq<T>)
    ensures Window(history) == history[|history| - Retained(|history|)..]
    decreases |history|
  {
    if history != [] {
      var n := |history| - 1;
      var kept := history[n - Retained(n)..n];
      assert Window(history) == Appended(kept, history[n]) by {
        WindowIsSuffix(history[..n]);
        assert history[..n][n - Retained(n)..] == kept;
      }
      RetainedNext(n);
      AppendedSuffix(history, Retained(n));
    }
  }

  /** Nothing is dropped before the window first fills up. */
  lemma NothingDroppedEarly<T>(history: seq<T>)
    requires |history| <= MAX_EVENTS
    ensures Window(history) == history
  {
    WindowIsSuffix(history);
  }

  /** What a snapshot says about the trace. */
  datatype Trace = Trace(events: seq<string>, eventCount: nat, keys: seq<nat>, keyCount: nat, truncated: bool)

  class Observer {
    var events: seq<string>
    var keyDownVks: seq<nat>
    ghost var history: seq<string>
    ghost var keyHistory: seq<nat>

    ghost predicate Valid()
      reads this
    {
      events == Window(history) && keyDownVks == keyHistory
    }

    constructor ()
      ensures Valid() && history == [] && keyHistory == []
    {
      events, keyDownVks, history, keyHistory := [], [], [], [];
    }

    /** `keyDownVk` is negative for anything but a key press. */
    method AppendEvent(event: string, keyDownVk: int)
      requires Valid()
      modifies this
      ensures Valid()
      ensures history == old(history) + [event]
      ensures keyHistory == old(keyHistory) + if keyDownVk >= 0 then [keyDownVk] else []
      ensures events == old(events)[if |old(events)| == MAX_EVENTS then DROPPED else 0..] + [event]
    {
      if |events| == MAX_EVENTS {
        events := events[MAX_EVENTS / 4..];
      }
      events := events + [event];
      history := history + [event];
      if keyDownVk >= 0 {
        keyDownVks := keyDownVks + [keyDownVk];
        keyHistory := keyHistory + [keyDownVk];
      }
    }

    method Reset()
      requires Valid()
      modifies this
      ensures Valid() && history == [] && keyHistory == []
    {
      events, keyDownVks, history, keyHistory := [], [], [], [];
    }

    /** The trace part of a snapshot: the compact form leaves the events out and keeps only
        the newest key codes, but always carries the true count of presses since the reset. */
    method BuildTrace(compact: bool) returns (trace: Trace)
      requires Valid()
      ensures trace.eventCount == Retained(|history|)
      ensures trace.events == if compact then [] else history[|history| - Retained(|history|)..]
      ensures trace.keyCount == |keyHistory|
      ensures trace.truncated <==> compact && |keyHistory| > 128
      ensures var kept := if compact && |keyHistory| > 128 then 128 else |keyHistory|;
              trace.keys == keyHistory[|keyHistory| - kept..]
    {
      WindowIsSuffix(history);
      var keys := keyDownVks;
      var keyCount := |keys|;
      var truncated := compact && |keys| > VISUAL_KEYS;
      if truncated {
        keys := keys[|keys| - VISUAL_KEYS..];
      }
      trace := Trace(if compact then [] else events, |events|, keys, keyCount, truncated);
    }
  }

  // ---- any run of appends and resets --------------------------------------------------- //

  datatype Command = Append(event: string, keyDownVk: int) | ResetAll

  function SinceReset(commands: seq<Command>): seq<string> {
    if commands == [] then [] else
      var last := commands[|commands| - 1];
      if last.ResetAll? then [] else SinceReset(commands[..|commands| - 1]) + [last.event]
  }

  function KeysSinceReset(commands: seq<Command>): seq<nat> {
    if commands == [] then [] else
      var last := commands[|commands| - 1];
      var before := commands[..|commands| - 1];
      if last.ResetAll? then []
      else KeysSinceReset(before) + if last.keyDownVk >= 0 then [last.keyDownVk] else []
  }

  /** Whatever came before the last reset leaves no trace. */
  method Run(commands: seq<Command>) returns (observer: Observer)
    ensures fresh(observer) && observer.Valid()
    ensures observer.history == SinceReset(commands) && observer.keyHistory == KeysSinceReset(commands)
  {
    observer := new Observer();
    for i := 0 to |commands|
      invariant fresh(observer) && observer.Valid()
      invariant observer.history == SinceReset(commands[..i])
      invariant observer.keyHistory == KeysSinceReset(commands[..i])
    {
      assert commands[..i + 1][..i] == commands[..i];
      match commands[i]
      case Append(event, vk) => observer.AppendEvent(event, vk);
      case ResetAll => observer.Reset();
    }
    assert commands[..|commands|] == commands;
  }
}
