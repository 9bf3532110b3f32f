/** The session object whose fields the runtime updates in place.  Each method is one
    stretch of code without an `await`; its contract ties the new fields to the
    function of the old ones defined in `BurstStore`. */
module SessionRuntimes {
  import opened Options
  import opened BurstStore
  import Text

  lemma PublishOne(idempotency: map<Key, Receipt>, done: set<Key>, receipt: Receipt, k: Key)
    ensures Published(idempotency, done + {k}, receipt) == Published(idempotency, done, receipt)[k := receipt]
  {
  }

  lemma PopOne(inflight: map<Key, ClaimId>, done: set<Key>, c: ClaimId, k: Key)
    ensures var p := Popped(inflight, done, c);
            Popped(inflight, done + {k}, c) == if k in p && p[k] == c then p - {k} else p
  {
  }

  class SessionRuntime {
    var controlEpoch: int
    var stopped: bool
    var status: SessionStatus
    var otherClientBlockActive: bool
    var burstIdempotency: map<Key, Receipt>
    var burstInflight: map<Key, ClaimId>
    var burstSemanticInflight: map<Digest, ClaimId>
    var burstUnsafeSemanticReceipts: map<Digest, Reply>
    var claims: seq<Claim>

    ghost function View(): Store
      reads this
    {
      Store(controlEpoch, stopped, status, otherClientBlockActive,
            burstIdempotency, burstInflight, burstSemanticInflight, burstUnsafeSemanticReceipts, claims)
    }

    constructor ()
      ensures View() == FRESH
    {
      controlEpoch, stopped, status, otherClientBlockActive := 0, false, StatusRunning, false;
      burstIdempotency, burstInflight, burstSemanticInflight := map[], map[], map[];
      burstUnsafeSemanticReceipts, claims := map[], [];
    }

    method RevokeControlForHuman()
      modifies this`controlEpoch
      ensures View() == Revoke(old(View()))
    {
      controlEpoch := controlEpoch + 1;
    }

    method RevokeUnlessStopped() returns (revoked: bool)
      modifies this`controlEpoch
      ensures revoked == !old(stopped)
      ensures View() == RevokedByHuman(old(View()))
    {
      revoked := !stopped;
      if revoked {
        RevokeControlForHuman();
      }
    }

    /** Abort and the per-session part of panic share this: bump, latch, fail. */
    method Abort()
      modifies this`controlEpoch, this`stopped, this`status
      ensures View() == Aborted(old(View()))
    {
      controlEpoch := controlEpoch + 1;
      stopped := true;
      status := StatusFailed;
    }

    method PanicLatch() returns (halted: bool)
      modifies this`controlEpoch, this`stopped, this`status
      ensures halted == Haltable(old(status))
      ensures View() == PanicLatched(old(View()))
    {
      controlEpoch := controlEpoch + 1;
      stopped := true;
      halted := status == StatusRunning || status == StatusNeedsApproval || status == StatusPaused;
      if halted {
        status := StatusFailed;
      }
    }

    method Gate(planned: int, others: nat) returns (open: bool)
      modifies this`controlEpoch, this`otherClientBlockActive
      ensures View() == NoticeClients(old(View()), others)
      ensures open == GateOpen(View(), planned, others)
    {
      if others > 0 && !otherClientBlockActive {
        RevokeControlForHuman();
        otherClientBlockActive := true;
      }
      open := !stopped && controlEpoch == planned && others == 0;
    }

    /** The idempotency check; `None` lets the caller go on. */
    method CheckPrior(key: Key, digest: Digest, approved: Option<Digest>) returns (answer: Option<Reply>)
      ensures answer == PriorAnswer(View(), key, digest, approved)
    {
      answer := None;
      if key in burstIdempotency {
        var prior := burstIdempotency[key];
        if prior.digest != digest {
          return Some(Plain(Conflict, 0));
        }
        if prior.state != ReceiptPending || approved != Some(digest) {
          answer := Some(prior.reply.(idempotentReplay := true));
        }
      }
    }

    method ReplayUnsafeSemanticReceipt(key: Key, digest: Digest) returns (answer: Option<Reply>)
      modifies this`burstIdempotency
      ensures answer == SemanticAnswer(old(View()), digest)
      ensures View() == RecordSemantic(old(View()), key, digest)
    {
      if digest !in burstUnsafeSemanticReceipts {
        return None;
      }
      var base := burstUnsafeSemanticReceipts[digest];
      burstIdempotency := burstIdempotency[key := Receipt(digest, ReceiptCompleted, base)];
      answer := Some(base.(aliasReplay := true, semanticReplay := true));
    }

    method Enter(req: Request, approved: Option<Digest>) returns (answer: Option<Reply>)
      modifies this`status, this`burstIdempotency
      ensures (View(), answer) == Admit(old(View()), req, approved)
    {
      if stopped {
        return Some(Plain(Stopped, 0));
      }
      if !req.valid {
        status := StatusPaused;
        return Some(Plain(Failed, 0));
      }
      var key := if req.key.Some? then Text.Strip(req.key.value) else "";
      if key == "" {
        return Some(Plain(Failed, 0));
      }
      if |key| > MAX_KEY {
        return Some(Plain(Failed, 0));
      }
      answer := CheckPrior(key, req.digest, approved);
      if answer.Some? {
        return;
      }
      answer := ReplayUnsafeSemanticReceipt(key, req.digest);
      if answer.None? && (!req.worldGiven || req.epoch.None?) {
        answer := Some(Plain(FreshnessRequired, 0));
      }
    }

    method Observe(planned: int, current: bool, others: nat) returns (answer: Option<Reply>)
      modifies this`controlEpoch, this`otherClientBlockActive
      ensures (View(), answer) == CheckAuthority(old(View()), planned, current, others)
    {
      if !current {
        return Some(Plain(StaleWorld, 0));
      }
      if controlEpoch != planned {
        return Some(Plain(ControlChanged, 0));
      }
      if others > 0 {
        if !otherClientBlockActive {
          RevokeControlForHuman();
          otherClientBlockActive := true;
        }
        return Some(Plain(ControlChanged, 0));
      }
      otherClientBlockActive := false;
      answer := None;
    }

    method Claim(key: Key, digest: Digest, approved: Option<Digest>, origin: Origin)
      returns (decision: ClaimDecision)
      requires IndexesInRange(View())
      modifies this
      ensures (View(), decision) == ClaimOrJoin(old(View()), key, digest, approved, origin)
    {
      var prior := CheckPrior(key, digest, approved);
      if prior.Some? {
        return Answered(prior.value);
      }
      var replay := ReplayUnsafeSemanticReceipt(key, digest);
      if replay.Some? {
        return Answered(replay.value);
      }
      if key in burstInflight && claims[burstInflight[key]].digest != digest {
        return Answered(Plain(Conflict, 0));
      }
      var joined := None;
      if key in burstInflight {
        joined := Some(burstInflight[key]);
      } else if digest in burstSemanticInflight {
        var c := burstSemanticInflight[digest];
        joined := Some(c);
        claims := claims[c := claims[c].(keys := claims[c].keys + {key})];
        burstInflight := burstInflight[key := c];
      }
      if joined.Some? {
        decision := Joined(joined.value, claims[joined.value].ownerKey != key);
      } else {
        var c := |claims|;
        claims := claims + [BurstStore.Claim(digest, key, {key}, origin, Created, false, {})];
        burstInflight := burstInflight[key := c];
        burstSemanticInflight := burstSemanticInflight[digest := c];
        decision := Opened(c);
      }
      status := StatusRunning;
    }

    /** Pops an entry only where it still names this claim, so a late waiter cannot
        evict a newer claim. */
    method PublishUnderKeys(keys: set<Key>, c: ClaimId, receipt: Receipt)
      modifies this`burstIdempotency, this`burstInflight
      ensures burstIdempotency == Published(old(burstIdempotency), keys, receipt)
      ensures burstInflight == Popped(old(burstInflight), keys, c)
    {
      ghost var done := {};
      var todo := keys;
      assert Published(burstIdempotency, done, receipt) == burstIdempotency;
      assert Popped(burstInflight, done, c) == burstInflight;
      while todo != {}
        invariant done == keys - todo && todo <= keys
        invariant burstIdempotency == Published(old(burstIdempotency), done, receipt)
        invariant burstInflight == Popped(old(burstInflight), done, c)
        decreases todo
      {
        var k :| k in todo;
        PublishOne(old(burstIdempotency), done, receipt, k);
        PopOne(old(burstInflight), done, c, k);
        burstIdempotency := burstIdempotency[k := receipt];
        if k in burstInflight && burstInflight[k] == c {
          burstInflight := burstInflight - {k};
        }
        todo, done := todo - {k}, done + {k};
      }
      assert done == keys;
    }

    method FinishExecutionClaim(c: ClaimId, key: Key, digest: Digest, reply: Reply, retainUnsafe: bool)
      requires c < |claims|
      modifies this
      ensures View() == Finish(old(View()), c, key, digest, reply, retainUnsafe)
    {
      var base := reply.(inflightReplay := false, aliasReplay := false);
      var keys := if claims[c].keys == {} then {key} else claims[c].keys;
      PublishUnderKeys(keys, c, Receipt(digest, ReceiptCompleted, base));
      if digest in burstSemanticInflight && burstSemanticInflight[digest] == c {
        burstSemanticInflight := burstSemanticInflight - {digest};
      }
      if retainUnsafe {
        burstUnsafeSemanticReceipts := burstUnsafeSemanticReceipts[digest := base];
      }
      claims := claims[c := claims[c].(finished := true, words := claims[c].words + {reply.status})];
    }

    method HoldForApproval(key: Key, digest: Digest)
      modifies this`burstIdempotency
      ensures View() == StorePending(old(View()), key, digest)
    {
      burstIdempotency := burstIdempotency[key := Receipt(digest, ReceiptPending, Plain(NeedsApproval, 0))];
    }

    method ResolveWithoutApproval(key: Key, state: ReceiptState)
      modifies this`burstIdempotency, this`status
      ensures View() == CloseReceipt(old(View()), key, state)
    {
      if key in burstIdempotency {
        burstIdempotency :=
          burstIdempotency[key := burstIdempotency[key].(state := state, reply := Plain(Blocked, 0))];
      }
      status := StatusPaused;
    }

    /** A concurrent stop owns the terminal state; otherwise the session idles. */
    method SettleOutcome(o: Outcome, evidenceFailed: bool) returns (word: Word)
      requires o.Returned?
      modifies this`status
      ensures word == Effective(View(), o, evidenceFailed)
      ensures View() == Settled(old(View()))
    {
      word := o.status;
      if stopped {
        status := StatusFailed;
        word := Stopped;
      } else {
        status := StatusPaused;
        if evidenceFailed {
          word := Failed;
        }
      }
    }
  }
}
